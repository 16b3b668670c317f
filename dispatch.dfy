/**
 * The task list `run` hands to the executor (fetch.py:188): one task per
 * query, in query order, each holding the agent popped from the end of the
 * remaining user-agent list (or `None` once that list is used up) and the
 * one proxy list every task shares.
 */
module Dispatch {
  import opened Wrappers

  /** One `{'query': …, 'user_agent': …, 'proxies': …}` dictionary of `query_list`. */
  datatype Task = Task(query: string, userAgent: Option<string>, proxies: seq<string>)

  /**
   * One task per query, in query order, all sharing `proxies`; task `k`
   * carries an agent exactly when `k < |agents|`, and then the one `k`
   * places from the end of the list.
   */
  predicate TasksFor(tasks: seq<Task>, queries: seq<string>, agents: seq<string>, proxies: seq<string>) {
    && |tasks| == |queries|
    && (forall k :: 0 <= k < |tasks| ==> tasks[k].query == queries[k] && tasks[k].proxies == proxies)
    && (forall k :: 0 <= k < |tasks| ==> (tasks[k].userAgent.Some? <==> k < |agents|))
    && (forall k :: 0 <= k < |tasks| && k < |agents| ==> tasks[k].userAgent == Some(agents[|agents| - 1 - k]))
  }

  /** The `for query in queries` loop, with `user_agents.pop() if user_agents else None`. */
  method BuildTasks(queries: seq<string>, agents: seq<string>, proxies: seq<string>) returns (tasks: seq<Task>)
    ensures TasksFor(tasks, queries, agents, proxies)
  {
    var pool := agents;
    tasks := [];
    for k := 0 to |queries|
      invariant |tasks| == k
      invariant pool == agents[..|agents| - Min(k, |agents|)]
      invariant forall j :: 0 <= j < k ==> tasks[j].query == queries[j] && tasks[j].proxies == proxies
      invariant forall j :: 0 <= j < k ==> (tasks[j].userAgent.Some? <==> j < |agents|)
      invariant forall j :: 0 <= j < k && j < |agents| ==> tasks[j].userAgent == Some(agents[|agents| - 1 - j])
    {
      var agent: Option<string>;
      if pool != [] {
        agent := Some(pool[|pool| - 1]);
        pool := pool[..|pool| - 1];
      } else {
        agent := None;
      }
      tasks := tasks + [Task(queries[k], agent, proxies)];
    }
  }

  function Min(a: nat, b: nat): nat {
    if a < b then a else b
  }

  /** The number of tasks that carry a user agent. */
  function WithAgent(tasks: seq<Task>): nat {
    if |tasks| == 0 then 0 else WithAgent(tasks[..|tasks| - 1]) + (if tasks[|tasks| - 1].userAgent.Some? then 1 else 0)
  }

  /** When exactly the first `n` tasks carry an agent, `min(#tasks, n)` of them do. */
  lemma {:induction false} AgentsHandedOut(tasks: seq<Task>, n: nat)
    requires forall k :: 0 <= k < |tasks| ==> (tasks[k].userAgent.Some? <==> k < n)
    ensures WithAgent(tasks) == Min(|tasks|, n)
  {
    if |tasks| > 0 {
      var front := tasks[..|tasks| - 1];
      forall k | 0 <= k < |front| ensures front[k].userAgent.Some? <==> k < n {
        assert front[k] == tasks[k];
      }
      AgentsHandedOut(front, n);
    }
  }
}
