/**
 * The `fetch_wayback_machine` object (fetch.py:31-226): the proxy cursor it
 * keeps between tasks, `task_runner` and the core of `run`. The network is
 * replaced by the replies the requests of each task receive, given by task
 * position; files are given as their lines; the outputs are returned.
 */
module Wayback {
  import opened Wrappers
  import opened Loading
  import opened Dispatch
  import opened Executor
  import opened Aggregation

  /** What `run` ends with: no query was loaded, or every task ran and the results were aggregated. */
  datatype Outcome =
    | NoUrls
    | Finished(
        workers: int,
        tasks: seq<Task>,
        requests: seq<seq<Request>>,
        results: seq<QueryResult>,
        jsonObj: map<string, QueryResult>,
        errorLines: seq<string>,
        text: string)

  class Fetcher {
    /** `self._proxy_index`: the position of the last proxy used, -1 before the first. */
    var proxyIndex: int
    /** `self.args['exclude_hosts']`. */
    const excludeHosts: bool

    /** The cursor never goes below its initial value. */
    ghost predicate Valid()
      reads this
    {
      proxyIndex >= -1
    }

    constructor(excludeHosts: bool)
      ensures Valid()
      ensures this.excludeHosts == excludeHosts && proxyIndex == -1
    {
      this.excludeHosts := excludeHosts;
      proxyIndex := -1;
    }

    /** The proxy, if any, a task sent with the cursor now at `proxyIndex` used. */
    function ProxyUsed(proxies: seq<string>): Option<string>
      reads this
    {
      if proxies != [] && 0 <= proxyIndex < |proxies| then Some(proxies[proxyIndex]) else None
    }

    /**
     * The request options of `task_runner`: the `User-agent` header, and,
     * when the task has proxies, the cursor step and the proxy mapping.
     */
    method RequestKwargs(task: Task) returns (options: RequestOptions)
      requires Valid()
      modifies this
      ensures Valid()
      ensures task.proxies == [] ==> proxyIndex == old(proxyIndex)
      ensures task.proxies != [] ==> proxyIndex == Advance(old(proxyIndex), |task.proxies|)
      ensures options == Options(task.userAgent, ProxyUsed(task.proxies))
    {
      var headers: map<string, string> := map[];
      if task.userAgent.Some? && task.userAgent.value != [] {
        headers := map["User-agent" := task.userAgent.value];
      }
      var proxyMap: Option<map<string, string>> := None;
      if task.proxies != [] {
        proxyIndex := proxyIndex + 1;
        if proxyIndex >= |task.proxies| {
          proxyIndex := 0;
        }
        var proxy := task.proxies[proxyIndex];
        proxyMap := Some(map[ProxyKey(proxy) := proxy]);
      }
      options := RequestOptions(headers, proxyMap);
    }

    /**
     * `task_runner`: build the request options, run the anchor phase
     * (returning at once on an error) and then, unless hosts are excluded,
     * the host phase.
     */
    method TaskRunner(task: Task, anchorReply: Reply<AnchorBody>, hostReply: Reply<HostBody>)
      returns (res: QueryResult, sent: seq<Request>)
      requires Valid()
      modifies this
      ensures Valid()
      ensures res == Execute(task.query, excludeHosts, anchorReply, hostReply)
      ensures task.proxies == [] ==> proxyIndex == old(proxyIndex)
      ensures task.proxies != [] ==> proxyIndex == Advance(old(proxyIndex), |task.proxies|)
      ensures sent == Requests(task.query, excludeHosts, Options(task.userAgent, ProxyUsed(task.proxies)), anchorReply)
    {
      var anchorsUrl := AnchorEndpoint + task.query;
      var hostsUrl := HostEndpoint + task.query;
      res := QueryResult(task.query, None, None, None);
      var options := RequestKwargs(task);

      sent := [Request(anchorsUrl, options)];
      match anchorReply {
        case Failed(message) =>
          res := res.(error := Some(message));
          return;
        case Interrupted =>
          return;
        case Ok(objects) =>
          if objects.Some? && |objects.value| > 0 {
            var links := Links(objects.value);
            if links.None? {
              res := res.(error := Some(LinkKeyError));
              return;
            }
            res := res.(anchors := links);
          } else {
            res := res.(anchors := Some([]));
          }
      }

      if !excludeHosts {
        sent := sent + [Request(hostsUrl, options)];
        match hostReply {
          case Ok(Some(HostObject(Some(hosts)))) =>
            if |hosts| > 0 {
              var names := DisplayNames(hosts);
              if names.Some? {
                res := res.(hosts := names);
              }
            }
          case _ =>
        }
      }
    }

    /**
     * `for res in executor.map(self.task_runner, …)`, run sequentially in
     * submission order: task `i` receives the replies `anchorNet(i)` and
     * `hostNet(i)`, and the i-th task uses the i-th proxy of the rotation.
     */
    method RunTasks(tasks: seq<Task>, proxies: seq<string>, anchorNet: nat -> Reply<AnchorBody>, hostNet: nat -> Reply<HostBody>)
      returns (results: seq<QueryResult>, requests: seq<seq<Request>>)
      requires Valid()
      requires forall i :: 0 <= i < |tasks| ==> tasks[i].proxies == proxies
      modifies this
      ensures Valid()
      ensures proxyIndex == if proxies == [] then old(proxyIndex) else Cursor(old(proxyIndex), |tasks|, |proxies|)
      ensures |results| == |requests| == |tasks|
      ensures forall i :: 0 <= i < |tasks| ==> results[i] == Execute(tasks[i].query, excludeHosts, anchorNet(i), hostNet(i))
      ensures forall i :: 0 <= i < |tasks| ==>
        requests[i] == Requests(tasks[i].query, excludeHosts, Options(tasks[i].userAgent, ProxyAt(proxies, old(proxyIndex), i)), anchorNet(i))
    {
      ghost var start := proxyIndex;
      results, requests := [], [];
      for i := 0 to |tasks|
        invariant Valid()
        invariant |results| == |requests| == i
        invariant proxyIndex == if proxies == [] then start else Cursor(start, i, |proxies|)
        invariant forall j :: 0 <= j < i ==> results[j] == Execute(tasks[j].query, excludeHosts, anchorNet(j), hostNet(j))
        invariant forall j :: 0 <= j < i ==>
          requests[j] == Requests(tasks[j].query, excludeHosts, Options(tasks[j].userAgent, ProxyAt(proxies, start, j)), anchorNet(j))
      {
        var res, sent := TaskRunner(tasks[i], anchorNet(i), hostNet(i));
        assert ProxyUsed(proxies) == ProxyAt(proxies, start, i);
        results := results + [res];
        requests := requests + [sent];
      }
    }

    /**
     * The core of `run`: load the queries, the user agents and the proxies,
     * clamp the worker count, build the tasks, run them in submission order,
     * fold the results and form the output text.
     */
    method Run(urlLines: seq<string>, agentLines: Option<seq<string>>, maxWorkers: int, proxyArg: Option<string>,
               proxyLines: Option<seq<string>>, anchorNet: nat -> Reply<AnchorBody>, hostNet: nat -> Reply<HostBody>)
      returns (outcome: Outcome)
      requires Valid()
      modifies this
      ensures Valid()
      ensures outcome.NoUrls? <==> Queries(Loaded(urlLines)) == []
      ensures outcome.NoUrls? ==> proxyIndex == old(proxyIndex)
      ensures outcome.Finished? ==> outcome.workers == EffectiveWorkers(maxWorkers)
      ensures outcome.Finished? ==>
        TasksFor(outcome.tasks, Queries(Loaded(urlLines)), AgentsOf(agentLines), ProxiesOf(proxyLines, proxyArg))
      ensures outcome.Finished? ==>
        var proxies := ProxiesOf(proxyLines, proxyArg);
        && |outcome.results| == |outcome.requests| == |outcome.tasks|
        && (forall i :: 0 <= i < |outcome.tasks| ==>
              outcome.results[i] == Execute(outcome.tasks[i].query, excludeHosts, anchorNet(i), hostNet(i)))
        && (forall i :: 0 <= i < |outcome.tasks| ==>
              outcome.requests[i] == Requests(outcome.tasks[i].query, excludeHosts,
                Options(outcome.tasks[i].userAgent, ProxyAt(proxies, old(proxyIndex), i)), anchorNet(i)))
        && proxyIndex == if proxies == [] then old(proxyIndex) else Cursor(old(proxyIndex), |outcome.tasks|, |proxies|)
      ensures outcome.Finished? ==>
        var queryUrls := QueryUrls(Loaded(urlLines));
        && Indexed(outcome.results, queryUrls)
        && outcome.jsonObj.Keys != {}
        && outcome.jsonObj == JsonObj(outcome.results, queryUrls)
        && outcome.errorLines == ErrorLines(outcome.results, queryUrls)
        && outcome.text == OutputText(ObjectLines(outcome.results))
    {
      var queries, queryUrls := LoadQueries(urlLines);
      if queries == [] {
        return NoUrls;
      }

      var agents := [];
      if agentLines.Some? {
        agents := LoadList(agentLines.value);
      }
      var workers := EffectiveWorkers(maxWorkers);
      var proxies := [];
      if proxyLines.Some? {
        proxies := LoadList(proxyLines.value);
      }
      proxies := ChooseProxies(proxies, proxyArg);

      var tasks := BuildTasks(queries, agents, proxies);
      var results, requests := RunTasks(tasks, proxies, anchorNet, hostNet);

      forall i | 0 <= i < |results| ensures results[i].query in queryUrls {
        IndexKeysAreQueries(Loaded(urlLines), queries[i]);
      }
      var jsonObj, objectLines, errorLines := Aggregate(results, queryUrls);
      EveryResultRecorded(results, queryUrls, queryUrls[results[0].query]);
      outcome := Finished(workers, tasks, requests, results, jsonObj, errorLines, OutputText(objectLines));
    }
  }

  /** The user agents of the `-ua` file, in file order; none without the option. */
  function AgentsOf(agentLines: Option<seq<string>>): seq<string> {
    if agentLines.Some? then Listed(agentLines.value) else []
  }

  /** The proxies of the `-pf` file, or else the `-p` proxy. */
  function ProxiesOf(proxyLines: Option<seq<string>>, proxyArg: Option<string>): seq<string> {
    ChooseProxies(if proxyLines.Some? then Listed(proxyLines.value) else [], proxyArg)
  }
}
