/**
 * What `task_runner` (fetch.py:81-126) computes for one task, written as
 * values: the request options, the proxy cursor step, the two replies of the
 * Wayback Machine search endpoints and the result dictionary built from
 * them. The method on the fetcher object that performs these steps in order
 * lives in module Wayback and is proved to agree with `Execute`.
 */
module Executor {
  import opened Text
  import opened Wrappers

  /**
   * The outcome of one `requests.get(…)` followed by `r.json()`: an exception
   * with its message, a keyboard interrupt, or the decoded body.
   */
  datatype Reply<T> = Failed(message: string) | Interrupted | Ok(payload: T)

  /** One object of the anchor reply; `link` is absent when the object has no such key. */
  datatype AnchorRecord = AnchorRecord(link: Option<string>)

  /** The anchor body: a JSON array of objects, or `null` (`None`). */
  type AnchorBody = Option<seq<AnchorRecord>>

  /** One object of the `hosts` array; `displayName` is absent when it has no `display_name` key. */
  datatype HostRecord = HostRecord(displayName: Option<string>)

  /** The host body: `null` (`None`) or an object, whose `hosts` key may be missing. */
  datatype HostObject = HostObject(hosts: Option<seq<HostRecord>>)
  type HostBody = Option<HostObject>

  /** The `res` dictionary: `query` is always there, the other keys only when set. */
  datatype QueryResult = QueryResult(query: string, anchors: Option<seq<string>>, hosts: Option<seq<string>>, error: Option<string>)

  /** The message of the `KeyError` raised by `x['link']` on an object without that key. */
  const LinkKeyError := "'link'"

  /** `[x['link'] for x in objects]`, or `None` when some object lacks the key. */
  function Links(records: seq<AnchorRecord>): (r: Option<seq<string>>)
    ensures r.None? <==> exists i :: 0 <= i < |records| && records[i].link.None?
    ensures r.Some? ==> |r.value| == |records| && forall i :: 0 <= i < |records| ==> records[i].link == Some(r.value[i])
  {
    if |records| == 0 then Some([])
    else
      var front := Links(records[..|records| - 1]);
      var last := records[|records| - 1].link;
      assert forall i :: 0 <= i < |records| - 1 ==> records[..|records| - 1][i] == records[i];
      if front.Some? && last.Some? then Some(front.value + [last.value]) else None
  }

  /** `[x['display_name'] for x in objects['hosts']]`, or `None` when some object lacks the key. */
  function DisplayNames(records: seq<HostRecord>): (r: Option<seq<string>>)
    ensures r.None? <==> exists i :: 0 <= i < |records| && records[i].displayName.None?
    ensures r.Some? ==> |r.value| == |records| && forall i :: 0 <= i < |records| ==> records[i].displayName == Some(r.value[i])
  {
    if |records| == 0 then Some([])
    else
      var front := DisplayNames(records[..|records| - 1]);
      var last := records[|records| - 1].displayName;
      assert forall i :: 0 <= i < |records| - 1 ==> records[..|records| - 1][i] == records[i];
      if front.Some? && last.Some? then Some(front.value + [last.value]) else None
  }

  /** The anchor phase: the anchors, or the error message that ends the task. */
  datatype AnchorOutcome = Anchors(links: seq<string>) | AnchorError(message: string) | AnchorInterrupted

  function AnchorPhase(reply: Reply<AnchorBody>): AnchorOutcome {
    match reply
    case Failed(m) => AnchorError(m)
    case Interrupted => AnchorInterrupted
    case Ok(body) =>
      if body.None? || body.value == [] then Anchors([])
      else
        var links := Links(body.value);
        if links.Some? then Anchors(links.value) else AnchorError(LinkKeyError)
  }

  /** The host phase: the host list when the reply holds a non-empty `hosts` array whose objects all have a display name. */
  function HostPhase(reply: Reply<HostBody>): Option<seq<string>> {
    match reply
    case Ok(Some(HostObject(Some(records)))) =>
      if records != [] then DisplayNames(records) else None
    case _ => None
  }

  /**
   * The result of `task_runner` for one query, given the replies its
   * requests receive. The query is always recorded. The error is set exactly
   * when the anchor request fails (with its message) or an anchor object has
   * no link (with the `KeyError` message), and then neither anchors nor hosts
   * are. A null or empty anchor body records no anchors; otherwise the
   * anchors are the objects' links in order. An interrupt in the anchor phase
   * leaves only the query. `hosts` is set exactly when hosts are not
   * excluded, the anchor phase succeeded and the host reply holds a non-empty
   * `hosts` array of objects that all have a display name, and it then lists
   * those names in order; any other host reply, failure and interrupt
   * included, leaves neither `hosts` nor `error`.
   */
  function Execute(query: string, excludeHosts: bool, anchorReply: Reply<AnchorBody>, hostReply: Reply<HostBody>): (r: QueryResult)
    ensures r.query == query
    ensures r.error.Some? ==> r.anchors.None? && r.hosts.None?
    ensures anchorReply.Failed? ==> r.error == Some(anchorReply.message)
    ensures r.error.Some? <==> (anchorReply.Failed? ||
      (anchorReply.Ok? && anchorReply.payload.Some? && exists i :: 0 <= i < |anchorReply.payload.value| && anchorReply.payload.value[i].link.None?))
    ensures r.error.Some? && !anchorReply.Failed? ==> r.error == Some(LinkKeyError)
    ensures anchorReply.Ok? && (anchorReply.payload.None? || anchorReply.payload.value == []) ==> r.anchors == Some([])
    ensures r.anchors.Some? && anchorReply.Ok? && anchorReply.payload.Some? ==>
      (|r.anchors.value| == |anchorReply.payload.value| &&
       forall i :: 0 <= i < |anchorReply.payload.value| ==> anchorReply.payload.value[i].link == Some(r.anchors.value[i]))
    ensures r.anchors.Some? <==> anchorReply.Ok? && r.error.None?
    ensures anchorReply.Interrupted? ==> r == QueryResult(query, None, None, None)
    ensures var records := if hostReply.Ok? && hostReply.payload.Some? && hostReply.payload.value.hosts.Some?
                           then hostReply.payload.value.hosts.value else [];
      && (r.hosts.Some? <==>
            !excludeHosts && r.anchors.Some? && records != [] &&
            forall i :: 0 <= i < |records| ==> records[i].displayName.Some?)
      && (r.hosts.Some? ==> |r.hosts.value| == |records| && forall i :: 0 <= i < |records| ==> records[i].displayName == Some(r.hosts.value[i]))
  {
    match AnchorPhase(anchorReply)
    case AnchorError(m) => QueryResult(query, None, None, Some(m))
    case AnchorInterrupted => QueryResult(query, None, None, None)
    case Anchors(links) => QueryResult(query, Some(links), if excludeHosts then None else HostPhase(hostReply), None)
  }

  /** The keyword arguments of both `requests.get` calls. */
  datatype RequestOptions = RequestOptions(headers: map<string, string>, proxies: Option<map<string, string>>)

  /** A request the runner sends: the URL and its options. */
  datatype Request = Request(url: string, options: RequestOptions)

  const AnchorEndpoint := "http://web.archive.org/__wb/search/anchor?q="
  const HostEndpoint := "http://web.archive.org/__wb/search/host?q="

  /** The scheme key of the proxy mapping: `https` when the proxy mentions `https://`, else `http`. */
  function ProxyKey(proxy: string): (k: string)
    ensures k == (if exists i: nat :: OccursAt(proxy, "https://", i) then "https" else "http")
  {
    "http" + (if Contains(proxy, "https://") then "s" else "")
  }

  /**
   * The request options for a task's agent and the proxy chosen for it. The
   * `User-agent` header is present exactly when the agent is set and not
   * empty; a chosen proxy gives a one-entry proxy mapping under its scheme key.
   */
  function Options(userAgent: Option<string>, proxy: Option<string>): (o: RequestOptions)
    ensures o.headers.Keys <= {"User-agent"}
    ensures "User-agent" in o.headers <==> userAgent.Some? && userAgent.value != []
    ensures "User-agent" in o.headers ==> o.headers["User-agent"] == userAgent.value
    ensures o.proxies.Some? <==> proxy.Some?
    ensures proxy.Some? ==>
      (|o.proxies.value| == 1 && ProxyKey(proxy.value) in o.proxies.value && o.proxies.value[ProxyKey(proxy.value)] == proxy.value)
  {
    var headers := if userAgent.Some? && userAgent.value != [] then map["User-agent" := userAgent.value] else map[];
    RequestOptions(headers, if proxy.Some? then Some(map[ProxyKey(proxy.value) := proxy.value]) else None)
  }

  /** The requests a task sends: the anchor search, then the host search unless hosts are excluded or the anchor phase ended the task. */
  function Requests(query: string, excludeHosts: bool, options: RequestOptions, anchorReply: Reply<AnchorBody>): (rs: seq<Request>)
    ensures 1 <= |rs| <= 2 && rs[0] == Request(AnchorEndpoint + query, options)
    ensures |rs| == 2 <==> !excludeHosts && AnchorPhase(anchorReply).Anchors?
    ensures |rs| == 2 ==> rs[1] == Request(HostEndpoint + query, options)
  {
    [Request(AnchorEndpoint + query, options)] +
    (if !excludeHosts && AnchorPhase(anchorReply).Anchors? then [Request(HostEndpoint + query, options)] else [])
  }

  /** The proxy cursor step: one past the previous position, back to 0 at the end of the list. */
  function Advance(cursor: int, n: nat): (c: int)
    requires n > 0
    ensures cursor >= -1 ==> 0 <= c < n
    ensures -1 <= cursor < n ==> c == (cursor + 1) % n
  {
    if cursor + 1 >= n then 0 else cursor + 1
  }

  /** The cursor after `k` tasks over a list of `n` proxies, starting from `start`. */
  function Cursor(start: int, k: nat, n: nat): (c: int)
    requires n > 0
    ensures start >= -1 ==> c >= -1
    ensures start >= -1 && k > 0 ==> 0 <= c < n
  {
    if k == 0 then start else Advance(Cursor(start, k - 1, n), n)
  }

  /** The proxy task `i` of a run uses, when every task shares `proxies` and the cursor started at `start`. */
  function ProxyAt(proxies: seq<string>, start: int, i: nat): Option<string>
    requires start >= -1
  {
    if proxies == [] then None else Some(proxies[Cursor(start, i + 1, |proxies|)])
  }

  /** From the initial -1, the first `n` tasks select proxies 0, 1, …, n-1 in turn. */
  lemma {:induction false} FirstRound(k: nat, n: nat)
    requires 0 < n && 1 <= k <= n
    ensures Cursor(-1, k, n) == k - 1
  {
    if k > 1 {
      FirstRound(k - 1, n);
    }
  }

  /** After the last proxy the selection starts again from proxy 0: every `n` tasks the cursor repeats. */
  lemma {:induction false} Periodic(k: nat, n: nat)
    requires 0 < n && k >= 1
    ensures Cursor(-1, k + n, n) == Cursor(-1, k, n)
  {
    if k == 1 {
      FirstRound(n, n);
    } else {
      Periodic(k - 1, n);
      assert k + n - 1 == (k - 1) + n;
    }
  }

  /** How many of the first `m` tasks, from the initial -1, select proxy 0. */
  function ZeroVisits(m: nat, n: nat): nat
    requires n > 0
  {
    if m == 0 then 0 else ZeroVisits(m - 1, n) + (if Cursor(-1, m, n) == 0 then 1 else 0)
  }

  lemma {:induction false} FirstRoundVisitsZeroOnce(m: nat, n: nat)
    requires 1 <= m <= n
    ensures ZeroVisits(m, n) == 1
  {
    FirstRound(m, n);
    if m > 1 {
      FirstRoundVisitsZeroOnce(m - 1, n);
    }
  }

  /** Wraparound: `n + 1` consecutive selections over `n` proxies visit proxy 0 exactly twice. */
  lemma ZeroTwice(n: nat)
    requires n > 0
    ensures ZeroVisits(n + 1, n) == 2
  {
    FirstRoundVisitsZeroOnce(n, n);
    Periodic(1, n);
    FirstRound(1, n);
  }
}
