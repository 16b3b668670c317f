/**
 * The input side of `run` (fetch.py): the loop that turns the lines of the
 * URL file into the query list and the query-to-raw-line index, the loop that
 * reads the user-agent and proxy files, the single-proxy fallback and the
 * worker-count clamp. A file is the sequence of its lines; `readline` past the
 * last line yields the empty string, which ends every loop.
 */
module Loading {
  import opened Text
  import opened Wrappers

  /** A line whose decoded form is empty ends the reading of the URL file. */
  predicate EndsInput(line: string) {
    Unquote(RStrip(line)) == []
  }

  /** How many lines are read before the first one that ends the input. */
  function StopAt(lines: seq<string>): (n: nat)
    ensures n <= |lines|
  {
    if |lines| == 0 || EndsInput(lines[0]) then 0 else 1 + StopAt(lines[1..])
  }

  /** Reading stops exactly at the first line that decodes to the empty string, or at the end of the file. */
  lemma {:induction false} StopAtFirstEnd(lines: seq<string>)
    ensures forall j :: 0 <= j < StopAt(lines) ==> !EndsInput(lines[j])
    ensures StopAt(lines) == |lines| || EndsInput(lines[StopAt(lines)])
  {
    if |lines| > 0 && !EndsInput(lines[0]) {
      StopAtFirstEnd(lines[1..]);
      forall j | 1 <= j < StopAt(lines) ensures !EndsInput(lines[j]) {
        assert lines[j] == lines[1..][j - 1];
      }
    }
  }

  /**
   * What one line of the URL file contributes: the query it yields, if any
   * (the last path segment of the decoded line, right-stripped, when that
   * segment is not empty), and the raw line the index records for it (the
   * line right-stripped, still encoded).
   */
  datatype Entry = Entry(query: Option<string>, raw: string)

  function Parse(line: string): Entry {
    var raw := RStrip(line);
    var segment := Basename(Unquote(raw));
    Entry(if segment != [] then Some(RStrip(segment)) else None, raw)
  }

  /** The entries of `ls`, in order. */
  function Entries(ls: seq<string>): (es: seq<Entry>)
    ensures |es| == |ls|
  {
    seq(|ls|, k requires 0 <= k < |ls| => Parse(ls[k]))
  }

  /** The entries the loop processes: one per line before the first line that ends the input. */
  function Loaded(lines: seq<string>): seq<Entry> {
    Entries(lines[..StopAt(lines)])
  }

  /** `queries` after the entry is appended. */
  function Append(qs: seq<string>, e: Entry): seq<string> {
    if e.query.Some? then qs + [e.query.value] else qs
  }

  /** `query_urls` after the entry is recorded: its query now maps to its raw line. */
  function Record(m: map<string, string>, e: Entry): map<string, string> {
    if e.query.Some? then m[e.query.value := e.raw] else m
  }

  /** The contents of `queries` after processing `es` in order. */
  function Queries(es: seq<Entry>): seq<string> {
    if |es| == 0 then [] else Append(Queries(es[..|es| - 1]), es[|es| - 1])
  }

  /** The contents of `query_urls` after processing `es` in order. */
  function QueryUrls(es: seq<Entry>): map<string, string> {
    if |es| == 0 then map[] else Record(QueryUrls(es[..|es| - 1]), es[|es| - 1])
  }

  /** The query-loading loop at the head of `run`. */
  method LoadQueries(lines: seq<string>) returns (queries: seq<string>, queryUrls: map<string, string>)
    ensures queries == Queries(Loaded(lines))
    ensures queryUrls == QueryUrls(Loaded(lines))
  {
    ghost var n := StopAt(lines);
    queries, queryUrls := [], map[];
    var i := 0;
    while true
      invariant i <= n <= |lines|
      invariant n == i + StopAt(lines[i..])
      invariant queries == Queries(Entries(lines[..i]))
      invariant queryUrls == QueryUrls(Entries(lines[..i]))
      decreases |lines| - i
    {
      var rawUrl := if i < |lines| then RStrip(lines[i]) else "";
      var url := Unquote(rawUrl);
      if url == [] {
        assert i < |lines| ==> EndsInput(lines[i]) && lines[i..][0] == lines[i];
        break;
      }
      var query := Basename(url);
      StopAtStep(lines, i);
      EntriesStep(lines, i);
      ParseStep(lines[i]);
      if query != [] {
        queries := queries + [RStrip(query)];
        queryUrls := queryUrls[RStrip(query) := rawUrl];
      }
      i := i + 1;
    }
    assert lines[..i] == lines[..n];
  }

  /** A line that does not end the input is counted, and reading goes on with the next one. */
  lemma StopAtStep(lines: seq<string>, i: nat)
    requires i < |lines| && !EndsInput(lines[i])
    ensures StopAt(lines[i..]) == 1 + StopAt(lines[i + 1..])
  {
    assert lines[i..][0] == lines[i] && lines[i..][1..] == lines[i + 1..];
  }

  /** One more line read adds its entry at the end. */
  lemma EntriesStep(lines: seq<string>, i: nat)
    requires i < |lines|
    ensures Entries(lines[..i + 1]) == Entries(lines[..i]) + [Parse(lines[i])]
  {
    var e := Entries(lines[..i + 1]);
    assert e[..i] == Entries(lines[..i]);
    assert e == e[..i] + [e[i]];
  }

  /** The entry of a line is what the loop body computes from it. */
  lemma ParseStep(line: string)
    ensures var query := Basename(Unquote(RStrip(line)));
      Parse(line) == Entry(if query != [] then Some(RStrip(query)) else None, RStrip(line))
  {
  }

  /** Queries of consecutive parts are the concatenation of their queries: order and duplicates are kept. */
  lemma {:induction false} QueriesAppend(a: seq<Entry>, b: seq<Entry>)
    ensures Queries(a + b) == Queries(a) + Queries(b)
  {
    if |b| == 0 {
      assert a + b == a;
    } else {
      var b' := b[..|b| - 1];
      assert (a + b)[..|a + b| - 1] == a + b' && (a + b)[|a + b| - 1] == b[|b| - 1];
      QueriesAppend(a, b');
    }
  }

  /** Every stored query is a key of the index and every key is a stored query, so the lookups of the aggregation cannot fail. */
  lemma {:induction false} IndexKeysAreQueries(es: seq<Entry>, q: string)
    ensures q in QueryUrls(es) <==> q in Queries(es)
  {
    if |es| > 0 {
      IndexKeysAreQueries(es[..|es| - 1], q);
    }
  }

  /** A query is stored exactly when some entry yields it. */
  lemma {:induction false} QueriesComeFromEntries(es: seq<Entry>, q: string)
    ensures q in Queries(es) <==> exists j :: 0 <= j < |es| && es[j].query == Some(q)
  {
    if |es| > 0 {
      var es' := es[..|es| - 1];
      QueriesComeFromEntries(es', q);
      if j :| 0 <= j < |es'| && es'[j].query == Some(q) {
        assert es[j] == es'[j];
      }
    }
  }

  /** Last write wins: the index maps a query to the raw line of the last entry yielding it. */
  lemma {:induction false} LastWriteWins(es: seq<Entry>, j: nat, q: string)
    requires j < |es| && es[j].query == Some(q)
    requires forall k :: j < k < |es| ==> es[k].query != Some(q)
    ensures q in QueryUrls(es) && QueryUrls(es)[q] == es[j].raw
  {
    if j < |es| - 1 {
      var es' := es[..|es| - 1];
      forall k | j < k < |es'| ensures es'[k].query != Some(q) {
        assert es'[k] == es[k];
      }
      LastWriteWins(es', j, q);
    }
  }

  /** The same, stated on the lines of the file: a query maps to the last line read that yields it. */
  lemma LastLineWins(lines: seq<string>, j: nat, q: string)
    requires j < StopAt(lines) && Parse(lines[j]).query == Some(q)
    requires forall k :: j < k < StopAt(lines) ==> Parse(lines[k]).query != Some(q)
    ensures q in QueryUrls(Loaded(lines)) && QueryUrls(Loaded(lines))[q] == RStrip(lines[j])
  {
    LastWriteWins(Loaded(lines), j, q);
  }

  /**
   * The first input form of the file's documentation: a Wayback URL whose
   * last segment is the percent-encoded query (as `dog%20and%20cat` in the
   * documented example) yields exactly that query, recorded under the whole
   * line.
   */
  lemma EncodedQueryLine(prefix: string, q: string)
    requires '%' !in prefix && '/' !in q && q != [] && !IsSpace(q[|q| - 1])
    ensures var line := prefix + "/" + Quote(q);
      !EndsInput(line) && Parse(line) == Entry(Some(q), line)
  {
    var line := prefix + "/" + Quote(q);
    QuoteLast(q);
    assert line[|line| - 1] == Quote(q)[|Quote(q)| - 1];
    RStripKeeps(line);
    UnquotePlain(prefix + "/", Quote(q));
    UnquoteQuote(q);
    BasenameAfterSlash(prefix, q);
    RStripKeeps(q);
  }

  /** The second input form: a bare query (as `dog and cat`) yields itself. */
  lemma BareQueryLine(q: string)
    requires '%' !in q && '/' !in q && q != [] && !IsSpace(q[|q| - 1])
    ensures !EndsInput(q) && Parse(q) == Entry(Some(q), q)
  {
    RStripKeeps(q);
    UnquoteWithoutPercent(q);
    BasenameWithoutSlash(q);
  }

  /** The list loaded from the user-agent or proxy file: right-stripped lines up to the first empty one. */
  function Listed(lines: seq<string>): (r: seq<string>)
    ensures |r| <= |lines|
  {
    if |lines| == 0 || RStrip(lines[0]) == [] then [] else [RStrip(lines[0])] + Listed(lines[1..])
  }

  /** Every listed item is the right-stripped line at its position and is not empty; the list ends at the first empty line. */
  lemma {:induction false} ListedStopsAtEmptyLine(lines: seq<string>)
    ensures var r := Listed(lines);
      && (forall i :: 0 <= i < |r| ==> r[i] == RStrip(lines[i]) && r[i] != [])
      && (|r| == |lines| || RStrip(lines[|r|]) == [])
  {
    if |lines| > 0 && RStrip(lines[0]) != [] {
      ListedStopsAtEmptyLine(lines[1..]);
      var r := Listed(lines);
      forall i | 1 <= i < |r| ensures r[i] == RStrip(lines[i]) && r[i] != [] {
        assert r[i] == Listed(lines[1..])[i - 1] && lines[i] == lines[1..][i - 1];
      }
      assert |r| < |lines| ==> lines[|r|] == lines[1..][|r| - 1];
    }
  }

  /** The loops that read the user-agent file and the proxy file. */
  method LoadList(lines: seq<string>) returns (items: seq<string>)
    ensures items == Listed(lines)
  {
    items := [];
    var i := 0;
    while true
      invariant i <= |lines|
      invariant Listed(lines) == items + Listed(lines[i..])
      decreases |lines| - i
    {
      var item := if i < |lines| then RStrip(lines[i]) else "";
      if item == [] {
        break;
      }
      assert lines[i..][1..] == lines[i + 1..];
      items := items + [item];
      i := i + 1;
    }
  }

  /** The proxy list: the proxy file's list, or else the single `-p` proxy when it is set and not empty. */
  function ChooseProxies(fromFile: seq<string>, proxyArg: Option<string>): (r: seq<string>)
    ensures fromFile != [] ==> r == fromFile
    ensures fromFile == [] ==> (r == [] <==> proxyArg.None? || proxyArg.value == [])
    ensures r != fromFile ==> r == [proxyArg.value]
  {
    if fromFile == [] && proxyArg.Some? && proxyArg.value != [] then [proxyArg.value] else fromFile
  }

  /** The worker-count clamp: a positive count is kept, any other becomes 1. */
  function EffectiveWorkers(requested: int): (w: int)
    ensures w >= 1
    ensures requested > 0 ==> w == requested
    ensures requested <= 0 ==> w == 1
  {
    if requested > 0 then requested else 1
  }
}
