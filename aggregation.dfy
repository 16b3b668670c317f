/**
 * The result loop of `run` (fetch.py:189-207) and the output text
 * (fetch.py:219). Results arrive in submission order. Each one is recorded in
 * `json_obj` under the raw line of its query. A result with an error adds an
 * error line. Any other result adds its anchors, then its hosts, to
 * `object_lines`.
 */
module Aggregation {
  import opened Text
  import opened Wrappers
  import opened Executor

  /** What one result adds to `object_lines`. */
  function Contribution(r: QueryResult): seq<string> {
    if r.error.Some? then [] else r.anchors.GetOr([]) + r.hosts.GetOr([])
  }

  /** `object_lines` after the results `rs`, in order. */
  function ObjectLines(rs: seq<QueryResult>): seq<string> {
    if |rs| == 0 then [] else ObjectLines(rs[..|rs| - 1]) + Contribution(rs[|rs| - 1])
  }

  /** Every query of `rs` has a raw line in the index. */
  predicate Indexed(rs: seq<QueryResult>, queryUrls: map<string, string>) {
    forall i :: 0 <= i < |rs| ==> rs[i].query in queryUrls
  }

  /** The line printed for a result with an error: its raw line and the message. */
  function ErrorLine(raw: string, message: string): string {
    raw + " ended with an error: " + message
  }

  /** The error lines printed for the results `rs`, in order. */
  function ErrorLines(rs: seq<QueryResult>, queryUrls: map<string, string>): seq<string>
    requires Indexed(rs, queryUrls)
  {
    if |rs| == 0 then []
    else
      var r := rs[|rs| - 1];
      ErrorLines(rs[..|rs| - 1], queryUrls) + (if r.error.Some? then [ErrorLine(queryUrls[r.query], r.error.value)] else [])
  }

  /** `json_obj` after the results `rs`: each result keyed by its query's raw line. */
  function JsonObj(rs: seq<QueryResult>, queryUrls: map<string, string>): map<string, QueryResult>
    requires Indexed(rs, queryUrls)
  {
    if |rs| == 0 then map[]
    else JsonObj(rs[..|rs| - 1], queryUrls)[queryUrls[rs[|rs| - 1].query] := rs[|rs| - 1]]
  }

  /** The result loop. */
  method Aggregate(results: seq<QueryResult>, queryUrls: map<string, string>)
    returns (jsonObj: map<string, QueryResult>, objectLines: seq<string>, errorLines: seq<string>)
    requires Indexed(results, queryUrls)
    ensures jsonObj == JsonObj(results, queryUrls)
    ensures objectLines == ObjectLines(results)
    ensures errorLines == ErrorLines(results, queryUrls)
  {
    jsonObj, objectLines, errorLines := map[], [], [];
    for i := 0 to |results|
      invariant jsonObj == JsonObj(results[..i], queryUrls)
      invariant objectLines == ObjectLines(results[..i])
      invariant errorLines == ErrorLines(results[..i], queryUrls)
    {
      var res := results[i];
      AggregateStep(results, queryUrls, i);
      jsonObj := jsonObj[queryUrls[res.query] := res];
      if res.error.Some? {
        errorLines := errorLines + [ErrorLine(queryUrls[res.query], res.error.value)];
      } else if res.hosts.Some? || res.anchors.Some? {
        objectLines := AppendLines(objectLines, res);
      }
    }
    assert results[..|results|] == results;
  }

  /** One turn of the result loop, on the folds. */
  lemma AggregateStep(results: seq<QueryResult>, queryUrls: map<string, string>, i: nat)
    requires Indexed(results, queryUrls) && i < |results|
    ensures Indexed(results[..i], queryUrls) && Indexed(results[..i + 1], queryUrls)
    ensures JsonObj(results[..i + 1], queryUrls) == JsonObj(results[..i], queryUrls)[queryUrls[results[i].query] := results[i]]
    ensures ObjectLines(results[..i + 1]) == ObjectLines(results[..i]) + Contribution(results[i])
    ensures ErrorLines(results[..i + 1], queryUrls) == ErrorLines(results[..i], queryUrls) +
      (if results[i].error.Some? then [ErrorLine(queryUrls[results[i].query], results[i].error.value)] else [])
  {
    assert results[..i + 1][..i] == results[..i];
  }

  /** A result without an error adds its anchors, then its hosts. */
  method AppendLines(lines: seq<string>, res: QueryResult) returns (out: seq<string>)
    requires res.error.None?
    ensures out == lines + Contribution(res)
  {
    out := lines;
    if res.anchors.Some? && |res.anchors.value| > 0 {
      out := Extend(out, res.anchors.value);
    }
    assert out == lines + res.anchors.GetOr([]);
    if res.hosts.Some? && |res.hosts.value| > 0 {
      out := Extend(out, res.hosts.value);
    }
  }

  /** `for x in items: lines.append(x)`. */
  method Extend(lines: seq<string>, items: seq<string>) returns (out: seq<string>)
    ensures out == lines + items
  {
    out := lines;
    for j := 0 to |items|
      invariant out == lines + items[..j]
    {
      out := out + [items[j]];
    }
    assert items[..|items|] == items;
  }

  /** The lines of consecutive batches of results are the concatenation of their lines. */
  lemma {:induction false} ObjectLinesAppend(a: seq<QueryResult>, b: seq<QueryResult>)
    ensures ObjectLines(a + b) == ObjectLines(a) + ObjectLines(b)
  {
    if |b| > 0 {
      var b' := b[..|b| - 1];
      assert (a + b)[..|a + b| - 1] == a + b' && (a + b)[|a + b| - 1] == b[|b| - 1];
      ObjectLinesAppend(a, b');
    } else {
      assert a + b == a;
    }
  }

  /** A line is saved exactly when some result without an error lists it among its anchors or its hosts. */
  lemma {:induction false} LineOrigin(rs: seq<QueryResult>, x: string)
    ensures x in ObjectLines(rs) <==>
      exists i :: 0 <= i < |rs| && rs[i].error.None? && (x in rs[i].anchors.GetOr([]) || x in rs[i].hosts.GetOr([]))
  {
    if |rs| > 0 {
      var front := rs[..|rs| - 1];
      LineOrigin(front, x);
      if i :| 0 <= i < |front| && front[i].error.None? && (x in front[i].anchors.GetOr([]) || x in front[i].hosts.GetOr([])) {
        assert rs[i] == front[i];
      }
    }
  }

  /** Results with an error add no line: dropping them leaves the saved lines unchanged. */
  lemma {:induction false} ErrorsAddNothing(rs: seq<QueryResult>)
    ensures ObjectLines(rs) == ObjectLines(WithoutErrors(rs))
  {
    if |rs| > 0 {
      var front := rs[..|rs| - 1];
      ErrorsAddNothing(front);
      var last := rs[|rs| - 1];
      if last.error.None? {
        var w := WithoutErrors(front) + [last];
        assert WithoutErrors(rs) == w;
        assert w[..|w| - 1] == WithoutErrors(front) && w[|w| - 1] == last;
        assert ObjectLines(w) == ObjectLines(WithoutErrors(front)) + Contribution(last);
      } else {
        assert WithoutErrors(rs) == WithoutErrors(front) + [] == WithoutErrors(front);
        assert ObjectLines(rs) == ObjectLines(front) + [] == ObjectLines(front);
      }
    }
  }

  /** The results without an error, in order. */
  function WithoutErrors(rs: seq<QueryResult>): (w: seq<QueryResult>)
    ensures forall i :: 0 <= i < |w| ==> w[i].error.None?
  {
    if |rs| == 0 then []
    else WithoutErrors(rs[..|rs| - 1]) + (if rs[|rs| - 1].error.None? then [rs[|rs| - 1]] else [])
  }

  /** Every result is recorded: its raw line is a key, and the keys are exactly the raw lines of the results. */
  lemma {:induction false} EveryResultRecorded(rs: seq<QueryResult>, queryUrls: map<string, string>, key: string)
    requires Indexed(rs, queryUrls)
    ensures key in JsonObj(rs, queryUrls) <==> exists i :: 0 <= i < |rs| && queryUrls[rs[i].query] == key
  {
    if |rs| > 0 {
      var front := rs[..|rs| - 1];
      assert Indexed(front, queryUrls) by {
        forall i | 0 <= i < |front| ensures front[i].query in queryUrls {
          assert front[i] == rs[i];
        }
      }
      EveryResultRecorded(front, queryUrls, key);
      if i :| 0 <= i < |front| && queryUrls[front[i].query] == key {
        assert rs[i] == front[i];
      }
    }
  }

  /** A raw line maps to the last result recorded under it. */
  lemma {:induction false} LastResultWins(rs: seq<QueryResult>, queryUrls: map<string, string>, j: nat)
    requires Indexed(rs, queryUrls) && j < |rs|
    requires forall k :: j < k < |rs| ==> queryUrls[rs[k].query] != queryUrls[rs[j].query]
    ensures queryUrls[rs[j].query] in JsonObj(rs, queryUrls)
    ensures JsonObj(rs, queryUrls)[queryUrls[rs[j].query]] == rs[j]
  {
    if j < |rs| - 1 {
      var front := rs[..|rs| - 1];
      forall i | 0 <= i < |front| ensures front[i] == rs[i] && front[i].query in queryUrls {
        assert rs[i].query in queryUrls;
      }
      LastResultWins(front, queryUrls, j);
    }
  }

  /** A result with anchors `a`, `b` and hosts `c` flattens to `a`, `b`, `c`, in that order. */
  lemma FlattenExample(query: string, a: string, b: string, c: string)
    ensures ObjectLines([QueryResult(query, Some([a, b]), Some([c]), None)]) == [a, b, c]
  {
    var rs := [QueryResult(query, Some([a, b]), Some([c]), None)];
    assert rs[..0] == [];
  }

  /** A failed anchor request adds no saved line and exactly one error line, naming the raw line. */
  lemma NetworkErrorExample(query: string, excludeHosts: bool, message: string, hostReply: Reply<HostBody>, queryUrls: map<string, string>)
    requires query in queryUrls
    ensures var rs := [Execute(query, excludeHosts, Failed(message), hostReply)];
      && ObjectLines(rs) == []
      && ErrorLines(rs, queryUrls) == [ErrorLine(queryUrls[query], message)]
  {
    var rs := [Execute(query, excludeHosts, Failed(message), hostReply)];
    assert rs[..0] == [];
  }

  /**
   * The documented scenario: one anchor object with link `x` and a host
   * reply with one host `y` give the saved lines `x`, `y`.
   */
  lemma ScenarioExample(query: string, x: string, y: string)
    ensures ObjectLines([Execute(query, false, Ok(Some([AnchorRecord(Some(x))])), Ok(Some(HostObject(Some([HostRecord(Some(y))])))))]) == [x, y]
  {
    var r := Execute(query, false, Ok(Some([AnchorRecord(Some(x))])), Ok(Some(HostObject(Some([HostRecord(Some(y))])))));
    var anchors, hosts := [AnchorRecord(Some(x))], [HostRecord(Some(y))];
    var links, names := Links(anchors), DisplayNames(hosts);
    assert anchors[0].link.Some? && hosts[0].displayName.Some?;
    assert links.Some? && names.Some?;
    assert links.value[0] == x && names.value[0] == y;
    assert links.value == [x] && names.value == [y];
    assert [r][..0] == [];
  }

  /** The saved text: the lines joined by newlines, with a final newline. */
  function OutputText(lines: seq<string>): string {
    Join(lines) + "\n"
  }

  /** Reading the saved text back line by line gives the lines and one empty piece after the final newline. */
  lemma OutputRoundTrip(lines: seq<string>)
    requires forall i :: 0 <= i < |lines| ==> '\n' !in lines[i]
    ensures Split(OutputText(lines)) == (if lines == [] then [""] else lines) + [""]
  {
    var padded := (if lines == [] then [""] else lines) + [""];
    assert lines == [] ==> Join(lines) == "";
    assert OutputText(lines) == Join(padded) by {
      JoinAppendEmpty(if lines == [] then [""] else lines);
    }
    SplitJoin(padded);
  }
}
