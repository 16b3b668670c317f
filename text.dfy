/**
 * The string operations the loader and the executor rely on: Python's
 * `str.rstrip()`, `os.path.basename`, a percent-decoder in the manner of
 * `urllib.parse.unquote`, the substring test `in`, and `'\n'.join`.
 */
module Text {

  /** Python's `str.isspace()` for one character. */
  predicate IsSpace(c: char) {
    var n := c as int;
    || (0x09 <= n <= 0x0D) || (0x1C <= n <= 0x20)
    || n == 0x85 || n == 0xA0 || n == 0x1680
    || (0x2000 <= n <= 0x200A)
    || n == 0x2028 || n == 0x2029 || n == 0x202F || n == 0x205F || n == 0x3000
  }

  /** The length of `s` once its trailing whitespace is dropped. */
  function StrippedLength(s: string): (n: nat)
    ensures n <= |s|
    ensures n == 0 || !IsSpace(s[n - 1])
    ensures forall i :: n <= i < |s| ==> IsSpace(s[i])
  {
    if |s| > 0 && IsSpace(s[|s| - 1]) then StrippedLength(s[..|s| - 1]) else |s|
  }

  /** `s.rstrip()`: `s` without its trailing whitespace. */
  function RStrip(s: string): string {
    s[..StrippedLength(s)]
  }

  /** `s.rfind(c)`: the index of the last `c` in `s`, or -1 when there is none. */
  function RFind(s: string, c: char): (k: int)
    ensures -1 <= k < |s|
    ensures k >= 0 ==> s[k] == c
    ensures forall j :: k < j < |s| ==> s[j] != c
  {
    if |s| == 0 then -1 else if s[|s| - 1] == c then |s| - 1 else RFind(s[..|s| - 1], c)
  }

  /** `os.path.basename(s)`: the text after the last `/`, all of `s` when it has none. */
  function Basename(s: string): string {
    s[RFind(s, '/') + 1..]
  }

  /** The base name is the longest suffix without a `/`. */
  lemma BasenameIsLastSegment(s: string)
    ensures var r := Basename(s);
      && |r| <= |s| && r == s[|s| - |r|..]
      && '/' !in r
      && (|r| == |s| || s[|s| - |r| - 1] == '/')
  {
    var k := RFind(s, '/');
    var r := s[k + 1..];
    forall j | 0 <= j < |r| ensures r[j] != '/' {
      assert r[j] == s[k + 1 + j];
    }
  }

  /** `p` occurs in `s` at position `i`. */
  predicate OccursAt(s: string, p: string, i: nat) {
    i + |p| <= |s| && s[i..i + |p|] == p
  }

  /** Python's `p in s` for strings: `p` occurs somewhere in `s`. */
  function Contains(s: string, p: string): (b: bool)
    ensures b <==> exists i: nat :: OccursAt(s, p, i)
    decreases |s|
  {
    if |p| > |s| then false
    else if s[..|p|] == p then assert OccursAt(s, p, 0); true
    else
      ContainsShift(s, p);
      Contains(s[1..], p)
  }

  lemma ContainsShift(s: string, p: string)
    requires |s| > 0 && !OccursAt(s, p, 0)
    ensures (exists i: nat :: OccursAt(s, p, i)) <==> (exists j: nat :: OccursAt(s[1..], p, j))
  {
    if i: nat :| OccursAt(s, p, i) {
      assert i > 0 && s[1..][i - 1..i - 1 + |p|] == s[i..i + |p|];
      assert OccursAt(s[1..], p, i - 1);
    }
    if j: nat :| OccursAt(s[1..], p, j) {
      assert s[1..][j..j + |p|] == s[j + 1..j + 1 + |p|];
      assert OccursAt(s, p, j + 1);
    }
  }

  predicate IsHexDigit(c: char) {
    ('0' <= c <= '9') || ('a' <= c <= 'f') || ('A' <= c <= 'F')
  }

  function HexValue(c: char): (v: nat)
    requires IsHexDigit(c)
    ensures v < 16
  {
    if '0' <= c <= '9' then c as nat - '0' as nat
    else if 'a' <= c <= 'f' then c as nat - 'a' as nat + 10
    else c as nat - 'A' as nat + 10
  }

  /** The upper-case hex digit of `v`. */
  function HexDigit(v: nat): (c: char)
    requires v < 16
    ensures IsHexDigit(c) && HexValue(c) == v
  {
    if v < 10 then ('0' as nat + v) as char else ('A' as nat + v - 10) as char
  }

  /** `%XX` at the front of `s`, with `XX` two hex digits naming an ASCII code. */
  predicate EscapeAt(s: string) {
    |s| >= 3 && s[0] == '%' && IsHexDigit(s[1]) && IsHexDigit(s[2])
    && 16 * HexValue(s[1]) + HexValue(s[2]) < 0x80
  }

  /**
   * Percent-decoding (RFC 3986, section 2.1) restricted to ASCII: every `%XX`
   * naming a code below 0x80 becomes that character, and every other `%`
   * stays as it is.
   */
  function Unquote(s: string): string {
    if |s| == 0 then []
    else if EscapeAt(s) then [(16 * HexValue(s[1]) + HexValue(s[2])) as char] + Unquote(s[3..])
    else [s[0]] + Unquote(s[1..])
  }

  /** RFC 3986, section 2.3: the characters that never need encoding. */
  predicate Unreserved(c: char) {
    ('a' <= c <= 'z') || ('A' <= c <= 'Z') || ('0' <= c <= '9') || c == '-' || c == '.' || c == '_' || c == '~'
  }

  /** Percent-encoding of every ASCII character that is not unreserved. */
  function Quote(s: string): (r: string)
    ensures forall i :: 0 <= i < |r| && r[i] == '%' ==> EscapeAt(r[i..])
  {
    if |s| == 0 then []
    else
      var c := s[0];
      var head := if c as int < 0x80 && !Unreserved(c)
                  then ['%', HexDigit(c as nat / 16), HexDigit(c as nat % 16)]
                  else [c];
      var rest := Quote(s[1..]);
      assert forall i :: |head| <= i < |head| + |rest| ==> (head + rest)[i..] == rest[i - |head|..];
      head + rest
  }

  /** Decoding undoes encoding. */
  lemma {:induction false} UnquoteQuote(s: string)
    ensures Unquote(Quote(s)) == s
  {
    if |s| > 0 {
      var c := s[0];
      UnquoteQuote(s[1..]);
      if c as int < 0x80 && !Unreserved(c) {
        var e := ['%', HexDigit(c as nat / 16), HexDigit(c as nat % 16)];
        assert Quote(s) == e + Quote(s[1..]);
        assert (e + Quote(s[1..]))[3..] == Quote(s[1..]);
      } else {
        assert Quote(s) == [c] + Quote(s[1..]);
        assert ([c] + Quote(s[1..]))[1..] == Quote(s[1..]);
      }
    }
  }

  /** Encoding keeps a text non-empty and never ends it in whitespace unless the text ended so. */
  lemma {:induction false} QuoteLast(s: string)
    requires |s| > 0 && !IsSpace(s[|s| - 1])
    ensures |Quote(s)| > 0 && !IsSpace(Quote(s)[|Quote(s)| - 1])
  {
    var c := s[0];
    var head := if c as int < 0x80 && !Unreserved(c)
                then ['%', HexDigit(c as nat / 16), HexDigit(c as nat % 16)]
                else [c];
    assert Quote(s) == head + Quote(s[1..]);
    if |s| > 1 {
      QuoteLast(s[1..]);
    } else {
      assert Quote(s[1..]) == [];
    }
  }

  /** A string without `%` decodes to itself. */
  lemma {:induction false} UnquoteWithoutPercent(s: string)
    requires '%' !in s
    ensures Unquote(s) == s
  {
    if |s| > 0 {
      UnquoteWithoutPercent(s[1..]);
    }
  }

  /** Decoding a text without `%` leaves it unchanged in front of whatever follows. */
  lemma {:induction false} UnquotePlain(a: string, b: string)
    requires '%' !in a
    ensures Unquote(a + b) == a + Unquote(b)
  {
    if |a| > 0 {
      assert (a + b)[0] == a[0] && (a + b)[1..] == a[1..] + b;
      UnquotePlain(a[1..], b);
    } else {
      assert a + b == b;
    }
  }

  /** `%20` decodes to a space. */
  lemma UnquoteSpace(b: string)
    ensures Unquote("%20" + b) == " " + Unquote(b)
  {
    var s := "%20" + b;
    assert s[0] == '%' && s[1] == '2' && s[2] == '0' && s[3..] == b;
    assert HexValue('2') == 2 && HexValue('0') == 0;
  }

  /** A text that does not end in whitespace is its own right-stripped form. */
  lemma RStripKeeps(s: string)
    requires |s| > 0 && !IsSpace(s[|s| - 1])
    ensures RStrip(s) == s
  {
  }

  /** The last segment of `a/b` is `b` when `b` has no `/`. */
  lemma BasenameAfterSlash(a: string, b: string)
    requires '/' !in b
    ensures Basename(a + "/" + b) == b
  {
    var s := a + "/" + b;
    assert s[|a|] == '/';
    assert forall j :: |a| < j < |s| ==> s[j] == b[j - |a| - 1];
    assert RFind(s, '/') == |a|;
    assert s[|a| + 1..] == b;
  }

  /** The last segment of a text without `/` is the whole text. */
  lemma BasenameWithoutSlash(s: string)
    requires '/' !in s
    ensures Basename(s) == s
  {
    assert RFind(s, '/') == -1;
  }

  /** `'\n'.join(lines)`. */
  function Join(lines: seq<string>): string {
    if |lines| == 0 then []
    else if |lines| == 1 then lines[0]
    else lines[0] + "\n" + Join(lines[1..])
  }

  /** Joining one more empty line adds a final newline. */
  lemma {:induction false} JoinAppendEmpty(lines: seq<string>)
    requires |lines| >= 1
    ensures Join(lines + [""]) == Join(lines) + "\n"
  {
    if |lines| > 1 {
      assert (lines + [""])[1..] == lines[1..] + [""];
      JoinAppendEmpty(lines[1..]);
    }
  }

  /** `t.split('\n')`: the pieces of `t` between newlines; never empty. */
  function Split(t: string): (r: seq<string>)
    ensures |r| >= 1
    ensures forall i :: 0 <= i < |r| ==> '\n' !in r[i]
  {
    if |t| == 0 then [[]]
    else if t[0] == '\n' then [[]] + Split(t[1..])
    else
      var rest := Split(t[1..]);
      [[t[0]] + rest[0]] + rest[1..]
  }

  lemma {:induction false} SplitLine(a: string, t: string)
    requires '\n' !in a
    ensures Split(a + t) == [a + Split(t)[0]] + Split(t)[1..]
  {
    if |a| > 0 {
      SplitLine(a[1..], t);
      assert (a + t)[1..] == a[1..] + t;
      assert [a[0]] + (a[1..] + Split(t)[0]) == a + Split(t)[0];
    } else {
      assert a == [] && a + t == t && a + Split(t)[0] == Split(t)[0];
      assert Split(t) == [Split(t)[0]] + Split(t)[1..];
    }
  }

  /** Splitting undoes joining when no line holds a newline. */
  lemma {:induction false} SplitJoin(lines: seq<string>)
    requires |lines| >= 1
    requires forall i :: 0 <= i < |lines| ==> '\n' !in lines[i]
    ensures Split(Join(lines)) == lines
  {
    if |lines| == 1 {
      SplitLine(lines[0], []);
      assert lines[0] + [] == lines[0];
    } else {
      SplitJoin(lines[1..]);
      var t := "\n" + Join(lines[1..]);
      assert Join(lines) == lines[0] + t;
      assert t[1..] == Join(lines[1..]);
      SplitLine(lines[0], t);
      assert lines[0] + [] == lines[0];
    }
  }
}
