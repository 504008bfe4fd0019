/**
 * How `readBody` cuts one decoded chunk of the response body into lines:
 * `split("\n")`, then per line `trim()`, drop one leading `data:`, `trim()`
 * again, and keep the non-empty results in order.
 *
 * Chunks are framed one at a time: a line the network splits across two
 * chunks comes out as two lines (`ChunkBoundarySplitsLine`).
 */
module Framing {

  /** The characters `String.prototype.trim` removes (WhiteSpace and LineTerminator). */
  predicate IsSpace(c: char) {
    || c == '\t' || c == '\n' || c == '\U{B}' || c == '\U{C}' || c == '\r' || c == ' '
    || c == '\U{A0}' || c == '\U{1680}' || ('\U{2000}' <= c <= '\U{200A}')
    || c == '\U{2028}' || c == '\U{2029}' || c == '\U{202F}' || c == '\U{205F}'
    || c == '\U{3000}' || c == '\U{FEFF}'
  }

  predicate AllSpace(s: string) {
    forall i :: 0 <= i < |s| ==> IsSpace(s[i])
  }

  /** `s` has no white space at either end. */
  predicate Trimmed(s: string) {
    |s| == 0 || (!IsSpace(s[0]) && !IsSpace(s[|s| - 1]))
  }

  /** How many white-space characters `s` starts with. */
  function LeadingSpaces(s: string): (n: nat)
    ensures n <= |s|
    ensures forall i :: 0 <= i < n ==> IsSpace(s[i])
    ensures n == |s| || !IsSpace(s[n])
  {
    if |s| > 0 && IsSpace(s[0]) then 1 + LeadingSpaces(s[1..]) else 0
  }

  /** How many white-space characters `s` ends with. */
  function TrailingSpaces(s: string): (n: nat)
    ensures n <= |s|
    ensures forall i :: |s| - n <= i < |s| ==> IsSpace(s[i])
    ensures n == |s| || !IsSpace(s[|s| - n - 1])
  {
    if |s| > 0 && IsSpace(s[|s| - 1]) then 1 + TrailingSpaces(s[..|s| - 1]) else 0
  }

  /** The first half of `trim()`: drop the leading white space. */
  function TrimStart(s: string): string {
    s[LeadingSpaces(s)..]
  }

  /** The second half of `trim()`: drop the trailing white space. */
  function TrimEnd(s: string): string {
    s[..|s| - TrailingSpaces(s)]
  }

  /**
   * `TrimStart` leaves what follows a run of white space at the start, and
   * that rest does not start with white space.
   */
  lemma TrimStartDrops(s: string)
    ensures var r := TrimStart(s);
            && |r| <= |s| && r == s[|s| - |r|..]
            && AllSpace(s[..|s| - |r|])
            && (r == "" || !IsSpace(r[0]))
  {
    var n := LeadingSpaces(s);
    forall i | 0 <= i < n ensures IsSpace(s[..n][i]) {
      assert s[..n][i] == s[i];
    }
  }

  /**
   * `TrimEnd` leaves what precedes a run of white space at the end, and
   * that rest does not end with white space.
   */
  lemma TrimEndDrops(s: string)
    ensures var r := TrimEnd(s);
            && |r| <= |s| && r == s[..|r|]
            && AllSpace(s[|r|..])
            && (r == "" || !IsSpace(r[|r| - 1]))
  {
    var n := |s| - TrailingSpaces(s);
    forall i | 0 <= i < |s| - n ensures IsSpace(s[n..][i]) {
      assert s[n..][i] == s[n + i];
    }
  }

  /** `s.trim()`: drop white space from both ends. */
  function Trim(s: string): (r: string)
    ensures Trimmed(r)
    ensures |r| <= |s|
    ensures r == "" <==> AllSpace(s)
  {
    var a := TrimStart(s);
    var r := TrimEnd(a);
    assert |a| == 0 || !IsSpace(a[0]);
    r
  }

  /** `s` is the trimmed text wrapped in white space on both sides. */
  lemma TrimSlice(s: string)
    ensures exists i, j :: 0 <= i <= j <= |s| && Trim(s) == s[i..j] && AllSpace(s[..i]) && AllSpace(s[j..])
  {
    var i := LeadingSpaces(s);
    var a := s[i..];
    var j := i + |a| - TrailingSpaces(a);
    assert Trim(s) == s[i..j];
    assert AllSpace(s[j..]) by {
      forall k | 0 <= k < |s| - j ensures IsSpace(s[j..][k]) {
        assert s[j..][k] == a[j - i + k];
      }
    }
  }

  const DataTag: string := "data:"

  /** `replace(/^data:/, "")`: remove one `data:` at the very start, if present. */
  function StripData(s: string): (r: string)
    ensures s == DataTag + r || (r == s && !(|s| >= |DataTag| && s[..|DataTag|] == DataTag))
  {
    if |s| >= |DataTag| && s[..|DataTag|] == DataTag then s[|DataTag|..] else s
  }

  /** The cleaning `readBody` applies to every line. */
  function Clean(line: string): (r: string)
    ensures Trimmed(r)
    ensures |r| <= |line|
  {
    Trim(StripData(Trim(line)))
  }

  /** Pieces joined back with "\n" between them (the inverse of `split("\n")`). */
  function JoinLines(ls: seq<string>): string
    requires |ls| > 0
  {
    if |ls| == 1 then ls[0] else ls[0] + "\n" + JoinLines(ls[1..])
  }

  predicate NoNewline(ls: seq<string>) {
    forall k :: 0 <= k < |ls| ==> '\n' !in ls[k]
  }

  /** `s.split("\n")`: never empty; "" gives [""], and "a\n" gives ["a", ""]. */
  function SplitLines(s: string): (r: seq<string>)
    ensures |r| > 0
    ensures NoNewline(r)
    ensures JoinLines(r) == s
  {
    if |s| == 0 then [""]
    else
      var rest := SplitLines(s[1..]);
      if s[0] == '\n' then
        assert s == "\n" + s[1..];
        [""] + rest
      else
        var r := [[s[0]] + rest[0]] + rest[1..];
        JoinConsChar(s[0], rest);
        r
  }

  /** Prepending a character to the first piece prepends it to the joined text. */
  lemma {:induction false} JoinConsChar(c: char, ls: seq<string>)
    requires |ls| > 0
    ensures JoinLines([[c] + ls[0]] + ls[1..]) == [c] + JoinLines(ls)
  {
    var r := [[c] + ls[0]] + ls[1..];
    if |ls| > 1 {
      assert r[1..] == ls[1..];
    }
  }

  /** Splitting what was joined gives the pieces back, so the split is the only one. */
  lemma {:induction false} SplitJoin(ls: seq<string>)
    requires |ls| > 0
    requires NoNewline(ls)
    ensures SplitLines(JoinLines(ls)) == ls
    decreases |JoinLines(ls)|, |ls[0]|
  {
    if |ls[0]| > 0 {
      var c := ls[0][0];
      var ls' := [ls[0][1..]] + ls[1..];
      assert ls[0] == [c] + ls[0][1..];
      assert [[c] + ls'[0]] + ls'[1..] == ls;
      JoinConsChar(c, ls');
      assert NoNewline(ls') by {
        forall k | 0 <= k < |ls'| ensures '\n' !in ls'[k] {
          if k == 0 { assert forall x :: x in ls'[0] ==> x in ls[0]; } else { assert ls'[k] == ls[k]; }
        }
      }
      SplitJoin(ls');
      assert JoinLines(ls)[1..] == JoinLines(ls');
      assert c != '\n' by { assert c in ls[0]; }
    } else if |ls| > 1 {
      assert JoinLines(ls) == "\n" + JoinLines(ls[1..]);
      assert NoNewline(ls[1..]) by {
        forall k | 0 <= k < |ls| - 1 ensures '\n' !in ls[1..][k] { assert ls[1..][k] == ls[k + 1]; }
      }
      SplitJoin(ls[1..]);
      assert JoinLines(ls)[1..] == JoinLines(ls[1..]);
      assert ls == [""] + ls[1..];
    }
  }

  /** Keep the non-empty lines, in order. */
  function NonEmpty(ls: seq<string>): (r: seq<string>)
    ensures |r| <= |ls|
    ensures forall x :: x in r <==> x in ls && x != ""
  {
    if |ls| == 0 then []
    else
      assert ls == [ls[0]] + ls[1..];
      if ls[0] == "" then NonEmpty(ls[1..])
      else [ls[0]] + NonEmpty(ls[1..])
  }

  /** Clean every line. */
  function CleanAll(ls: seq<string>): seq<string> {
    seq(|ls|, k requires 0 <= k < |ls| => Clean(ls[k]))
  }

  /** Clean every line and keep the non-empty ones, in order. */
  function FrameLines(ls: seq<string>): (r: seq<string>)
    ensures |r| <= |ls|
    ensures forall k :: 0 <= k < |r| ==> r[k] != ""
    ensures forall k :: 0 <= k < |ls| && Clean(ls[k]) != "" ==> Clean(ls[k]) in r
  {
    var c := CleanAll(ls);
    var r := NonEmpty(c);
    forall k | 0 <= k < |r| ensures r[k] != "" {
      assert r[k] in r;
    }
    forall k | 0 <= k < |ls| && Clean(ls[k]) != "" ensures Clean(ls[k]) in r {
      assert c[k] in c;
    }
    r
  }

  /** The lines one decoded chunk yields: non-empty, trimmed, without a line break. */
  function Frame(chunk: string): (r: seq<string>)
    ensures NoNewline(r)
    ensures forall k :: 0 <= k < |r| ==> r[k] != "" && Trimmed(r[k])
  {
    var ls := SplitLines(chunk);
    FrameLinesNoNewline(ls);
    FrameLinesTrimmed(ls);
    FrameLines(ls)
  }

  /** Framing acts line by line: framing a concatenation concatenates the framings. */
  lemma FrameLinesAppend(a: seq<string>, b: seq<string>)
    ensures FrameLines(a + b) == FrameLines(a) + FrameLines(b)
  {
    CleanAllAppend(a, b);
    NonEmptyAppend(CleanAll(a), CleanAll(b));
  }

  lemma CleanAllAppend(a: seq<string>, b: seq<string>)
    ensures CleanAll(a + b) == CleanAll(a) + CleanAll(b)
  {
    var l, ca, cb := CleanAll(a + b), CleanAll(a), CleanAll(b);
    var r := ca + cb;
    assert |l| == |r|;
    forall k | 0 <= k < |l| ensures l[k] == r[k] {
      if k < |a| {
        assert (a + b)[k] == a[k];
        assert r[k] == ca[k] == Clean(a[k]);
      } else {
        assert (a + b)[k] == b[k - |a|];
        assert r[k] == cb[k - |a|] == Clean(b[k - |a|]);
      }
    }
  }

  lemma {:induction false} NonEmptyAppend(a: seq<string>, b: seq<string>)
    ensures NonEmpty(a + b) == NonEmpty(a) + NonEmpty(b)
  {
    if |a| > 0 {
      assert (a + b)[1..] == a[1..] + b;
      NonEmptyAppend(a[1..], b);
    } else {
      assert a + b == b;
    }
  }

  /** A single line yields its cleaned form, unless that is empty. */
  lemma FrameLinesSingle(line: string)
    ensures FrameLines([line]) == if Clean(line) == "" then [] else [Clean(line)]
  {
    assert [line][1..] == [];
  }

  /** Every emitted line is the cleaned form of some input line. */
  lemma FrameLinesFrom(ls: seq<string>, x: string)
    requires x in FrameLines(ls)
    ensures exists j :: 0 <= j < |ls| && x == Clean(ls[j])
  {
    assert x in CleanAll(ls);
    var j :| 0 <= j < |ls| && CleanAll(ls)[j] == x;
  }

  /** No emitted line contains a line break. */
  lemma FrameLinesNoNewline(ls: seq<string>)
    requires NoNewline(ls)
    ensures NoNewline(FrameLines(ls))
  {
    var r := FrameLines(ls);
    forall k | 0 <= k < |r| ensures '\n' !in r[k] {
      FrameLinesFrom(ls, r[k]);
      var j :| 0 <= j < |ls| && r[k] == Clean(ls[j]);
      CleanSubstring(ls[j]);
    }
  }

  /** The cleaned line is a piece of the original line. */
  lemma CleanSubstring(line: string)
    ensures forall x :: x in Clean(line) ==> x in line
  {
    var t := Trim(line);
    var d := StripData(t);
    assert forall x :: x in t ==> x in line;
    assert forall x :: x in d ==> x in t;
    assert forall x :: x in Trim(d) ==> x in d;
  }

  /** Every emitted line is a cleaned input line: trimmed at both ends. */
  lemma FrameLinesTrimmed(ls: seq<string>)
    ensures forall k :: 0 <= k < |FrameLines(ls)| ==> Trimmed(FrameLines(ls)[k])
  {
    var r := FrameLines(ls);
    forall k | 0 <= k < |r| ensures Trimmed(r[k]) {
      FrameLinesFrom(ls, r[k]);
    }
  }

  /** A chunk without a line break is one line. */
  lemma SplitWithoutNewline(s: string)
    requires '\n' !in s
    ensures SplitLines(s) == [s]
  {
    SplitJoin([s]);
  }

  /** A chunk without a line break frames to its cleaned form, unless that is empty. */
  lemma FrameOneLine(s: string)
    requires '\n' !in s
    ensures Frame(s) == if Clean(s) == "" then [] else [Clean(s)]
  {
    SplitWithoutNewline(s);
    FrameLinesSingle(s);
  }

  /**
   * Chunks are framed one at a time: a line the network splits into two
   * non-blank halves comes out as two lines, not as the one line it was.
   */
  lemma ChunkBoundarySplitsLine(a: string, b: string)
    requires '\n' !in a + b
    requires Clean(a) != "" && Clean(b) != ""
    ensures |Frame(a + b)| <= 1
    ensures Frame(a) + Frame(b) == [Clean(a), Clean(b)]
  {
    assert '\n' !in a && '\n' !in b by {
      assert forall x :: x in a || x in b ==> x in a + b;
    }
    FrameOneLine(a + b);
    FrameOneLine(a);
    FrameOneLine(b);
    Pair(Clean(a), Clean(b));
  }

  /** Two one-line framings side by side. */
  lemma Pair(x: string, y: string)
    ensures [x] + [y] == [x, y]
  {
  }

  /** An empty chunk (and the missing value at the end of the body) yields no line. */
  lemma FrameEmpty()
    ensures Frame("") == []
  {
    assert SplitLines("") == [""];
    assert AllSpace("");
    assert Trim("") == "";
    assert StripData("") == "";
    assert Clean("") == "";
    FrameLinesSingle("");
  }

  /** Trimming text that has no white space at either end leaves it alone. */
  lemma TrimTrimmed(s: string)
    requires Trimmed(s)
    ensures Trim(s) == s
  {
    if |s| > 0 {
      assert LeadingSpaces(s) == 0;
      assert TrailingSpaces(s) == 0;
    }
  }

  /** A server-sent `data: <json>` line frames to the JSON text alone. */
  lemma DataLineFrames(json: string)
    requires json != "" && Trimmed(json) && '\n' !in json
    ensures Frame(DataTag + " " + json) == [json]
  {
    DataLineClean(json);
    FrameOneLine(DataTag + " " + json);
  }

  /** Cleaning `data: <json>` leaves the JSON text, and the line has no break. */
  lemma DataLineClean(json: string)
    requires json != "" && Trimmed(json) && '\n' !in json
    ensures '\n' !in DataTag + " " + json
    ensures Clean(DataTag + " " + json) == json
  {
    var line := DataTag + " " + json;
    assert '\n' !in line by {
      assert forall k :: 0 <= k < |line| ==> line[k] == (if k < 6 then line[k] else json[k - 6]);
      assert forall k :: 0 <= k < 6 ==> line[k] != '\n';
    }
    assert line[0] == 'd' && line[|line| - 1] == json[|json| - 1];
    TrimTrimmed(line);
    assert line[..|DataTag|] == DataTag;
    var rest := line[|DataTag|..];
    assert rest == " " + json;
    assert LeadingSpaces(rest) == 1 by {
      assert rest[1..] == json;
      assert LeadingSpaces(json) == 0;
    }
    assert TrimStart(rest) == json;
    TrimTrimmed(json);
  }

  /** The terminating line frames to itself. */
  lemma DoneLineFrames()
    ensures Frame("[DONE]") == ["[DONE]"]
  {
    DoneLineClean();
    FrameOneLine("[DONE]");
  }

  /** `[DONE]` has no white space, no line break and no `data:` prefix. */
  lemma DoneLineClean()
    ensures '\n' !in "[DONE]"
    ensures Clean("[DONE]") == "[DONE]"
  {
    assert Trim("[DONE]") == "[DONE]" by {
      TrimTrimmed("[DONE]");
    }
    assert StripData("[DONE]") == "[DONE]" by {
      assert "[DONE]"[0] != DataTag[0];
    }
  }
}
