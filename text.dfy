/**
  The text operations the request pipeline is built from: Python's substring
  test `pat in text`, `str.lower()` restricted to ASCII, and `"\n".join`
  together with its inverse `str.split("\n")`.
 */
module Text {

  /** `pat` occurs in `text` starting at offset `i`. */
  predicate OccursAt(pat: string, text: string, i: nat) {
    i + |pat| <= |text| && text[i..i + |pat|] == pat
  }

  /** `pat` occurs as a contiguous piece of `text`. */
  ghost predicate Occurs(pat: string, text: string) {
    exists i: nat :: OccursAt(pat, text, i)
  }

  /** Dropping the first character keeps every occurrence that did not start there. */
  lemma ShiftOccurs(pat: string, text: string)
    requires |text| > 0 && !OccursAt(pat, text, 0)
    ensures Occurs(pat, text) <==> Occurs(pat, text[1..])
  {
    if Occurs(pat, text) {
      var i: nat :| OccursAt(pat, text, i);
      assert i > 0;
      assert text[1..][i - 1..i - 1 + |pat|] == text[i..i + |pat|];
      assert OccursAt(pat, text[1..], i - 1);
    }
    if Occurs(pat, text[1..]) {
      var j: nat :| OccursAt(pat, text[1..], j);
      assert text[j + 1..j + 1 + |pat|] == text[1..][j..j + |pat|];
      assert OccursAt(pat, text, j + 1);
    }
  }

  /** Python's `pat in text`: a left-to-right search for `pat`. */
  function Contains(text: string, pat: string): (found: bool)
    ensures found <==> Occurs(pat, text)
    decreases |text|
  {
    if |pat| > |text| then
      assert forall i: nat :: !OccursAt(pat, text, i);
      false
    else if text[..|pat|] == pat then
      assert OccursAt(pat, text, 0);
      true
    else
      ShiftOccurs(pat, text);
      Contains(text[1..], pat)
  }

  /** ASCII lowercasing of one character. */
  function LowerChar(c: char): char {
    if 'A' <= c <= 'Z' then (c as int + 32) as char else c
  }

  /** Python's `str.lower()` on ASCII text, character by character. */
  function ToLower(s: string): (r: string)
    ensures |r| == |s|
    ensures forall i :: 0 <= i < |s| ==> r[i] == LowerChar(s[i])
  {
    seq(|s|, i requires 0 <= i < |s| => LowerChar(s[i]))
  }

  /** Lowercasing text that is already lower case changes nothing. */
  lemma LowerIdempotent(s: string)
    ensures ToLower(ToLower(s)) == ToLower(s)
  {
  }

  /** Lowercasing works piece by piece: it commutes with concatenation. */
  lemma LowerConcat(a: string, b: string)
    ensures ToLower(a + b) == ToLower(a) + ToLower(b)
  {
  }

  /** No line holds a newline. */
  predicate NoNewlines(lines: seq<string>) {
    forall k :: 0 <= k < |lines| ==> '\n' !in lines[k]
  }

  /**
    Python's `"\n".join(lines)`. Splitting the result at its newlines gives
    back exactly the lines, when none of them holds a newline.
   */
  function JoinLines(lines: seq<string>): (joined: string)
    ensures |lines| >= 1 && NoNewlines(lines) ==> SplitLines(joined) == lines
    decreases |lines|
  {
    if |lines| == 0 then ""
    else if |lines| == 1 then
      SplitSingle(lines[0]);
      lines[0]
    else
      var rest := JoinLines(lines[1..]);
      SplitAfterLine(lines[0], rest);
      assert NoNewlines(lines) ==> NoNewlines(lines[1..]);
      assert [lines[0]] + lines[1..] == lines;
      lines[0] + "\n" + rest
  }

  /** A join of several lines ends with the last of them. */
  lemma {:induction false} JoinEndsWithLast(lines: seq<string>)
    requires |lines| >= 1
    ensures var joined, last := JoinLines(lines), lines[|lines| - 1];
      |joined| >= |last| && joined[|joined| - |last|..] == last
    decreases |lines|
  {
    if |lines| > 1 {
      JoinEndsWithLast(lines[1..]);
      assert lines[1..][|lines[1..]| - 1] == lines[|lines| - 1];
    }
  }

  /** Python's `s.split("\n")`: the pieces between newlines, always at least one. */
  function SplitLines(s: string): (pieces: seq<string>)
    ensures |pieces| >= 1
    ensures forall k :: 0 <= k < |pieces| ==> '\n' !in pieces[k]
    decreases |s|
  {
    if s == [] then [""]
    else
      var rest := SplitLines(s[1..]);
      if s[0] == '\n' then [""] + rest
      else [[s[0]] + rest[0]] + rest[1..]
  }

  /** A piece without newlines splits into itself. */
  lemma {:induction false} SplitSingle(a: string)
    ensures '\n' !in a ==> SplitLines(a) == [a]
    decreases |a|
  {
    if a != [] && '\n' !in a {
      SplitSingle(a[1..]);
      assert [a[0]] + a[1..] == a;
    }
  }

  /** Splitting stops at the first newline and continues after it. */
  lemma {:induction false} SplitAfterLine(a: string, b: string)
    ensures '\n' !in a ==> SplitLines(a + "\n" + b) == [a] + SplitLines(b)
    decreases |a|
  {
    var s := a + "\n" + b;
    if '\n' in a {
    } else if a == [] {
      assert s[1..] == b;
    } else {
      assert s[1..] == a[1..] + "\n" + b;
      SplitAfterLine(a[1..], b);
      assert [a[0]] + a[1..] == a;
    }
  }

  /** A leading newline adds an empty first piece to a join. */
  lemma JoinEmptyFirst(rest: seq<string>)
    requires |rest| >= 1
    ensures JoinLines([""] + rest) == "\n" + JoinLines(rest)
  {
    assert ([""] + rest)[1..] == rest;
  }

  /** A leading character other than a newline extends a lone piece. */
  lemma JoinExtendOnly(c: char, rest: seq<string>)
    requires |rest| == 1
    ensures JoinLines([[c] + rest[0]] + rest[1..]) == [c] + JoinLines(rest)
  {
  }

  /** A leading character other than a newline extends the first of several pieces. */
  lemma JoinExtendFirst(c: char, rest: seq<string>)
    requires |rest| > 1
    ensures JoinLines([[c] + rest[0]] + rest[1..]) == [c] + JoinLines(rest)
  {
  }

  /** Joining undoes splitting, for any text. */
  lemma {:induction false} JoinSplit(s: string)
    ensures JoinLines(SplitLines(s)) == s
    decreases |s|
  {
    if s != [] {
      var rest := SplitLines(s[1..]);
      JoinSplit(s[1..]);
      if s[0] == '\n' {
        assert SplitLines(s) == [""] + rest;
        JoinEmptyFirst(rest);
      } else {
        assert SplitLines(s) == [[s[0]] + rest[0]] + rest[1..];
        if |rest| == 1 {
          JoinExtendOnly(s[0], rest);
        } else {
          JoinExtendFirst(s[0], rest);
        }
      }
      assert s == [s[0]] + s[1..];
    }
  }
}
