/**
 * String operations of the Python runtime that the core relies on:
 * `str.isspace`, `str.strip`, `str.split()` with no separator,
 * `" ".join(...)` and the `in` substring test.
 */
module Text {

  /** The characters for which Python's `str.isspace()` is true; `\s` in a
    * `str` regular expression, `str.strip()` and `str.split()` use the same set. */
  predicate IsSpace(c: char) {
    var n := c as int;
    (0x09 <= n <= 0x0D) || (0x1C <= n <= 0x20) || n == 0x85 || n == 0xA0 || n == 0x1680
    || (0x2000 <= n <= 0x200A) || n == 0x2028 || n == 0x2029 || n == 0x202F
    || n == 0x205F || n == 0x3000
  }

  predicate AllSpace(s: string) {
    forall i :: 0 <= i < |s| ==> IsSpace(s[i])
  }

  predicate NoSpace(s: string) {
    forall i :: 0 <= i < |s| ==> !IsSpace(s[i])
  }

  /** A non-empty run of non-whitespace characters: one item of `str.split()`. */
  predicate IsWord(w: string) {
    w != [] && NoSpace(w)
  }

  /** The number of whitespace characters that open `s`. */
  function LeadingSpace(s: string): (n: nat)
    ensures n <= |s|
    ensures forall i :: 0 <= i < n ==> IsSpace(s[i])
    ensures n < |s| ==> !IsSpace(s[n])
  {
    if s == [] || !IsSpace(s[0]) then 0 else 1 + LeadingSpace(s[1..])
  }

  /** The number of whitespace characters that close `s`. */
  function TrailingSpace(s: string): (n: nat)
    ensures n <= |s|
    ensures forall i :: |s| - n <= i < |s| ==> IsSpace(s[i])
    ensures n < |s| ==> !IsSpace(s[|s| - 1 - n])
  {
    if s == [] || !IsSpace(s[|s| - 1]) then 0 else 1 + TrailingSpace(s[..|s| - 1])
  }

  /** `s.lstrip()`. */
  function TrimStart(s: string): string {
    s[LeadingSpace(s)..]
  }

  /** `s.strip()`: no longer than `s`, and neither opening nor closing with whitespace. */
  function Strip(s: string): (r: string)
    ensures |r| <= |s|
    ensures r == [] || (!IsSpace(r[0]) && !IsSpace(r[|r| - 1]))
  {
    var t := TrimStart(s);
    t[..|t| - TrailingSpace(t)]
  }

  /** `s.strip()` removes a whitespace prefix and a whitespace suffix and keeps the
    * infix between them, which neither starts nor ends with whitespace. */
  lemma StripSpec(s: string)
    ensures exists i, j :: 0 <= i <= j <= |s| && Strip(s) == s[i..j] && AllSpace(s[..i]) && AllSpace(s[j..])
    ensures Strip(s) == [] || (!IsSpace(Strip(s)[0]) && !IsSpace(Strip(s)[|Strip(s)| - 1]))
  {
    var a := LeadingSpace(s);
    var t := s[a..];
    var b := TrailingSpace(t);
    var j := |s| - b;
    assert Strip(s) == s[a..j];
    assert AllSpace(s[..a]) by {
      forall k | 0 <= k < a ensures IsSpace(s[..a][k]) { assert s[..a][k] == s[k]; }
    }
    assert AllSpace(s[j..]) by {
      forall k | 0 <= k < |s| - j ensures IsSpace(s[j..][k]) { assert s[j..][k] == t[|t| - b + k]; }
    }
    if Strip(s) != [] {
      assert Strip(s)[0] == t[0];
      assert Strip(s)[|Strip(s)| - 1] == t[|t| - 1 - b];
    }
  }

  /** A stripped line is empty exactly when the line was all whitespace. */
  lemma StripEmptyIffAllSpace(s: string)
    ensures Strip(s) == [] <==> AllSpace(s)
  {
    var a := LeadingSpace(s);
    if AllSpace(s) {
      assert a == |s|;
    } else {
      var t := s[a..];
      assert t != [] && !IsSpace(t[0]);
      assert TrailingSpace(t) < |t|;
    }
  }

  /** Stripping twice changes nothing. */
  lemma StripIdempotent(s: string)
    ensures Strip(Strip(s)) == Strip(s)
  {
    StripSpec(s);
    var r := Strip(s);
    if r != [] {
      assert LeadingSpace(r) == 0;
      assert TrailingSpace(r) == 0;
    }
  }

  /** The number of non-whitespace characters that open `s`. */
  function WordLength(s: string): (n: nat)
    ensures n <= |s|
    ensures forall i :: 0 <= i < n ==> !IsSpace(s[i])
    ensures n < |s| ==> IsSpace(s[n])
  {
    if s == [] || IsSpace(s[0]) then 0 else 1 + WordLength(s[1..])
  }

  /** `s.split()`: the maximal runs of non-whitespace characters, in order. */
  function Words(s: string): (ws: seq<string>)
    ensures forall k :: 0 <= k < |ws| ==> IsWord(ws[k])
    decreases |s|, 1
  {
    SplitTrimmed(TrimStart(s))
  }

  /** `str.split()` of a string that does not start with whitespace. */
  function SplitTrimmed(t: string): (ws: seq<string>)
    requires t == [] || !IsSpace(t[0])
    ensures forall k :: 0 <= k < |ws| ==> IsWord(ws[k])
    decreases |t|, 0
  {
    if t == [] then []
    else
      var n := WordLength(t);
      var w := t[..n];
      assert NoSpace(w) by {
        forall i | 0 <= i < |w| ensures !IsSpace(w[i]) { assert w[i] == t[i]; }
      }
      [w] + Words(t[n..])
  }

  /** `" ".join(ws)`. */
  function Join(ws: seq<string>): string {
    if |ws| == 0 then ""
    else if |ws| == 1 then ws[0]
    else ws[0] + " " + Join(ws[1..])
  }

  /** `" ".join(s.split())`: collapses every run of whitespace to one space and
    * removes leading and trailing whitespace. */
  function Normalise(s: string): string {
    Join(Words(s))
  }

  /** The shape of a normalised string: no leading or trailing whitespace, and
    * every whitespace character is a single space followed by a non-space. */
  predicate Normalised(r: string) {
    (r == [] || (!IsSpace(r[0]) && !IsSpace(r[|r| - 1])))
    && forall i :: 0 <= i < |r| && IsSpace(r[i]) ==> r[i] == ' ' && i + 1 < |r| && !IsSpace(r[i + 1])
  }

  /** Whitespace put in front of a string lengthens its leading run by as much. */
  lemma {:induction false} LeadingSpaceOfSpace(sp: string, rest: string)
    requires AllSpace(sp)
    ensures LeadingSpace(sp + rest) == |sp| + LeadingSpace(rest)
  {
    if sp == [] {
      assert sp + rest == rest;
    } else {
      assert (sp + rest)[0] == sp[0];
      assert (sp + rest)[1..] == sp[1..] + rest;
      LeadingSpaceOfSpace(sp[1..], rest);
    }
  }

  /** `lstrip` of whitespace followed by a text that opens with a non-space is that text. */
  lemma TrimStartOfSpace(sp: string, rest: string)
    requires AllSpace(sp) && rest != [] && !IsSpace(rest[0])
    ensures TrimStart(sp + rest) == rest
  {
    LeadingSpaceOfSpace(sp, rest);
    assert (sp + rest)[|sp|..] == rest;
  }

  /** Every string is its leading whitespace followed by its `lstrip`. */
  lemma TrimStartSplit(s: string) returns (sp: string)
    ensures AllSpace(sp) && s == sp + TrimStart(s)
  {
    var a := LeadingSpace(s);
    sp := s[..a];
    assert AllSpace(sp) by {
      forall i | 0 <= i < |sp| ensures IsSpace(sp[i]) { assert sp[i] == s[i]; }
    }
    assert s == sp + s[a..];
  }

  /** Leading whitespace does not change the words of a string. */
  lemma WordsSkipSpace(sp: string, rest: string)
    requires AllSpace(sp)
    ensures Words(sp + rest) == Words(rest)
  {
    LeadingSpaceOfSpace(sp, rest);
    assert TrimStart(sp + rest) == TrimStart(rest);
  }

  /** A word followed by whitespace, or by nothing, is the whole opening word. */
  lemma {:induction false} WordLengthOfWord(w: string, rest: string)
    requires NoSpace(w)
    requires rest == [] || IsSpace(rest[0])
    ensures WordLength(w + rest) == |w|
  {
    if w == [] {
      assert w + rest == rest;
    } else {
      assert (w + rest)[0] == w[0];
      assert (w + rest)[1..] == w[1..] + rest;
      WordLengthOfWord(w[1..], rest);
    }
  }

  /** Splitting a word followed by whitespace (or nothing) yields that word first. */
  lemma WordsOfWordThen(w: string, rest: string)
    requires IsWord(w)
    requires rest == [] || IsSpace(rest[0])
    ensures Words(w + rest) == [w] + Words(rest)
  {
    var s := w + rest;
    assert s[0] == w[0];
    assert TrimStart(s) == s;
    WordLengthOfWord(w, rest);
    assert s[..|w|] == w;
    assert s[|w|..] == rest;
  }

  /** `w0 + seps[0] + w1 + seps[1] + ... + wn`: words separated by arbitrary separators. */
  function Interleave(ws: seq<string>, seps: seq<string>): string
    requires |ws| <= |seps| + 1
  {
    if |ws| == 0 then ""
    else if |ws| == 1 then ws[0]
    else ws[0] + (seps[0] + Interleave(ws[1..], seps[1..]))
  }

  /** Splitting words separated by non-empty whitespace gives the words back. */
  lemma {:induction false} WordsOfInterleave(ws: seq<string>, seps: seq<string>)
    requires |ws| <= |seps| + 1
    requires forall k :: 0 <= k < |ws| ==> IsWord(ws[k])
    requires forall k :: 0 <= k < |seps| ==> seps[k] != [] && AllSpace(seps[k])
    ensures Words(Interleave(ws, seps)) == ws
  {
    if |ws| == 0 {
    } else if |ws| == 1 {
      WordsOfWordThen(ws[0], []);
      assert ws[0] + [] == ws[0];
    } else {
      var rest := Interleave(ws[1..], seps[1..]);
      assert (seps[0] + rest)[0] == seps[0][0];
      WordsOfWordThen(ws[0], seps[0] + rest);
      WordsSkipSpace(seps[0], rest);
      WordsOfInterleave(ws[1..], seps[1..]);
    }
  }

  /** Splitting words joined with single spaces gives the words back. */
  lemma {:induction false} WordsOfJoin(ws: seq<string>)
    requires forall k :: 0 <= k < |ws| ==> IsWord(ws[k])
    ensures Words(Join(ws)) == ws
  {
    if |ws| == 0 {
    } else if |ws| == 1 {
      WordsOfWordThen(ws[0], []);
      assert ws[0] + [] == ws[0];
    } else {
      var rest := Join(ws[1..]);
      assert ws[0] + " " + rest == ws[0] + (" " + rest);
      WordsOfWordThen(ws[0], " " + rest);
      WordsSkipSpace(" ", rest);
      WordsOfJoin(ws[1..]);
    }
  }

  /** Words joined with single spaces form a normalised string. */
  lemma {:induction false} JoinNormalised(ws: seq<string>)
    requires forall k :: 0 <= k < |ws| ==> IsWord(ws[k])
    ensures Normalised(Join(ws))
    ensures |ws| > 0 ==> Join(ws) != [] && Join(ws)[0] == ws[0][0]
  {
    if |ws| == 1 {
    } else if |ws| > 1 {
      var w, rest := ws[0], Join(ws[1..]);
      JoinNormalised(ws[1..]);
      var r := w + " " + rest;
      assert r[|w|] == ' ' && r[|w| + 1] == rest[0] == ws[1][0];
      forall i | 0 <= i < |r|
        ensures IsSpace(r[i]) ==> r[i] == ' ' && i + 1 < |r| && !IsSpace(r[i + 1])
      {
        if i < |w| {
          assert r[i] == w[i];
        } else if i > |w| && IsSpace(r[i]) {
          assert r[i] == rest[i - |w| - 1];
          assert r[i + 1] == rest[i - |w|];
        }
      }
    }
  }

  /** The normal form has no leading or trailing whitespace and no consecutive spaces. */
  lemma NormaliseShape(s: string)
    ensures Normalised(Normalise(s))
  {
    JoinNormalised(Words(s));
  }

  /** Normalising an already normalised string changes nothing. */
  lemma NormaliseIdempotent(s: string)
    ensures Normalise(Normalise(s)) == Normalise(s)
  {
    WordsOfJoin(Words(s));
  }

  /** `sub` occurs in `s` starting at position `i`. */
  predicate OccursAt(s: string, sub: string, i: int) {
    0 <= i && i + |sub| <= |s| && s[i..i + |sub|] == sub
  }

  /** Python's `sub in s`. */
  predicate Contains(s: string, sub: string) {
    exists i :: 0 <= i <= |s| && OccursAt(s, sub, i)
  }
}
