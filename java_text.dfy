/** The parts of `java.lang.String` the booking code relies on, for ASCII text.
    `strip`/`isBlank` and `trim` disagree on which characters are blank, so
    both are kept. */
module JavaText {
  import opened Outcomes

  /** `Character.isWhitespace` on ASCII: space, tab to carriage return, and
      the four separators U+001C to U+001F. Used by `strip` and `isBlank`. */
  predicate IsWhitespace(c: char) {
    c == ' ' || '\t' <= c <= '\r' || '\U{1C}' <= c <= '\U{1F}'
  }

  /** What `String.trim` removes: every character up to U+0020. */
  predicate IsTrimmable(c: char) {
    c <= ' '
  }

  /** `String.isBlank`: empty or whitespace only. */
  predicate IsBlank(s: string) {
    forall i :: 0 <= i < |s| ==> IsWhitespace(s[i])
  }

  /** How `"..." + s` renders a possibly-null string. */
  function Show(s: Option<string>): string {
    match s
    case None => "null"
    case Some(v) => v
  }

  /** Drops the longest prefix whose characters all satisfy `drop`. */
  function TrimLeading(s: string, drop: char -> bool): (r: string)
    ensures |r| <= |s| && r == s[|s| - |r|..]
    ensures forall i :: 0 <= i < |s| - |r| ==> drop(s[i])
    ensures r != [] ==> !drop(r[0])
  {
    if s != [] && drop(s[0]) then
      var r := TrimLeading(s[1..], drop);
      assert s[1..][|s| - 1 - |r|..] == s[|s| - |r|..];
      assert forall i :: 1 <= i < |s| - |r| ==> s[i] == s[1..][i - 1];
      r
    else s
  }

  /** Drops the longest suffix whose characters all satisfy `drop`. */
  function TrimTrailing(s: string, drop: char -> bool): (r: string)
    ensures |r| <= |s| && r == s[..|r|]
    ensures forall i :: |r| <= i < |s| ==> drop(s[i])
    ensures r != [] ==> !drop(r[|r| - 1])
  {
    if s != [] && drop(s[|s| - 1]) then
      var r := TrimTrailing(s[..|s| - 1], drop);
      assert s[..|s| - 1][..|r|] == s[..|r|];
      assert forall i :: |r| <= i < |s| - 1 ==> s[i] == s[..|s| - 1][i];
      r
    else s
  }

  /** `String.strip`. */
  function Strip(s: string): string {
    TrimTrailing(TrimLeading(s, IsWhitespace), IsWhitespace)
  }

  /** `String.trim`. */
  function Trim(s: string): string {
    TrimTrailing(TrimLeading(s, IsTrimmable), IsTrimmable)
  }

  /** `Character.toUpperCase` on ASCII letters; every other character is kept. */
  function UpperChar(c: char): char {
    if 'a' <= c <= 'z' then (c as int - 32) as char else c
  }

  /** `String.toUpperCase`, character by character. */
  function ToUpper(s: string): (r: string)
    ensures |r| == |s|
  {
    seq(|s|, i requires 0 <= i < |s| => UpperChar(s[i]))
  }

  /** `part` occurs in `s` starting at position `i`. */
  predicate OccursAt(s: string, part: string, i: int) {
    0 <= i && i + |part| <= |s| && s[i..i + |part|] == part
  }

  /** `String.contains`. */
  predicate Contains(s: string, part: string) {
    exists i :: 0 <= i <= |s| - |part| && OccursAt(s, part, i)
  }

  /** `String.indexOf(char)`: the first position of `c`, or -1. */
  function IndexOf(s: string, c: char): (r: int)
    ensures -1 <= r < |s|
    ensures r == -1 <==> c !in s
    ensures 0 <= r ==> s[r] == c && c !in s[..r]
  {
    if s == [] then -1
    else if s[0] == c then 0
    else
      var k := IndexOf(s[1..], c);
      if k == -1 then -1
      else
        assert s[..k + 1] == [s[0]] + s[1..][..k];
        k + 1
  }

  /** `s.replaceAll("[...]", "")` for a character class: every character in
      `chars` is removed, the others keep their order. */
  function RemoveAll(s: string, chars: set<char>): (r: string)
    ensures |r| <= |s|
    ensures forall i :: 0 <= i < |r| ==> r[i] !in chars
  {
    if s == [] then []
    else (if s[0] in chars then [] else [s[0]]) + RemoveAll(s[1..], chars)
  }

  /** `String.valueOf(c).repeat(n)`. */
  function Repeat(c: char, n: nat): (r: string)
    ensures |r| == n && forall i :: 0 <= i < n ==> r[i] == c
  {
    seq(n, _ => c)
  }

  /** Decimal text of a natural number, as `toString` writes it. */
  function NatText(n: nat): (r: string)
    ensures |r| >= 1 && forall i :: 0 <= i < |r| ==> '0' <= r[i] <= '9'
  {
    var digit := ['0' + (n % 10) as char];
    if n < 10 then digit else NatText(n / 10) + digit
  }

  // ---- Properties of the helpers that the rest of the model uses ----

  /** Removing characters distributes over concatenation. */
  lemma {:induction false} RemoveAllAppend(a: string, b: string, chars: set<char>)
    ensures RemoveAll(a + b, chars) == RemoveAll(a, chars) + RemoveAll(b, chars)
  {
    if a != [] {
      assert (a + b)[1..] == a[1..] + b;
      RemoveAllAppend(a[1..], b, chars);
    } else {
      assert a + b == b;
    }
  }

  /** A string without any of the removed characters comes back unchanged. */
  lemma {:induction false} RemoveAllNone(s: string, chars: set<char>)
    requires forall i :: 0 <= i < |s| ==> s[i] !in chars
    ensures RemoveAll(s, chars) == s
  {
    if s != [] {
      RemoveAllNone(s[1..], chars);
    }
  }

  /** Trimming with a predicate leaves alone a string whose two ends it does not drop. */
  lemma TrimUnchanged(s: string, drop: char -> bool)
    requires s == [] || (!drop(s[0]) && !drop(s[|s| - 1]))
    ensures TrimTrailing(TrimLeading(s, drop), drop) == s
  {
  }

  /** `trim` only removes characters: one absent before is absent after. */
  lemma TrimKeepsOut(s: string, chars: set<char>)
    requires forall i :: 0 <= i < |s| ==> s[i] !in chars
    ensures forall i :: 0 <= i < |Trim(s)| ==> Trim(s)[i] !in chars
  {
    var l := TrimLeading(s, IsTrimmable);
    SliceKeepsOut(s, |s| - |l|, |s|, chars);
    SliceKeepsOut(l, 0, |Trim(s)|, chars);
  }

  /** A slice of a string without any of `chars` has none of them either. */
  lemma SliceKeepsOut(s: string, lo: int, hi: int, chars: set<char>)
    requires 0 <= lo <= hi <= |s|
    requires forall i :: 0 <= i < |s| ==> s[i] !in chars
    ensures forall i :: 0 <= i < hi - lo ==> s[lo..hi][i] !in chars
  {
    assert forall i :: 0 <= i < hi - lo ==> s[lo..hi][i] == s[lo + i];
  }

  /** What `trim` returns neither starts nor ends with a character up to U+0020. */
  lemma TrimEnds(s: string)
    ensures Trim(s) == [] || (!IsTrimmable(Trim(s)[0]) && !IsTrimmable(Trim(s)[|Trim(s)| - 1]))
  {
    var l := TrimLeading(s, IsTrimmable);
    var r := TrimTrailing(l, IsTrimmable);
    assert r != [] ==> r[0] == l[0];
  }

  /** A string that `trim` empties holds only characters up to U+0020. */
  lemma TrimEmptyMeansTrimmable(s: string)
    requires Trim(s) == []
    ensures forall i :: 0 <= i < |s| ==> IsTrimmable(s[i])
  {
    assert TrimLeading(s, IsTrimmable) == [];
  }

  /** Every character of `s` satisfies `drop`. */
  predicate AllDropped(s: string, drop: char -> bool) {
    forall i :: 0 <= i < |s| ==> drop(s[i])
  }

  /** A prefix of dropped characters goes whatever follows it. */
  lemma {:induction false} TrimLeadingDropped(p: string, x: string, drop: char -> bool)
    requires AllDropped(p, drop)
    ensures TrimLeading(p + x, drop) == TrimLeading(x, drop)
  {
    if p != [] {
      assert (p + x)[1..] == p[1..] + x;
      TrimLeadingDropped(p[1..], x, drop);
    } else {
      assert p + x == x;
    }
  }

  /** A suffix of dropped characters goes whatever precedes it. */
  lemma {:induction false} TrimTrailingDropped(x: string, q: string, drop: char -> bool)
    requires AllDropped(q, drop)
    ensures TrimTrailing(x + q, drop) == TrimTrailing(x, drop)
  {
    if q != [] {
      assert (x + q)[..|x + q| - 1] == x + q[..|q| - 1];
      TrimTrailingDropped(x, q[..|q| - 1], drop);
    } else {
      assert x + q == x;
    }
  }

  /** Once a kept character is reached, what follows is kept. */
  lemma {:induction false} TrimLeadingKeepsTail(s: string, q: string, drop: char -> bool)
    requires !AllDropped(s, drop)
    ensures TrimLeading(s + q, drop) == TrimLeading(s, drop) + q
  {
    assert (s + q)[0] == s[0];
    if drop(s[0]) {
      assert (s + q)[1..] == s[1..] + q;
      TrimLeadingKeepsTail(s[1..], q, drop);
    }
  }

  /** Text made only of dropped characters trims to nothing. */
  lemma AllDroppedLeavesNothing(s: string, drop: char -> bool)
    requires AllDropped(s, drop)
    ensures TrimLeading(s, drop) == []
  {
  }

  /** Two runs of dropped characters make one. */
  lemma AllDroppedAppend(s: string, q: string, drop: char -> bool)
    requires AllDropped(s, drop) && AllDropped(q, drop)
    ensures AllDropped(s + q, drop)
  {
    forall i | 0 <= i < |s + q|
      ensures drop((s + q)[i])
    {
      if i < |s| {
        assert (s + q)[i] == s[i];
      } else {
        assert (s + q)[i] == q[i - |s|];
      }
    }
  }

  /** Trimming both ends ignores padding made of dropped characters. */
  lemma TrimIgnoresPadding(p: string, s: string, q: string, drop: char -> bool)
    requires AllDropped(p, drop) && AllDropped(q, drop)
    ensures TrimTrailing(TrimLeading(p + s + q, drop), drop) == TrimTrailing(TrimLeading(s, drop), drop)
  {
    assert p + s + q == p + (s + q);
    TrimLeadingDropped(p, s + q, drop);
    if AllDropped(s, drop) {
      AllDroppedAppend(s, q, drop);
      AllDroppedLeavesNothing(s + q, drop);
      AllDroppedLeavesNothing(s, drop);
    } else {
      TrimLeadingKeepsTail(s, q, drop);
      TrimTrailingDropped(TrimLeading(s, drop), q, drop);
    }
  }

  /** Text without lower-case letters whose ends are kept is its own
      trimmed, upper-cased form. */
  lemma NormalFormUnchanged(s: string, drop: char -> bool)
    requires forall i :: 0 <= i < |s| ==> !('a' <= s[i] <= 'z')
    requires s == [] || (!drop(s[0]) && !drop(s[|s| - 1]))
    ensures ToUpper(TrimTrailing(TrimLeading(s, drop), drop)) == s
  {
    TrimUnchanged(s, drop);
    UpperUnchanged(s);
  }

  /** Upper-casing leaves text without lower-case letters alone. */
  lemma UpperUnchanged(s: string)
    requires forall i :: 0 <= i < |s| ==> !('a' <= s[i] <= 'z')
    ensures ToUpper(s) == s
  {
    assert forall i :: 0 <= i < |s| ==> ToUpper(s)[i] == UpperChar(s[i]) == s[i];
  }
}
