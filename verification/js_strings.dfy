/** The three JavaScript string operations the coordinate tokeniser uses:
    `String.prototype.replace` with a string pattern (first occurrence only),
    `String.prototype.split` with a one-character separator, and indexing an
    array past its end. */
module JsStrings {
  import opened Base

  /** `pat` occurs in `s` starting at index `i`. */
  predicate OccursAt(s: string, pat: string, i: int) {
    0 <= i && i + |pat| <= |s| && s[i..i + |pat|] == pat
  }

  /** `i` is the first index at which `pat` occurs in `s`. */
  ghost predicate FirstOccurrence(s: string, pat: string, i: int) {
    OccursAt(s, pat, i) && forall j :: 0 <= j < i ==> !OccursAt(s, pat, j)
  }

  /** The least index at or after `from` where `pat` occurs in `s`, if any. */
  function IndexOfFrom(s: string, pat: string, from: nat): (r: Option<nat>)
    ensures r.Some? ==> from <= r.value && OccursAt(s, pat, r.value)
    ensures forall j :: from <= j && OccursAt(s, pat, j) ==> r.Some? && r.value <= j
    decreases |s| - from
  {
    if |s| < from + |pat| then None
    else if s[from..from + |pat|] == pat then Some(from)
    else
      assert |pat| > 0;
      IndexOfFrom(s, pat, from + 1)
  }

  /** `s.indexOf(pat)`, with `None` for JavaScript's -1. */
  function IndexOf(s: string, pat: string): Option<nat> {
    IndexOfFrom(s, pat, 0)
  }

  /** `s.replace(pat, rep)` for a string `pat` and a replacement without `$`
      patterns (inserted literally): only the first occurrence is replaced,
      and a string without one is returned unchanged. */
  function ReplaceFirst(s: string, pat: string, rep: string): string {
    match IndexOf(s, pat)
    case None => s
    case Some(i) => s[..i] + rep + s[i + |pat|..]
  }

  /** `IndexOf` finds exactly the first occurrence, and reports none only when
      there is none. */
  lemma IndexOfIsFirst(s: string, pat: string)
    ensures forall i :: IndexOf(s, pat) == Some(i) <==> FirstOccurrence(s, pat, i)
    ensures IndexOf(s, pat).None? <==> forall j :: !OccursAt(s, pat, j)
  {
  }

  /** Removing the first occurrence deletes exactly that window: putting `pat`
      back at the same index gives back `s`. */
  lemma RemoveFirstDeletesWindow(s: string, pat: string, i: nat)
    requires FirstOccurrence(s, pat, i)
    ensures i <= |ReplaceFirst(s, pat, "")|
    ensures s == ReplaceFirst(s, pat, "")[..i] + pat + ReplaceFirst(s, pat, "")[i..]
    ensures |ReplaceFirst(s, pat, "")| == |s| - |pat|
  {
  }

  /** A string in which `pat` does not occur is left as it is. */
  lemma RemoveFirstAbsent(s: string, pat: string)
    requires forall j :: !OccursAt(s, pat, j)
    ensures ReplaceFirst(s, pat, "") == s
  {
  }

  /** Conversely, any `r` that gives back `s` when `pat` is put back at an
      index before which `pat` does not occur is the result of the removal. */
  lemma RemoveFirstUnique(s: string, pat: string, r: string, i: nat)
    requires i <= |r| && s == r[..i] + pat + r[i..]
    requires forall j :: 0 <= j < i ==> !OccursAt(s, pat, j)
    ensures ReplaceFirst(s, pat, "") == r
  {
    assert s[i..i + |pat|] == pat;
    assert OccursAt(s, pat, i);
    RemoveFirstDeletesWindow(s, pat, i);
    var q := ReplaceFirst(s, pat, "");
    assert q[..i] == s[..i] == r[..i];
    assert q[i..] == s[i + |pat|..] == r[i..];
    assert q == q[..i] + q[i..];
    assert r == r[..i] + r[i..];
  }

  /** A character found at index `i` and nowhere before it is first there. */
  lemma FirstCharOccurrence(s: string, c: char, i: nat)
    requires i < |s| && s[i] == c && c !in s[..i]
    ensures FirstOccurrence(s, [c], i)
  {
    assert s[i..i + 1] == [c];
    forall j | 0 <= j < i
      ensures !OccursAt(s, [c], j)
    {
      assert s[..i][j] == s[j];
    }
  }

  /** Number of occurrences of `c` in `s`. */
  function Count(s: string, c: char): nat {
    if |s| == 0 then 0 else (if s[0] == c then 1 else 0) + Count(s[1..], c)
  }

  /** `pieces.join(sep)`. */
  function Join(pieces: seq<string>, sep: char): string {
    if |pieces| == 0 then ""
    else if |pieces| == 1 then pieces[0]
    else pieces[0] + [sep] + Join(pieces[1..], sep)
  }

  /** `s.split(sep)` for a one-character separator: the text between
      successive separators, empty pieces included, so there is always at
      least one piece. */
  function Split(s: string, sep: char): (r: seq<string>)
    ensures |r| == Count(s, sep) + 1
    ensures forall k :: 0 <= k < |r| ==> sep !in r[k]
    ensures Join(r, sep) == s
  {
    if |s| == 0 then [""]
    else
      var rest := Split(s[1..], sep);
      if s[0] == sep then
        assert ([""] + rest)[1..] == rest;
        [""] + rest
      else
        var r := [[s[0]] + rest[0]] + rest[1..];
        assert r[1..] == rest[1..];
        assert |rest| > 1 ==> Join(rest, sep) == rest[0] + [sep] + Join(rest[1..], sep);
        assert s == [s[0]] + s[1..];
        r
  }

  /** `xs[i]` in JavaScript: the element, or `undefined` past the end. */
  function At(xs: seq<string>, i: nat): Option<string> {
    if i < |xs| then Some(xs[i]) else None
  }

  /** A piece free of the separator is not split at all. */
  lemma SplitWithoutSeparator(a: string, sep: char)
    requires sep !in a
    ensures Split(a, sep) == [a]
  {
  }

  /** A separator-free prefix followed by the separator becomes the first piece. */
  lemma {:induction false} SplitAfterPiece(a: string, sep: char, t: string)
    requires sep !in a
    ensures Split(a + [sep] + t, sep) == [a] + Split(t, sep)
    decreases |a|
  {
    var s := a + [sep] + t;
    if |a| == 0 {
      assert s[1..] == t;
    } else {
      assert s[1..] == a[1..] + [sep] + t;
      SplitAfterPiece(a[1..], sep, t);
      assert [a[0]] + a[1..] == a;
    }
  }

  /** Splitting undoes joining separator-free pieces, so `Split(s, sep)` is the
      only list of separator-free pieces that joins back to `s`. */
  lemma {:induction false} SplitOfJoin(pieces: seq<string>, sep: char)
    requires |pieces| > 0
    requires forall k :: 0 <= k < |pieces| ==> sep !in pieces[k]
    ensures Split(Join(pieces, sep), sep) == pieces
    decreases |pieces|
  {
    if |pieces| == 1 {
      SplitWithoutSeparator(pieces[0], sep);
    } else {
      SplitOfJoin(pieces[1..], sep);
      SplitAfterPiece(pieces[0], sep, Join(pieces[1..], sep));
      assert [pieces[0]] + pieces[1..] == pieces;
    }
  }
}
