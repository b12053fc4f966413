/** The coordinate tokeniser: `value.replace('Point(', '').replace(')', '').split(' ')`
    applied to a WKT-style literal such as `Point(10.0 53.55)`. */
module PointLiteral {
  import opened Base
  import opened JsStrings

  const Prefix: string := "Point("
  const Close: char := ')'
  const Suffix: string := [Close]
  const Space: char := ' '

  /** The literal with its first `Point(` and then its first `)` removed. */
  function Strip(v: string): string {
    ReplaceFirst(ReplaceFirst(v, Prefix, ""), Suffix, "")
  }

  /** The coordinate tokens; token 0 is read as longitude, token 1 as latitude. */
  function Tokens(v: string): seq<string> {
    Split(Strip(v), Space)
  }

  /** Stripping deletes two windows and nothing else: the first `Point(` of the
      literal and then the first `)` of what remains. Putting each back at its
      index restores the text, so every other character survives in its
      original order. */
  lemma StripDeletesTwoWindows(v: string, i: nat, j: nat)
    requires FirstOccurrence(v, Prefix, i)
    requires FirstOccurrence(ReplaceFirst(v, Prefix, ""), Suffix, j)
    ensures i <= |ReplaceFirst(v, Prefix, "")|
    ensures v == ReplaceFirst(v, Prefix, "")[..i] + Prefix + ReplaceFirst(v, Prefix, "")[i..]
    ensures j <= |Strip(v)|
    ensures ReplaceFirst(v, Prefix, "") == Strip(v)[..j] + Suffix + Strip(v)[j..]
    ensures |Strip(v)| == |v| - 7
  {
  }

  /** Stripping a literal that has both markers loses exactly the characters
      of `Point(` and `)`. */
  lemma StripKeepsOtherCharacters(v: string, i: nat, j: nat)
    requires FirstOccurrence(v, Prefix, i)
    requires FirstOccurrence(ReplaceFirst(v, Prefix, ""), Suffix, j)
    ensures multiset(v) == multiset(Strip(v)) + multiset(Prefix) + multiset(Suffix)
  {
    StripDeletesTwoWindows(v, i, j);
    var u := ReplaceFirst(v, Prefix, "");
    var w := Strip(v);
    assert u == u[..i] + u[i..];
    assert w == w[..j] + w[j..];
    assert multiset(v) == multiset(u) + multiset(Prefix);
    assert multiset(u) == multiset(w) + multiset(Suffix);
  }

  /** The number of tokens is one more than the number of spaces left after
      stripping; with no space there is a single token, and the latitude source
      `coords[1]` is `undefined`. */
  lemma TokenCount(v: string)
    ensures |Tokens(v)| == Count(Strip(v), Space) + 1
    ensures Join(Tokens(v), Space) == Strip(v)
    ensures Count(Strip(v), Space) == 0 <==> At(Tokens(v), 1) == None
    ensures Count(Strip(v), Space) == 0 ==> Tokens(v) == [Strip(v)]
  {
  }

  /** Round trip: a well-formed literal `Point(a b)` whose coordinates contain
      no space and no `)` yields exactly the tokens `[a, b]`. */
  lemma {:induction false} TokensOfPoint(a: string, b: string)
    requires Space !in a && Space !in b
    requires Close !in a && Close !in b
    ensures Tokens(Prefix + a + [Space] + b + Suffix) == [a, b]
  {
    var v := Prefix + a + [Space] + b + Suffix;
    var body := a + [Space] + b;
    assert v[0..|Prefix|] == Prefix;
    assert FirstOccurrence(v, Prefix, 0);
    RemoveFirstDeletesWindow(v, Prefix, 0);
    var u := ReplaceFirst(v, Prefix, "");
    assert u == v[|Prefix|..];
    assert u == body + Suffix;
    assert u[..|body|] == body;
    assert Close !in body;
    FirstCharOccurrence(u, Close, |body|);
    RemoveFirstUnique(u, Suffix, body, |body|);
    assert Strip(v) == body;
    assert Join([a, b], Space) == body;
    SplitOfJoin([a, b], Space);
  }
}
