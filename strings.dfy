/**
 * PHP's `explode` and `implode` for a one-character separator, on strings
 * as sequences of characters.
 */
module Strings {

  /**
   * Cuts `s` at every occurrence of `sep`. Empty pieces are kept, so a
   * separator at either end or two separators in a row give an empty
   * segment, and the empty string gives one empty segment.
   */
  function Explode(s: string, sep: char): (parts: seq<string>)
    ensures |parts| >= 1
    ensures forall i :: 0 <= i < |parts| ==> sep !in parts[i]
    ensures Implode(parts, sep) == s
    decreases |s|
  {
    if s == [] then [[]]
    else
      var rest := Explode(s[1..], sep);
      if s[0] == sep then
        assert [s[0]] + s[1..] == s;
        [[]] + rest
      else
        var parts := [[s[0]] + rest[0]] + rest[1..];
        assert parts[1..] == rest[1..];
        assert [s[0]] + s[1..] == s;
        parts
  }

  /** Joins `parts` with `sep` between consecutive pieces. */
  function Implode(parts: seq<string>, sep: char): (s: string)
  {
    if |parts| == 0 then []
    else if |parts| == 1 then parts[0]
    else parts[0] + [sep] + Implode(parts[1..], sep)
  }

  /** A string without separators explodes into itself alone. */
  lemma {:induction false} ExplodeWithoutSeparator(a: string, sep: char)
    requires sep !in a
    ensures Explode(a, sep) == [a]
    decreases |a|
  {
    if a != [] {
      ExplodeWithoutSeparator(a[1..], sep);
      assert [a[0]] + a[1..] == a;
    }
  }

  /** A leading separator-free piece followed by a separator becomes the first segment. */
  lemma {:induction false} ExplodeAfterPiece(a: string, t: string, sep: char)
    requires sep !in a
    ensures Explode(a + [sep] + t, sep) == [a] + Explode(t, sep)
    decreases |a|
  {
    var s := a + [sep] + t;
    if a == [] {
      assert s[1..] == t;
    } else {
      assert s[1..] == a[1..] + [sep] + t;
      ExplodeAfterPiece(a[1..], t, sep);
      assert [a[0]] + a[1..] == a;
    }
  }

  /**
   * The other half of the round trip: exploding the join of separator-free
   * pieces gives back exactly those pieces.
   */
  lemma {:induction false} ExplodeImplode(parts: seq<string>, sep: char)
    requires |parts| >= 1
    requires forall i :: 0 <= i < |parts| ==> sep !in parts[i]
    ensures Explode(Implode(parts, sep), sep) == parts
    decreases |parts|
  {
    if |parts| == 1 {
      ExplodeWithoutSeparator(parts[0], sep);
    } else {
      ExplodeImplode(parts[1..], sep);
      ExplodeAfterPiece(parts[0], Implode(parts[1..], sep), sep);
      assert [parts[0]] + parts[1..] == parts;
    }
  }

  /** The number of segments is one more than the number of separators. */
  lemma {:induction false} ExplodeCount(s: string, sep: char)
    ensures |Explode(s, sep)| == multiset(s)[sep] + 1
    decreases |s|
  {
    if s != [] {
      ExplodeCount(s[1..], sep);
      assert s == [s[0]] + s[1..];
      assert multiset(s) == multiset([s[0]]) + multiset(s[1..]);
    }
  }
}
