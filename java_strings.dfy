/**
 * The two `java.lang.String` operations the transfer core depends on:
 * `compareTo`, which orders the two account monitors, and `trim`, which
 * decides whether an identifier in a transfer request is blank.
 * Characters are compared by their numeric value.
 */
module JavaStrings {

  /**
   * `a.compareTo(b)`: the difference of the first pair of characters that
   * differ, or, when one string is a prefix of the other, the difference of
   * the lengths. Zero exactly when the strings are equal.
   */
  function CompareTo(a: string, b: string): (c: int)
    ensures c == 0 <==> a == b
  {
    if a == [] || b == [] then |a| - |b|
    else if a[0] != b[0] then a[0] as int - b[0] as int
    else
      var c := CompareTo(a[1..], b[1..]);
      assert a == [a[0]] + a[1..] && b == [b[0]] + b[1..];
      c
  }

  /** Swapping the operands negates the result, so the order does not depend on which side is asked. */
  lemma {:induction false} CompareToAntisymmetric(a: string, b: string)
    ensures CompareTo(a, b) == -CompareTo(b, a)
  {
    if a != [] && b != [] && a[0] == b[0] {
      CompareToAntisymmetric(a[1..], b[1..]);
    }
  }

  /** The strict order `CompareTo(a, b) < 0` is transitive. */
  lemma {:induction false} CompareToTransitive(a: string, b: string, c: string)
    requires CompareTo(a, b) < 0 && CompareTo(b, c) < 0
    ensures CompareTo(a, c) < 0
  {
    if a != [] && b != [] && c != [] && a[0] == b[0] && b[0] == c[0] {
      CompareToTransitive(a[1..], b[1..], c[1..]);
    }
  }

  /** A character that `String.trim` removes: code point at most U+0020. */
  predicate TrimRemoves(ch: char)
  {
    ch <= ' '
  }

  /** Drops the leading characters that `trim` removes. */
  function TrimStart(s: string): (r: string)
    ensures |r| <= |s| && r == s[|s| - |r|..]
    ensures r == [] || !TrimRemoves(r[0])
    ensures forall i :: 0 <= i < |s| - |r| ==> TrimRemoves(s[i])
  {
    if s != [] && TrimRemoves(s[0]) then TrimStart(s[1..]) else s
  }

  /** Drops the trailing characters that `trim` removes. */
  function TrimEnd(s: string): (r: string)
    ensures |r| <= |s| && r == s[..|r|]
    ensures r == [] || !TrimRemoves(r[|r| - 1])
    ensures forall i :: |r| <= i < |s| ==> TrimRemoves(s[i])
  {
    if s != [] && TrimRemoves(s[|s| - 1]) then TrimEnd(s[..|s| - 1]) else s
  }

  /** `s.trim()`: the longest infix of `s` that neither starts nor ends with a trimmed character. */
  function Trim(s: string): (r: string)
    ensures |r| <= |s|
    ensures r == [] || (!TrimRemoves(r[0]) && !TrimRemoves(r[|r| - 1]))
  {
    TrimEnd(TrimStart(s))
  }

  /** `trim` leaves nothing exactly when every character of the string is one it removes. */
  lemma TrimEmptyIff(s: string)
    ensures Trim(s) == [] <==> forall i :: 0 <= i < |s| ==> TrimRemoves(s[i])
  {
  }
}
