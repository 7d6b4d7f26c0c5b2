/** Prefix and substring tests on sequences, as `String.prototype.startsWith` and `includes`. */
module Text {

  /** `s.startsWith(prefix)`: the first |prefix| elements of s are exactly prefix. */
  predicate StartsWith<T(==)>(s: seq<T>, prefix: seq<T>)
  {
    |prefix| <= |s| && s[..|prefix|] == prefix
  }

  /** `s.includes(pattern)`, scanned left to right from position 0. */
  predicate Contains<T(==)>(s: seq<T>, pattern: seq<T>)
  {
    exists i :: 0 <= i <= |s| && StartsWith(s[i..], pattern)
  }

  lemma StartsWithConcat<T>(prefix: seq<T>, rest: seq<T>)
    ensures StartsWith(prefix + rest, prefix)
  {
    assert (prefix + rest)[..|prefix|] == prefix;
  }

  lemma StartsWithTransitive<T>(s: seq<T>, t: seq<T>, p: seq<T>)
    requires StartsWith(s, t) && StartsWith(t, p)
    ensures StartsWith(s, p)
  {
    assert s[..|p|] == t[..|p|];
  }
}
