/** The parts of JavaScript's value model and built-ins that the server code
    relies on: absent and null fields, thrown TypeErrors, `Array.prototype.join`
    (as used by template interpolation of an array) and `Array.prototype.reverse`. */
module Js {

  /** A field of a parsed JSON object or a resolver argument: missing
      (`undefined`), explicitly `null`, or present. */
  datatype Maybe<+T> = Undefined | Null | Defined(value: T)

  /** What a resolver does: return a value, or throw a TypeError
      (reading a property of `undefined`). */
  datatype Result<+T> = Ok(value: T) | TypeError

  // ---------------------------------------------------------------------
  // Array.prototype.join(",") over strings; `${xs}` for an array of strings

  function Join(xs: seq<string>): (s: string)
    ensures |xs| > 0 && xs[0] != [] ==> s != []
  {
    if |xs| == 0 then []
    else if |xs| == 1 then xs[0]
    else xs[0] + [','] + Join(xs[1..])
  }

  /** The comma-separated fields of a string (`s.split(",")`). */
  function Fields(s: string): (r: seq<string>)
    ensures |r| >= 1
  {
    if s == [] then [[]]
    else
      var rest := Fields(s[1..]);
      if s[0] == ',' then [[]] + rest
      else [[s[0]] + rest[0]] + rest[1..]
  }

  /** Reads a list back from its joined form; the empty string is the empty list. */
  function Split(s: string): seq<string> {
    if s == [] then [] else Fields(s)
  }

  predicate CommaFree(x: string) {
    ',' !in x
  }

  lemma {:induction false} FieldsOfCommaFree(x: string, t: string)
    requires CommaFree(x)
    ensures Fields(x) == [x]
    ensures Fields(x + [','] + t) == [x] + Fields(t)
  {
    if x != [] {
      FieldsOfCommaFree(x[1..], t);
      assert (x + [','] + t)[1..] == x[1..] + [','] + t;
      assert [x[0]] + x[1..] == x;
    } else {
      assert x + [','] + t == [','] + t;
      assert ([','] + t)[1..] == t;
    }
  }

  /** Joining non-empty, comma-free strings loses nothing: splitting the
      joined string gives the list back. */
  lemma {:induction false} SplitJoin(xs: seq<string>)
    requires forall i :: 0 <= i < |xs| ==> xs[i] != [] && CommaFree(xs[i])
    ensures Split(Join(xs)) == xs
  {
    if |xs| == 1 {
      FieldsOfCommaFree(xs[0], []);
    } else if |xs| > 1 {
      SplitJoin(xs[1..]);
      FieldsOfCommaFree(xs[0], Join(xs[1..]));
      assert Join(xs[1..]) != [];
      assert [xs[0]] + xs[1..] == xs;
    }
  }

  // ---------------------------------------------------------------------
  // Array.prototype.reverse

  /** The elements of `s` in the opposite order. */
  function Reversed<T>(s: seq<T>): (r: seq<T>)
    ensures |r| == |s|
    ensures s != [] ==> r[0] == s[|s| - 1] && r[|r| - 1] == s[0]
  {
    if s == [] then [] else [s[|s| - 1]] + Reversed(s[..|s| - 1])
  }

  lemma {:induction false} ReversedIndex<T>(s: seq<T>, i: nat)
    requires i < |s|
    ensures |Reversed(s)| == |s|
    ensures Reversed(s)[i] == s[|s| - 1 - i]
  {
    if i > 0 {
      ReversedIndex(s[..|s| - 1], i - 1);
    } else if |s| > 1 {
      ReversedIndex(s[..|s| - 1], 0);
    } else {
      assert Reversed(s[..|s| - 1]) == [];
    }
  }

  /** Reversal keeps the length and sends element i to position n-1-i. */
  lemma ReversedSpec<T>(s: seq<T>)
    ensures |Reversed(s)| == |s|
    ensures forall i :: 0 <= i < |s| ==> Reversed(s)[i] == s[|s| - 1 - i]
  {
    if s == [] {
      assert Reversed(s) == [];
    } else {
      ReversedIndex(s, 0);
    }
    forall i | 0 <= i < |s| ensures Reversed(s)[i] == s[|s| - 1 - i] {
      ReversedIndex(s, i);
    }
  }

  /** Reversing twice gives the original list back. */
  lemma ReversedInvolution<T>(s: seq<T>)
    ensures Reversed(Reversed(s)) == s
  {
    ReversedSpec(s);
    ReversedSpec(Reversed(s));
  }

  /** `a.reverse()`: reverses the array in place. */
  method ReverseInPlace<T>(a: array<T>)
    modifies a
    ensures a[..] == Reversed(old(a[..]))
  {
    var lo, hi := 0, a.Length;
    while lo + 1 < hi
      invariant 0 <= lo <= hi <= a.Length
      invariant lo + hi == a.Length
      invariant forall k :: 0 <= k < lo ==> a[k] == old(a[a.Length - 1 - k])
      invariant forall k :: hi <= k < a.Length ==> a[k] == old(a[a.Length - 1 - k])
      invariant forall k :: lo <= k < hi ==> a[k] == old(a[k])
    {
      a[lo], a[hi - 1] := a[hi - 1], a[lo];
      lo, hi := lo + 1, hi - 1;
    }
    ghost var before := old(a[..]);
    ReversedSpec(before);
    assert a[..] == Reversed(before);
  }
}
