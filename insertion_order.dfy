/**
 * A set that remembers insertion order, as a JavaScript `Set` does: adding a
 * value already present changes nothing, adding a new one appends it, and
 * spreading the set lists its values in order of first insertion.
 */
module InsertionOrder {

  predicate NoDuplicates<T(==, !new)>(s: seq<T>) {
    forall i, j :: 0 <= i < j < |s| ==> s[i] != s[j]
  }

  /**
   * Add `x` to the set listed by `s`: the set gains exactly `x`, the values
   * already there keep their positions, and `x` is appended only when new.
   */
  function Insert<T(==, !new)>(s: seq<T>, x: T): (r: seq<T>)
    ensures forall y :: y in r <==> y in s || y == x
    ensures |r| == if x in s then |s| else |s| + 1
    ensures r[..|s|] == s
    ensures NoDuplicates(s) ==> NoDuplicates(r)
  {
    if x in s then s else s + [x]
  }

  /** The values of `s` with repeats dropped, each at the place it first occurs. */
  function Dedup<T(==, !new)>(s: seq<T>): (r: seq<T>)
    ensures NoDuplicates(r)
    ensures forall x :: x in r <==> x in s
    ensures |r| <= |s|
  {
    if s == [] then [] else Insert(Dedup(s[..|s| - 1]), s[|s| - 1])
  }

  /** The dedup of a prefix one longer is the shorter prefix's dedup with the next value inserted. */
  lemma DedupPrefix<T(!new)>(s: seq<T>, k: nat)
    requires k < |s|
    ensures Dedup(s[..k + 1]) == Insert(Dedup(s[..k]), s[k])
  {
    assert s[..k + 1][..k] == s[..k];
  }

  /** Dedup of four values is inserting them one after another into an empty set. */
  lemma DedupOfFour<T(!new)>(s: seq<T>)
    requires |s| == 4
    ensures Dedup(s) == Insert(Insert(Insert(Insert([], s[0]), s[1]), s[2]), s[3])
  {
    assert s[..0] == [];
    DedupPrefix(s, 0);
    DedupPrefix(s, 1);
    DedupPrefix(s, 2);
    DedupPrefix(s, 3);
    assert s[..4] == s;
  }

  /** The position of the first occurrence of `x` in `s`. */
  function FirstIndex<T(==, !new)>(s: seq<T>, x: T): (k: nat)
    requires x in s
    ensures k < |s| && s[k] == x
    ensures x !in s[..k]
  {
    if s[0] == x then 0 else 1 + FirstIndex(s[1..], x)
  }

  /** A position holding `x` with no earlier `x` is the first occurrence. */
  lemma FirstIndexUnique<T(!new)>(s: seq<T>, x: T, k: nat)
    requires k < |s| && s[k] == x && x !in s[..k]
    ensures FirstIndex(s, x) == k
  {
  }

  /** Appending a value does not move the first occurrence of a value already present. */
  lemma FirstIndexAppend<T(!new)>(p: seq<T>, x: T, y: T)
    requires y in p
    ensures FirstIndex(p + [x], y) == FirstIndex(p, y)
  {
    var k := FirstIndex(p, y);
    assert (p + [x])[..k] == p[..k];
    FirstIndexUnique(p + [x], y, k);
  }

  /**
   * Dedup keeps first-occurrence order: of two values in the result, the one
   * listed earlier occurs first in the input.
   */
  lemma {:induction false} DedupOrder<T(!new)>(s: seq<T>, i: nat, j: nat)
    requires i < j < |Dedup(s)|
    ensures Dedup(s)[i] in s && Dedup(s)[j] in s
    ensures FirstIndex(s, Dedup(s)[i]) < FirstIndex(s, Dedup(s)[j])
    decreases |s|
  {
    var p, x := s[..|s| - 1], s[|s| - 1];
    assert s == p + [x];
    var d := Dedup(p);
    if j < |d| {
      assert Dedup(s)[i] == d[i] && Dedup(s)[j] == d[j];
      DedupOrder(p, i, j);
      FirstIndexAppend(p, x, d[i]);
      FirstIndexAppend(p, x, d[j]);
    } else {
      assert x !in d && Dedup(s) == d + [x] && j == |d|;
      assert Dedup(s)[i] == d[i];
      FirstIndexAppend(p, x, d[i]);
      FirstIndexUnique(s, x, |p|);
    }
  }

  /** A sequence that already has no repeats is its own dedup, order included. */
  lemma {:induction false} DedupOfDistinct<T(!new)>(s: seq<T>)
    requires NoDuplicates(s)
    ensures Dedup(s) == s
    decreases |s|
  {
    if s != [] {
      var p, x := s[..|s| - 1], s[|s| - 1];
      assert s == p + [x];
      assert NoDuplicates(p);
      DedupOfDistinct(p);
      assert x !in p;
    }
  }
}
