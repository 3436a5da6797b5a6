/**
 * The Python list and dict primitives the contact book relies on, on sequences:
 * the first index of an element, `list.remove`, and the key order of a dict
 * under assignment and `del`.
 */
module Lists {
  import opened Outcomes

  /** The position of the first element equal to x, or None when x does not occur. */
  function FirstIndex<T(==)>(s: seq<T>, x: T): (r: Option<nat>)
    ensures r.None? <==> x !in s
    ensures r.Some? ==> r.value < |s| && s[r.value] == x && x !in s[..r.value]
  {
    if s == [] then None
    else if s[0] == x then Some(0)
    else match FirstIndex(s[1..], x)
      case None => None
      case Some(i) => assert s[1..][..i] == s[1..i + 1]; Some(i + 1)
  }

  /** `list.remove(x)`: drop the first element equal to x. */
  function RemoveFirst<T(==)>(s: seq<T>, x: T): (r: seq<T>)
    requires x in s
    ensures |r| == |s| - 1
    ensures multiset(r) == multiset(s) - multiset{x}
  {
    assert s == [s[0]] + s[1..];
    if s[0] == x then s[1..]
    else [s[0]] + RemoveFirst(s[1..], x)
  }

  /** `list.remove(x)` takes out exactly the element at the first index of x; the rest keep their order. */
  lemma {:induction false} RemoveFirstAt<T>(s: seq<T>, x: T, i: nat)
    requires i < |s| && s[i] == x && x !in s[..i]
    ensures RemoveFirst(s, x) == s[..i] + s[i + 1..]
  {
    if i > 0 {
      assert s[0] != x by { assert s[0] == s[..i][0]; }
      assert s[1..][..i - 1] == s[1..i];
      RemoveFirstAt(s[1..], x, i - 1);
      assert s[1..][i..] == s[i + 1..];
    }
  }

  /** No key occurs twice. */
  ghost predicate Distinct<T>(s: seq<T>) {
    forall i, j :: 0 <= i < j < |s| ==> s[i] != s[j]
  }

  /**
   * The key order of a dict after `d[k] = v`: a key already present keeps its
   * position, a new key goes to the end.
   */
  function Assign<T(==,!new)>(keys: seq<T>, k: T): (r: seq<T>)
    ensures |keys| <= |r| && r[..|keys|] == keys
    ensures forall y :: y in r <==> y in keys || y == k
    ensures Distinct(keys) ==> Distinct(r)
    ensures k in keys ==> r == keys
  {
    if k in keys then keys else keys + [k]
  }

  /** The key order of a dict after `del d[k]`: k is gone, the other keys keep their relative order. */
  function Without<T(==,!new)>(keys: seq<T>, k: T): (r: seq<T>)
    ensures forall y :: y in r <==> y in keys && y != k
    ensures Distinct(keys) ==> Distinct(r)
  {
    if keys == [] then []
    else if keys[0] == k then Without(keys[1..], k)
    else
      var tail := Without(keys[1..], k);
      assert Distinct(keys) ==> Distinct(keys[1..]) && keys[0] !in keys[1..] by {
        if Distinct(keys) {
          forall i, j | 0 <= i < j < |keys[1..]| ensures keys[1..][i] != keys[1..][j] {
            assert keys[1..][i] == keys[i + 1] && keys[1..][j] == keys[j + 1];
          }
          forall i | 0 <= i < |keys[1..]| ensures keys[1..][i] != keys[0] {
            assert keys[1..][i] == keys[i + 1];
          }
        }
      }
      [keys[0]] + tail
  }

  /** On distinct keys, `del` cuts out the one slot that held k. */
  lemma {:induction false} WithoutAt<T(!new)>(keys: seq<T>, k: T, i: nat)
    requires Distinct(keys) && i < |keys| && keys[i] == k
    ensures Without(keys, k) == keys[..i] + keys[i + 1..]
  {
    if i == 0 {
      WithoutAbsent(keys[1..], k);
    } else {
      assert keys[0] != k;
      WithoutAt(keys[1..], k, i - 1);
      assert keys[1..][..i - 1] == keys[1..i];
      assert keys[1..][i..] == keys[i + 1..];
    }
  }

  /** Deleting a key that is absent leaves the order as it is. */
  lemma {:induction false} WithoutAbsent<T(!new)>(keys: seq<T>, k: T)
    requires k !in keys
    ensures Without(keys, k) == keys
  {
    if keys != [] {
      WithoutAbsent(keys[1..], k);
    }
  }
}
