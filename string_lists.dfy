/**
 * The two list operations the migration performs on a list of names:
 * a guarded `append` and Python's `list.remove`.
 */
module StringLists {

  /** Position of the first occurrence of `x` in `s`. */
  function FirstIndex(s: seq<string>, x: string): (i: nat)
    requires x in s
    ensures i < |s| && s[i] == x
    ensures x !in s[..i]
  {
    if s[0] == x then 0 else 1 + FirstIndex(s[1..], x)
  }

  /**
   * Python's `list.remove(x)`: it scans from the front and drops the first
   * element equal to `x`. Python raises ValueError when there is none; every
   * call in the migration is guarded by an `in` test, so that case is excluded.
   */
  function RemoveFirst(s: seq<string>, x: string): (r: seq<string>)
    requires x in s
    ensures |r| == |s| - 1
  {
    if s[0] == x then s[1..] else [s[0]] + RemoveFirst(s[1..], x)
  }

  /** Element `k` after `list.remove(x)`: the old element `k` before the removed position, `k + 1` from it on. */
  lemma {:induction false} RemoveFirstAt(s: seq<string>, x: string, k: nat)
    requires x in s && k < |s| - 1
    ensures RemoveFirst(s, x)[k] == if k < FirstIndex(s, x) then s[k] else s[k + 1]
  {
    if s[0] != x && k > 0 {
      RemoveFirstAt(s[1..], x, k - 1);
    }
  }

  /**
   * What `list.remove(x)` leaves: everything before the first occurrence of
   * `x`, then everything after it, in order.
   */
  lemma RemoveFirstSplits(s: seq<string>, x: string)
    requires x in s
    ensures RemoveFirst(s, x) == s[..FirstIndex(s, x)] + s[FirstIndex(s, x) + 1..]
  {
    var i := FirstIndex(s, x);
    var r := RemoveFirst(s, x);
    forall k | 0 <= k < |r| ensures r[k] == (s[..i] + s[i + 1..])[k] {
      RemoveFirstAt(s, x, k);
    }
  }

  /** `list.remove(x)` lowers the count of `x` by one and keeps every other count. */
  lemma RemoveFirstCount(s: seq<string>, x: string)
    requires x in s
    ensures multiset(RemoveFirst(s, x)) == multiset(s) - multiset{x}
  {
    var i := FirstIndex(s, x);
    RemoveFirstSplits(s, x);
    assert s == s[..i] + [x] + s[i + 1..];
    assert multiset(s) == multiset(s[..i]) + multiset{x} + multiset(s[i + 1..]);
  }

  /** `if x not in s: s.append(x)` */
  function AddIfAbsent(s: seq<string>, x: string): (r: seq<string>)
    ensures x in r
    ensures s <= r && |r| <= |s| + 1
    ensures forall y :: multiset(r)[y] == if y == x && x !in s then 1 else multiset(s)[y]
  {
    if x in s then s else s + [x]
  }
}
