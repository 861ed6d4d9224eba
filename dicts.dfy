/**
 * Python 2 dict iteration order. A dict visits its keys in an order fixed by
 * the keys' hashes and by the history of insertions, not in insertion order.
 * The model takes that order as a parameter: given the keys of a dict in the
 * order they were inserted, it lists their positions in the order the dict
 * visits them.
 */
module Dicts {
  import opened Values

  /** `p` lists every position below `n`, each once. */
  predicate IsArrangement(p: seq<nat>, n: nat)
  {
    |p| == n && (forall i :: 0 <= i < n ==> p[i] < n) && (forall j :: 0 <= j < n ==> j in p) &&
    (forall i, j :: 0 <= i < j < n ==> p[i] != p[j])
  }

  /** The positions below `n`, in increasing order. */
  function Positions(n: nat): (p: seq<nat>)
    ensures IsArrangement(p, n)
    ensures forall i :: 0 <= i < n ==> p[i] == i
  {
    var p := seq(n, i requires 0 <= i < n => i as nat);
    EveryPositionListed(p);
    p
  }

  lemma {:induction false} EveryPositionListed(p: seq<nat>)
    requires forall i :: 0 <= i < |p| ==> p[i] == i
    ensures forall j :: 0 <= j < |p| ==> j in p
  {
    forall j | 0 <= j < |p|
      ensures j in p
    {
      assert p[j] == j;
    }
  }

  /**
   * How dicts iterate: for the keys in insertion order, the positions of
   * those keys in the order the dict visits them.
   */
  type IterationOrder = f: seq<Scalar> -> seq<nat> | forall keys :: IsArrangement(f(keys), |keys|)
    witness (keys: seq<Scalar>) => Positions(|keys|)

  /** Insertion order: the order in which the dicts of Python 3.7 and later iterate. */
  const InsertionOrder: IterationOrder := (keys: seq<Scalar>) => Positions(|keys|)

  /** The items of `s` in the order `p` lists their positions. */
  function Arrange<T>(s: seq<T>, p: seq<nat>): (r: seq<T>)
    requires IsArrangement(p, |s|)
    ensures |r| == |s|
    ensures forall i :: 0 <= i < |s| ==> r[i] == s[p[i]]
  {
    seq(|s|, i requires 0 <= i < |s| => s[p[i]])
  }

  /** Rearranging moves items around: it neither drops an item nor adds one. */
  lemma {:induction false} ArrangeKeepsItems<T>(s: seq<T>, p: seq<nat>)
    requires IsArrangement(p, |s|)
    ensures forall x :: x in Arrange(s, p) <==> x in s
  {
    var r := Arrange(s, p);
    forall x | x in s
      ensures x in r
    {
      var j :| 0 <= j < |s| && s[j] == x;
      assert j in p;
      var i :| 0 <= i < |p| && p[i] == j;
      assert r[i] == x;
    }
  }

  /** In insertion order nothing moves. */
  lemma {:induction false} ArrangeInInsertionOrder<T>(s: seq<T>)
    ensures Arrange(s, Positions(|s|)) == s
  {
  }

  /**
   * The first `k` items of `s` in the order `p` lists their positions, the
   * rest where they were.
   */
  function ArrangeFront<T>(s: seq<T>, k: nat, p: seq<nat>): (r: seq<T>)
    requires k <= |s| && IsArrangement(p, k)
    ensures |r| == |s|
    ensures forall i :: 0 <= i < k ==> r[i] == s[p[i]]
    ensures forall i :: k <= i < |s| ==> r[i] == s[i]
  {
    Arrange(s[..k], p) + s[k..]
  }

  /** Rearranging a prefix moves items around: it neither drops an item nor adds one. */
  lemma {:induction false} ArrangeFrontKeepsItems<T>(s: seq<T>, k: nat, p: seq<nat>)
    requires k <= |s| && IsArrangement(p, k)
    ensures forall x :: x in ArrangeFront(s, k, p) <==> x in s
  {
    ArrangeKeepsItems(s[..k], p);
    assert s == s[..k] + s[k..];
  }

  /** In insertion order nothing moves. */
  lemma {:induction false} ArrangeFrontInInsertionOrder<T>(s: seq<T>, k: nat)
    requires k <= |s|
    ensures ArrangeFront(s, k, Positions(k)) == s
  {
    ArrangeInInsertionOrder(s[..k]);
    assert s[..k] + s[k..] == s;
  }

  /** The rearranged prefix is the prefix arranged. */
  lemma {:induction false} ArrangeFrontPrefix<T>(s: seq<T>, k: nat, p: seq<nat>)
    requires k <= |s| && IsArrangement(p, k)
    ensures ArrangeFront(s, k, p)[..k] == Arrange(s[..k], p)
  {
  }

  /** Rearranging every item is arranging the whole sequence. */
  lemma {:induction false} ArrangeFrontAll<T>(s: seq<T>, p: seq<nat>)
    requires IsArrangement(p, |s|)
    ensures ArrangeFront(s, |s|, p) == Arrange(s, p)
  {
    assert s[..|s|] == s;
  }

  /** Every item of `s` is `f` of an item of `t`, and the other way round, when they agree position by position. */
  lemma {:induction false} SameItemsPointwise<T, U>(s: seq<T>, t: seq<U>, f: U -> T)
    requires |s| == |t| && forall i :: 0 <= i < |s| ==> s[i] == f(t[i])
    ensures forall u <- t :: f(u) in s
    ensures forall x <- s :: exists u <- t :: x == f(u)
  {
    forall u | u in t
      ensures f(u) in s
    {
      var i :| 0 <= i < |t| && t[i] == u;
      assert s[i] == f(u);
    }
    forall x | x in s
      ensures exists u <- t :: x == f(u)
    {
      var i :| 0 <= i < |s| && s[i] == x;
      assert t[i] in t;
    }
  }

  /** Rearranging a prefix of `f` applied pointwise still gives `f` of every item of `t`, and nothing else. */
  lemma {:induction false} ArrangeFrontPointwise<T, U>(s: seq<T>, t: seq<U>, f: U -> T, k: nat, p: seq<nat>)
    requires |s| == |t| && forall i :: 0 <= i < |s| ==> s[i] == f(t[i])
    requires k <= |s| && IsArrangement(p, k)
    ensures forall u <- t :: f(u) in ArrangeFront(s, k, p)
    ensures forall x <- ArrangeFront(s, k, p) :: exists u <- t :: x == f(u)
  {
    ArrangeFrontKeepsItems(s, k, p);
    SameItemsPointwise(s, t, f);
  }

  /** A prefix one item longer. */
  lemma {:induction false} TakeOneMore<T>(s: seq<T>, i: nat)
    requires i < |s|
    ensures s[..i + 1] == s[..i] + [s[i]]
  {
  }

  /** A dict with a single key visits it. */
  lemma {:induction false} OneKeyOrder(order: IterationOrder, key: Scalar)
    ensures order([key]) == [0]
  {
    assert IsArrangement(order([key]), 1);
  }
}
