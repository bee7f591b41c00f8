/** Lists without duplicates, and removing from them: what std::list and the linked lists of adb do. */
module Lists {
  import opened Bytes

  ghost predicate NoDuplicates<T>(q: seq<T>) {
    forall i, j :: 0 <= i < j < |q| ==> q[i] != q[j]
  }

  function Without<T>(q: seq<T>, k: nat): seq<T>
    requires k < |q|
  {
    q[..k] + q[k + 1..]
  }

  /** q without the members of gone, in order. */
  function Minus<T(==)>(q: seq<T>, gone: set<T>): seq<T> {
    if q == [] then []
    else (if q[0] in gone then [] else [q[0]]) + Minus(q[1..], gone)
  }

  lemma {:induction false} MinusMembers<T>(q: seq<T>, gone: set<T>)
    ensures forall x :: x in Minus(q, gone) ==> x in q && x !in gone
    ensures forall x :: x in q && x !in gone ==> x in Minus(q, gone)
    ensures |Minus(q, gone)| <= |q|
  {
    if q != [] {
      MinusMembers(q[1..], gone);
      assert q == [q[0]] + q[1..];
    }
  }

  lemma {:induction false} MinusAppend<T>(p: seq<T>, q: seq<T>, gone: set<T>)
    ensures Minus(p + q, gone) == Minus(p, gone) + Minus(q, gone)
  {
    if p == [] {
      assert p + q == q;
    } else {
      MinusAppend(p[1..], q, gone);
      ConcatAssoc(if p[0] in gone then [] else [p[0]], Minus(p[1..], gone), Minus(q, gone));
      assert (p + q)[0] == p[0];
      assert (p + q)[1..] == p[1..] + q;
      assert Minus(p + q, gone) == (if p[0] in gone then [] else [p[0]]) + Minus(p[1..] + q, gone);
    }
  }

  lemma {:induction false} MinusNone<T>(q: seq<T>, gone: set<T>)
    requires forall x :: x in q ==> x !in gone
    ensures Minus(q, gone) == q
  {
    if q != [] {
      forall x | x in q[1..] ensures x !in gone { assert x in q; }
      MinusNone(q[1..], gone);
    }
  }

  lemma {:induction false} MinusTwice<T>(q: seq<T>, a: set<T>, b: set<T>)
    ensures Minus(Minus(q, a), b) == Minus(q, a + b)
  {
    if q != [] {
      MinusTwice(q[1..], a, b);
      MinusAppend(if q[0] in a then [] else [q[0]], Minus(q[1..], a), b);
    }
  }

  lemma {:induction false} MinusFewer<T>(q: seq<T>, gone: set<T>, k: nat)
    requires k < |q| && q[k] in gone
    ensures |Minus(q, gone)| < |q|
  {
    MinusMembers(q[1..], gone);
    if k > 0 {
      MinusFewer(q[1..], gone, k - 1);
    }
  }

  /** In a duplicate-free sequence, removing position k removes exactly that element. */
  lemma {:induction false} WithoutIsMinus<T>(q: seq<T>, k: nat)
    requires k < |q| && NoDuplicates(q)
    ensures Without(q, k) == Minus(q, {q[k]})
  {
    if k == 0 {
      MinusNone(q[1..], {q[0]});
    } else {
      WithoutIsMinus(q[1..], k - 1);
      assert Without(q, k) == [q[0]] + Without(q[1..], k - 1);
    }
  }

  lemma {:induction false} MinusDistinct<T>(q: seq<T>, gone: set<T>)
    requires NoDuplicates(q)
    ensures NoDuplicates(Minus(q, gone))
  {
    if q != [] {
      var r := Minus(q[1..], gone);
      forall i, j | 0 <= i < j < |q[1..]| ensures q[1..][i] != q[1..][j] { assert q[i + 1] != q[j + 1]; }
      MinusDistinct(q[1..], gone);
      MinusMembers(q[1..], gone);
      forall y | y in q[1..] ensures y != q[0] {
        var k :| 0 <= k < |q[1..]| && q[1..][k] == y;
        assert q[0] != q[k + 1];
      }
      assert forall k :: 0 <= k < |r| ==> r[k] in r;
    }
  }

  /** std::list::remove */
  function Dropped<T(==)>(q: seq<T>, x: T): (r: seq<T>)
    ensures r == Minus(q, {x})
    ensures forall y :: y in r ==> y in q && y != x
    ensures forall y :: y in q && y != x ==> y in r
    ensures |r| <= |q| && (x in q ==> |r| < |q|)
    ensures NoDuplicates(q) ==> NoDuplicates(r)
  {
    DroppedMembers(q, x);
    Minus(q, {x})
  }

  lemma DroppedMembers<T>(q: seq<T>, x: T)
    ensures var r := Minus(q, {x});
      && (forall y :: y in r ==> y in q && y != x)
      && (forall y :: y in q && y != x ==> y in r)
      && |r| <= |q| && (x in q ==> |r| < |q|)
      && (NoDuplicates(q) ==> NoDuplicates(r))
  {
    MinusMembers(q, {x});
    if NoDuplicates(q) { MinusDistinct(q, {x}); }
    if x in q {
      var k :| 0 <= k < |q| && q[k] == x;
      MinusFewer(q, {x}, k);
    }
  }

  lemma DroppedAbsent<T>(q: seq<T>, x: T)
    requires x !in q
    ensures Dropped(q, x) == q
  {
    MinusNone(q, {x});
  }

  /** The first i members of q are those in gone. */
  ghost predicate FirstAre<T>(q: seq<T>, i: nat, gone: set<T>) {
    forall k :: 0 <= k < |q| ==> (q[k] in gone <==> k < i)
  }

  lemma OneMore<T>(q: seq<T>, i: nat, gone: set<T>)
    requires NoDuplicates(q) && i < |q| && FirstAre(q, i, gone)
    ensures FirstAre(q, i + 1, gone + {q[i]})
  {}
}
