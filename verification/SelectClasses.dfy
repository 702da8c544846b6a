// When the sort of the selection (select.c) puts devices of one algorithm class in order
// of their own third key.
module SelectClasses {
  import opened SelectRules
  import opened SelectSort

  // What of a record does not change from call to call as its third keys do.
  datatype Shape = Shape(pos: int, priority: int, key: Key)

  function ShapeOf(cr: Request, c: Cand): Shape {
    Shape(c.imbPos, c.pvt.priority, KeyOf(cr, c.pvt))
  }

  function Shapes(cr: Request, s: seq<Cand>): (r: seq<Shape>)
    ensures |r| == |s| && forall k :: 0 <= k < |s| ==> r[k] == ShapeOf(cr, s[k])
  {
    seq(|s|, k requires 0 <= k < |s| => ShapeOf(cr, s[k]))
  }

  // Ranked strictly before, by position and priority.
  predicate Before(x: Shape, y: Shape) {
    x.pos < y.pos || (x.pos == y.pos && x.priority > y.priority)
  }

  // Records of one position, priority and class stand in the order of their own key.
  ghost predicate ClassesInOrder(cr: Request, r: seq<Cand>) {
    forall p, q :: 0 <= p < q < |r| && ShapeOf(cr, r[p]) == ShapeOf(cr, r[q]) ==>
      ThirdKey(cr, KeyOf(cr, r[p].pvt), r[p]) >= ThirdKey(cr, KeyOf(cr, r[p].pvt), r[q])
  }

  // Two records of one shape meet one of another class that is not ranked before them.
  ghost predicate Disturbed(m: multiset<Shape>) {
    exists x, z :: m[x] >= 2 && m[z] >= 1 && z.key != x.key && !Before(z, x)
  }

  // ------------------------------------------------------------------
  // Shapes of lists.
  // ------------------------------------------------------------------

  lemma ShapesJoin(cr: Request, a: seq<Cand>, b: seq<Cand>)
    ensures Shapes(cr, a + b) == Shapes(cr, a) + Shapes(cr, b)
  {
    hide ShapeOf;
  }

  function Less(s: seq<Cand>, k: nat): seq<Cand>
    requires k < |s|
  {
    s[..k] + s[k + 1..]
  }

  lemma LessShapes(cr: Request, s: seq<Cand>, k: nat)
    requires k < |s|
    ensures multiset(Shapes(cr, s)) == multiset(Shapes(cr, Less(s, k))) + multiset{ShapeOf(cr, s[k])}
    ensures multiset(s) == multiset(Less(s, k)) + multiset{s[k]}
  {
    hide ShapeOf;
    assert s == s[..k] + [s[k]] + s[k + 1..];
    ShapesJoin(cr, s[..k] + [s[k]], s[k + 1..]);
    ShapesJoin(cr, s[..k], [s[k]]);
    ShapesJoin(cr, s[..k], s[k + 1..]);
    assert Shapes(cr, [s[k]]) == [ShapeOf(cr, s[k])];
  }

  lemma {:induction false} ShapesOfSame(cr: Request, s: seq<Cand>, t: seq<Cand>)
    requires multiset(s) == multiset(t)
    ensures multiset(Shapes(cr, s)) == multiset(Shapes(cr, t))
    decreases |s|
  {
    hide ShapeOf, Less;
    if s == [] {
      assert |multiset(t)| == 0;
      assert t == [];
    } else {
      assert s[0] in multiset(t);
      var k :| 0 <= k < |t| && t[k] == s[0];
      LessShapes(cr, s, 0);
      LessShapes(cr, t, k);
      assert multiset(Less(s, 0)) == multiset(Less(t, k)) by {
        assert multiset(Less(s, 0)) == multiset(s) - multiset{s[0]};
        assert multiset(Less(t, k)) == multiset(t) - multiset{s[0]};
      }
      LessShorter(s, 0);
      ShapesOfSame(cr, Less(s, 0), Less(t, k));
    }
  }

  lemma LessShorter(s: seq<Cand>, k: nat)
    requires k < |s|
    ensures |Less(s, k)| == |s| - 1
  {
  }

  lemma TwiceThere(sh: seq<Shape>, p: nat, q: nat)
    requires p < q < |sh| && sh[p] == sh[q]
    ensures multiset(sh)[sh[p]] >= 2
  {
    var a, b := sh[..q], sh[q..];
    assert sh == a + b;
    assert a[p] in multiset(a) && b[0] in multiset(b);
  }

  // ------------------------------------------------------------------
  // Undisturbed, every class comes out in order.
  // ------------------------------------------------------------------

  lemma OrderIfUndisturbed(cr: Request, t: seq<Cand>)
    requires !Disturbed(multiset(Shapes(cr, t)))
    ensures ClassesInOrder(cr, Sorted(cr, t, 0))
  {
    hide KeyOf, Sorted, Disturbed;
    var r := Sorted(cr, t, 0);
    SortedBest(cr, t, 0);
    SortOrders(cr, t);
    ShapesOfSame(cr, r, t);
    forall p, q | 0 <= p < q < |r| && ShapeOf(cr, r[p]) == ShapeOf(cr, r[q])
      ensures ThirdKey(cr, KeyOf(cr, r[p].pvt), r[p]) >= ThirdKey(cr, KeyOf(cr, r[p].pvt), r[q])
    {
      assert BestAt(cr, r, p);
      var k :| p <= k < |r| && Best(ByKey(cr, KeyOf(cr, r[k].pvt)), r, p, |r|);
      SameClassAfter(cr, r, p, q, k);
      assert !ByKey(cr, KeyOf(cr, r[k].pvt))(r[p], r[q]);
    }
  }

  // What stands at or after one of two records of a shape is of their class.
  lemma SameClassAfter(cr: Request, r: seq<Cand>, p: nat, q: nat, k: nat)
    requires !Disturbed(multiset(Shapes(cr, r)))
    requires p < q < |r| && ShapeOf(cr, r[p]) == ShapeOf(cr, r[q]) && p <= k < |r|
        && !Before(ShapeOf(cr, r[k]), ShapeOf(cr, r[p]))
    ensures KeyOf(cr, r[k].pvt) == KeyOf(cr, r[p].pvt)
  {
    hide KeyOf;
    var m := multiset(Shapes(cr, r));
    TwiceThere(Shapes(cr, r), p, q);
    assert Shapes(cr, r)[k] in m;
    assert m[ShapeOf(cr, r[p])] >= 2 && m[ShapeOf(cr, r[k])] >= 1;
  }

  // ------------------------------------------------------------------
  // Disturbed, some keys and some order before bring a class out of order.
  // ------------------------------------------------------------------

  // The record with v for one third key and 0 for the others.
  function WithKey(cr: Request, c: Cand, key: Key, v: nat): Cand {
    c.(diff := if key == ByDiff then v else 0,
       pvt := c.pvt.(outCalls := if key == ByCalls then v else 0,
                     limit := c.pvt.limit[cr.limitnum := if key == ByLimit then v else 0]))
  }

  lemma WithKeyIs(cr: Request, c: Cand, key: Key, v: nat)
    ensures ShapeOf(cr, WithKey(cr, c, key, v)) == ShapeOf(cr, c)
    ensures ThirdKey(cr, key, WithKey(cr, c, key, v)) == v
    ensures forall other :: other != key ==> ThirdKey(cr, other, WithKey(cr, c, key, v)) == 0
  {
    hide KeyOf;
    var w := WithKey(cr, c, key, v);
    assert w.pvt.alg == c.pvt.alg;
    SameKey(cr, c.pvt, w.pvt);
  }

  lemma SameKey(cr: Request, p: Pvt, q: Pvt)
    requires p.alg == q.alg
    ensures KeyOf(cr, p) == KeyOf(cr, q)
  {
  }

  // The records ranked before a shape (or the others), all third keys 0.
  function Flat(cr: Request, s: seq<Cand>, x: Shape, before: bool): seq<Cand> {
    if s == [] then []
    else
      var first := if Before(ShapeOf(cr, s[0]), x) == before then [WithKey(cr, s[0], ByDiff, 0)] else [];
      first + Flat(cr, s[1..], x, before)
  }

  predicate IsFlat(cr: Request, c: Cand, x: Shape, before: bool) {
    Before(ShapeOf(cr, c), x) == before && forall key :: ThirdKey(cr, key, c) == 0
  }

  lemma {:induction false} FlatIs(cr: Request, s: seq<Cand>, x: Shape, before: bool)
    ensures forall c :: c in Flat(cr, s, x, before) ==> IsFlat(cr, c, x, before)
  {
    hide KeyOf, WithKey;
    if s != [] {
      FlatIs(cr, s[1..], x, before);
      WithKeyIs(cr, s[0], ByDiff, 0);
    }
  }

  lemma {:induction false} FlatShapes(cr: Request, s: seq<Cand>, x: Shape)
    ensures multiset(Shapes(cr, Flat(cr, s, x, true))) + multiset(Shapes(cr, Flat(cr, s, x, false)))
         == multiset(Shapes(cr, s))
  {
    hide ShapeOf, WithKey, Before;
    if s != [] {
      FlatShapes(cr, s[1..], x);
      FlatStep(cr, s, x, true);
      FlatStep(cr, s, x, false);
      hide Flat;
      ShapesJoin(cr, [s[0]], s[1..]);
      assert s == [s[0]] + s[1..] && Shapes(cr, [s[0]]) == [ShapeOf(cr, s[0])];
      hide Shapes;
    }
  }

  lemma FlatStep(cr: Request, s: seq<Cand>, x: Shape, before: bool)
    requires s != []
    ensures multiset(Shapes(cr, Flat(cr, s, x, before))) ==
      (if Before(ShapeOf(cr, s[0]), x) == before then multiset{ShapeOf(cr, s[0])} else multiset{})
      + multiset(Shapes(cr, Flat(cr, s[1..], x, before)))
  {
    hide ShapeOf, WithKey, Before;
    FlatOpens(cr, s, x, before);
    hide Flat;
    var w := [WithKey(cr, s[0], ByDiff, 0)];
    WithKeyIs(cr, s[0], ByDiff, 0);
    ShapesJoin(cr, w, Flat(cr, s[1..], x, before));
    assert Shapes(cr, w) == [ShapeOf(cr, s[0])];
  }

  lemma FlatOpens(cr: Request, s: seq<Cand>, x: Shape, before: bool)
    requires s != []
    ensures Flat(cr, s, x, before) ==
      if Before(ShapeOf(cr, s[0]), x) == before then [WithKey(cr, s[0], ByDiff, 0)] + Flat(cr, s[1..], x, before)
      else Flat(cr, s[1..], x, before)
  {
  }

  // A pass that finds nothing worse changes nothing.
  lemma {:induction false} PassStays(worse: Test, s: seq<Cand>, i: nat, j: nat)
    requires i < j <= |s| && forall k :: j <= k < |s| ==> !worse(s[i], s[k])
    ensures Pass(worse, s, i, j) == s
    decreases |s| - j
  {
    if j < |s| {
      PassStays(worse, s, i, j + 1);
    }
  }

  lemma {:induction false} SortedSkips(cr: Request, t: seq<Cand>, i: nat, g: nat)
    requires i <= g < |t|
    requires forall p :: i <= p < g ==> Best(ByKey(cr, KeyOf(cr, t[p].pvt)), t, p, |t|)
    ensures Sorted(cr, t, i) == Sorted(cr, t, g)
    decreases g - i
  {
    hide KeyOf;
    if i < g {
      PassStays(ByKey(cr, KeyOf(cr, t[i].pvt)), t, i, i + 1);
      SortedSkips(cr, t, i + 1, g);
    }
  }

  // The arrangement: what is ranked before, the record of the other class, the two.
  function Bad(cr: Request, front: seq<Cand>, a: Cand, b: Cand, c: Cand, back: seq<Cand>): seq<Cand> {
    front + [WithKey(cr, c, ByDiff, 0), WithKey(cr, a, KeyOf(cr, c.pvt), 1), WithKey(cr, b, KeyOf(cr, b.pvt), 1)] + back
  }

  ghost predicate BadParts(cr: Request, front: seq<Cand>, a: Cand, b: Cand, c: Cand, back: seq<Cand>) {
    && ShapeOf(cr, a) == ShapeOf(cr, b) && ShapeOf(cr, c).key != ShapeOf(cr, a).key
        && !Before(ShapeOf(cr, c), ShapeOf(cr, a))
    && (forall k :: 0 <= k < |front| ==> IsFlat(cr, front[k], ShapeOf(cr, a), true))
    && (forall k :: 0 <= k < |back| ==> IsFlat(cr, back[k], ShapeOf(cr, a), false))
    && (forall p, q :: 0 <= p < q < |front| ==> !Before(ShapeOf(cr, front[q]), ShapeOf(cr, front[p])))
  }

  // By shapes and keys alone.
  lemma WorseByShape(cr: Request, key: Key, x: Cand, y: Cand)
    ensures Before(ShapeOf(cr, x), ShapeOf(cr, y)) ==> !Worse(cr, key, x, y)
    ensures Before(ShapeOf(cr, y), ShapeOf(cr, x)) ==> Worse(cr, key, x, y)
    ensures !Before(ShapeOf(cr, x), ShapeOf(cr, y)) && !Before(ShapeOf(cr, y), ShapeOf(cr, x)) ==>
      (Worse(cr, key, x, y) <==> ThirdKey(cr, key, x) < ThirdKey(cr, key, y))
  {
  }

  lemma FrontStays(cr: Request, front: seq<Cand>, a: Cand, b: Cand, c: Cand, back: seq<Cand>)
    requires BadParts(cr, front, a, b, c, back)
    ensures var t := Bad(cr, front, a, b, c, back);
      Sorted(cr, t, 0) == Sorted(cr, t, |front|)
  {
    hide KeyOf, ShapeOf, WithKey, Worse, ThirdKey;
    var t, x := Bad(cr, front, a, b, c, back), ShapeOf(cr, a);
    WithKeyIs(cr, c, ByDiff, 0);
    WithKeyIs(cr, a, KeyOf(cr, c.pvt), 1);
    WithKeyIs(cr, b, KeyOf(cr, b.pvt), 1);
    forall p | 0 <= p < |front|
      ensures Best(ByKey(cr, KeyOf(cr, t[p].pvt)), t, p, |t|)
    {
      var key := KeyOf(cr, t[p].pvt);
      forall k | p < k < |t|
        ensures !Worse(cr, key, t[p], t[k])
      {
        assert IsFlat(cr, t[p], x, true);
        WorseByShape(cr, key, t[p], t[k]);
        if k < |front| {
          assert t[k] == front[k] && IsFlat(cr, t[k], x, true);
        } else if k >= |front| + 3 {
          assert t[k] == back[k - |front| - 3] && IsFlat(cr, t[k], x, false);
        }
      }
    }
    SortedSkips(cr, t, 0, |front|);
  }

  // The pass at the other class's record puts the first of the two there.
  lemma FirstTakes(cr: Request, front: seq<Cand>, a: Cand, b: Cand, c: Cand, back: seq<Cand>)
    requires BadParts(cr, front, a, b, c, back)
    ensures var t, g := Bad(cr, front, a, b, c, back), |front|;
      KeyOf(cr, t[g].pvt) == KeyOf(cr, c.pvt)
      && Pass(ByKey(cr, KeyOf(cr, c.pvt)), t, g, g + 1) == Exchanged(t, g, g + 1)
  {
    hide KeyOf, WithKey, Worse, ThirdKey;
    var t, g, x := Bad(cr, front, a, b, c, back), |front|, ShapeOf(cr, a);
    var key := KeyOf(cr, c.pvt);
    WithKeyIs(cr, c, ByDiff, 0);
    WithKeyIs(cr, a, key, 1);
    WithKeyIs(cr, b, KeyOf(cr, b.pvt), 1);
    hide ShapeOf;
    ZeroKeys(cr, c, key);
    WorseByShape(cr, key, t[g], t[g + 1]);
    var u := Exchanged(t, g, g + 1);
    forall k | g + 2 <= k < |u|
      ensures !Worse(cr, key, u[g], u[k])
    {
      WorseByShape(cr, key, u[g], u[k]);
      if k >= g + 3 {
        assert u[k] == back[k - g - 3] && IsFlat(cr, u[k], x, false);
      }
    }
    PassStays(ByKey(cr, key), u, g, g + 2);
  }

  lemma ZeroKeys(cr: Request, c: Cand, key: Key)
    ensures ThirdKey(cr, key, WithKey(cr, c, ByDiff, 0)) == 0
  {
    WithKeyIs(cr, c, ByDiff, 0);
  }

  // So the first of the two stands before the second, against their own key.
  lemma BadResult(cr: Request, front: seq<Cand>, a: Cand, b: Cand, c: Cand, back: seq<Cand>)
    requires BadParts(cr, front, a, b, c, back)
    ensures !ClassesInOrder(cr, Sorted(cr, Bad(cr, front, a, b, c, back), 0))
  {
    hide KeyOf, WithKey, Pass, ThirdKey, ShapeOf, BadParts, Bad;
    BadAt(cr, front, a, b, c, back);
    var t, g := Bad(cr, front, a, b, c, back), |front|;
    var u, r := Exchanged(t, g, g + 1), Sorted(cr, t, 0);
    FrontStays(cr, front, a, b, c, back);
    FirstTakes(cr, front, a, b, c, back);
    assert Sorted(cr, t, g) == Sorted(cr, u, g + 1);
    hide Sorted;
    SortedBest(cr, u, g + 1);
    var q := LaterAt(u, r, g);
    TwoKeys(cr, front, a, b, c, back);
    assert ShapeOf(cr, r[g]) == ShapeOf(cr, r[q]);
  }

  lemma BadAt(cr: Request, front: seq<Cand>, a: Cand, b: Cand, c: Cand, back: seq<Cand>)
    ensures var t, g := Bad(cr, front, a, b, c, back), |front|;
      |t| >= g + 3 && t[g + 1] == WithKey(cr, a, KeyOf(cr, c.pvt), 1) && t[g + 2] == WithKey(cr, b, KeyOf(cr, b.pvt), 1)
  {
    hide KeyOf, WithKey;
  }

  lemma LaterAt(u: seq<Cand>, r: seq<Cand>, g: nat) returns (q: nat)
    requires g + 2 < |u| && Rearranged(r, u, g + 1)
    ensures g < q < |r| && r[q] == u[g + 2] && r[g] == u[g]
  {
    assert r[g] == r[..g + 1][g] == u[..g + 1][g] == u[g];
    RearrangedTail(u, r, g + 1);
    q :| g + 1 <= q < |r| && r[q] == u[g + 2];
  }

  lemma TwoKeys(cr: Request, front: seq<Cand>, a: Cand, b: Cand, c: Cand, back: seq<Cand>)
    requires BadParts(cr, front, a, b, c, back)
    ensures var x, y := WithKey(cr, a, KeyOf(cr, c.pvt), 1), WithKey(cr, b, KeyOf(cr, b.pvt), 1);
      ShapeOf(cr, x) == ShapeOf(cr, y) && ThirdKey(cr, KeyOf(cr, x.pvt), x) < ThirdKey(cr, KeyOf(cr, x.pvt), y)
  {
    hide KeyOf, WithKey, ThirdKey;
    WithKeyIs(cr, a, KeyOf(cr, c.pvt), 1);
    WithKeyIs(cr, b, KeyOf(cr, b.pvt), 1);
  }

  lemma BadShapes(cr: Request, front: seq<Cand>, a: Cand, b: Cand, c: Cand, back: seq<Cand>)
    ensures multiset(Shapes(cr, Bad(cr, front, a, b, c, back))) ==
      multiset(Shapes(cr, front)) + multiset(Shapes(cr, back))
          + multiset{ShapeOf(cr, a), ShapeOf(cr, b), ShapeOf(cr, c)}
  {
    hide KeyOf, WithKey, ShapeOf;
    var mid := [WithKey(cr, c, ByDiff, 0), WithKey(cr, a, KeyOf(cr, c.pvt), 1), WithKey(cr, b, KeyOf(cr, b.pvt), 1)];
    WithKeyIs(cr, c, ByDiff, 0);
    WithKeyIs(cr, a, KeyOf(cr, c.pvt), 1);
    WithKeyIs(cr, b, KeyOf(cr, b.pvt), 1);
    ShapesJoin(cr, front + mid, back);
    ShapesJoin(cr, front, mid);
    assert Shapes(cr, mid) == [ShapeOf(cr, c), ShapeOf(cr, a), ShapeOf(cr, b)];
  }

  lemma TakeShape(cr: Request, s: seq<Cand>, x: Shape) returns (k: nat)
    requires multiset(Shapes(cr, s))[x] >= 1
    ensures k < |s| && ShapeOf(cr, s[k]) == x
    ensures multiset(Shapes(cr, Less(s, k))) == multiset(Shapes(cr, s)) - multiset{x}
  {
    hide ShapeOf;
    assert x in multiset(Shapes(cr, s));
    assert x in Shapes(cr, s);
    k :| k < |s| && Shapes(cr, s)[k] == x;
    LessShapes(cr, s, k);
  }

  // The records ranked before a shape, flat and sorted.
  lemma FrontSorted(cr: Request, s: seq<Cand>, x: Shape) returns (front: seq<Cand>)
    ensures multiset(Shapes(cr, front)) == multiset(Shapes(cr, Flat(cr, s, x, true)))
    ensures forall k :: 0 <= k < |front| ==> IsFlat(cr, front[k], x, true)
    ensures forall p, q :: 0 <= p < q < |front| ==> !Before(ShapeOf(cr, front[q]), ShapeOf(cr, front[p]))
  {
    hide KeyOf, Sorted, Flat, ThirdKey;
    var flat := Flat(cr, s, x, true);
    front := Sorted(cr, flat, 0);
    FlatIs(cr, s, x, true);
    SortOrders(cr, flat);
    ShapesOfSame(cr, front, flat);
    forall k | 0 <= k < |front|
      ensures IsFlat(cr, front[k], x, true)
    {
      assert front[k] in multiset(front);
      assert front[k] in flat;
    }
  }

  lemma TakeThree(cr: Request, s: seq<Cand>, x: Shape, z: Shape) returns (a: Cand, b: Cand, c: Cand, rest: seq<Cand>)
    requires multiset(Shapes(cr, s))[x] >= 2 && multiset(Shapes(cr, s))[z] >= 1 && x != z
    ensures ShapeOf(cr, a) == ShapeOf(cr, b) == x && ShapeOf(cr, c) == z
    ensures multiset(Shapes(cr, s)) == multiset(Shapes(cr, rest)) + multiset{x, x, z}
  {
    hide ShapeOf, Less, Shapes;
    var i := TakeShape(cr, s, x);
    var s1 := Less(s, i);
    var j := TakeShape(cr, s1, x);
    var s2 := Less(s1, j);
    var k := TakeShape(cr, s2, z);
    a, b, c, rest := s[i], s1[j], s2[k], Less(s2, k);
  }

  lemma OutOfOrderIfDisturbed(cr: Request, s: seq<Cand>) returns (t: seq<Cand>)
    requires Disturbed(multiset(Shapes(cr, s)))
    ensures multiset(Shapes(cr, t)) == multiset(Shapes(cr, s)) && !ClassesInOrder(cr, Sorted(cr, t, 0))
  {
    hide ShapeOf, Shapes, Sorted, Flat, Bad, Before, ClassesInOrder, IsFlat;
    var m := multiset(Shapes(cr, s));
    var x, z :| m[x] >= 2 && m[z] >= 1 && z.key != x.key && !Before(z, x);
    var a, b, c, rest := TakeThree(cr, s, x, z);
    var front := FrontSorted(cr, rest, x);
    var back := Flat(cr, rest, x, false);
    FlatIs(cr, rest, x, false);
    assert BadParts(cr, front, a, b, c, back);
    hide BadParts;
    FlatShapes(cr, rest, x);
    t := Bad(cr, front, a, b, c, back);
    BadShapes(cr, front, a, b, c, back);
    BadResult(cr, front, a, b, c, back);
  }

  // Whatever the third keys and the order before, records of one position, priority and
  // class come out in the order of their own key if and only if no two such records meet
  // one of another class that is not ranked strictly before them.
  lemma ClassesInOrderExactly(cr: Request, s: seq<Cand>)
    ensures (forall t {:trigger Sorted(cr, t, 0)} ::
               multiset(Shapes(cr, t)) == multiset(Shapes(cr, s)) ==> ClassesInOrder(cr, Sorted(cr, t, 0)))
       <==> !Disturbed(multiset(Shapes(cr, s)))
  {
    hide Shapes, Sorted, Disturbed, ClassesInOrder;
    if Disturbed(multiset(Shapes(cr, s))) {
      var t := OutOfOrderIfDisturbed(cr, s);
      assert !ClassesInOrder(cr, Sorted(cr, t, 0));
    } else {
      forall t {:trigger Sorted(cr, t, 0)} | multiset(Shapes(cr, t)) == multiset(Shapes(cr, s))
        ensures ClassesInOrder(cr, Sorted(cr, t, 0))
      {
        OrderIfUndisturbed(cr, t);
      }
    }
  }
}
