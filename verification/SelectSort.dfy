// The shuffle and the exchange sort of the selection (select.c), on sequences.
module SelectSort {
  import opened SelectRules

  // Which third key a pass sorts by: that of the device at position i as it begins.
  datatype Key = ByDiff | ByCalls | ByLimit

  function KeyOf(cr: Request, p: Pvt): Key {
    var alg := p.alg[cr.limitnum];
    if alg in "ABvPp" then ByLimit else if alg in "<ab" then ByCalls else ByDiff
  }

  function ThirdKey(cr: Request, key: Key, c: Cand): int {
    match key
    case ByDiff => c.diff
    case ByCalls => c.pvt.outCalls
    case ByLimit => c.pvt.limit[cr.limitnum]
  }

  // The test of the sort: x is exchanged for y.
  predicate Worse(cr: Request, key: Key, x: Cand, y: Cand) {
    || x.imbPos > y.imbPos
    || (x.imbPos == y.imbPos && x.pvt.priority < y.pvt.priority)
    || (x.imbPos == y.imbPos && x.pvt.priority == y.pvt.priority && ThirdKey(cr, key, x) < ThirdKey(cr, key, y))
  }

  function Exchanged(s: seq<Cand>, i: nat, j: nat): (r: seq<Cand>)
    requires i < |s| && j < |s|
    ensures |r| == |s|
  {
    s[i := s[j]][j := s[i]]
  }

  type Test = (Cand, Cand) -> bool

  // One pass: position i against each from j on.
  function Pass(worse: Test, s: seq<Cand>, i: nat, j: nat): (r: seq<Cand>)
    requires i < j <= |s|
    ensures |r| == |s|
    decreases |s| - j
  {
    if j == |s| then s
    else Pass(worse, if worse(s[i], s[j]) then Exchanged(s, i, j) else s, i, j + 1)
  }

  function ByKey(cr: Request, key: Key): Test {
    (x, y) => Worse(cr, key, x, y)
  }

  // The passes from position i on.
  function Sorted(cr: Request, s: seq<Cand>, i: nat): (r: seq<Cand>)
    requires i <= |s|
    ensures |r| == |s|
    decreases |s| - i
  {
    if i + 1 >= |s| then s
    else Sorted(cr, Pass(ByKey(cr, KeyOf(cr, s[i].pvt)), s, i, i + 1), i + 1)
  }

  // The same for calls back (qos 5): the oldest time first, 0 standing for none.
  predicate SouWorse(x: Cand, y: Cand) {
    x.souDiffStart > y.souDiffStart || x.souDiffStart == 0
  }

  function SouSorted(s: seq<Cand>, i: nat): (r: seq<Cand>)
    requires i <= |s|
    ensures |r| == |s|
    decreases |s| - i
  {
    if i + 1 >= |s| then s else SouSorted(Pass(SouWorse, s, i, i + 1), i + 1)
  }

  lemma ExchangedSame(s: seq<Cand>, i: nat, j: nat)
    requires i < |s| && j < |s|
    ensures multiset(Exchanged(s, i, j)) == multiset(s)
  {
  }

  // A pass permutes from i on.
  lemma {:induction false} PassSame(worse: Test, s: seq<Cand>, i: nat, j: nat)
    requires i < j <= |s|
    ensures multiset(Pass(worse, s, i, j)) == multiset(s) && Pass(worse, s, i, j)[..i] == s[..i]
    decreases |s| - j
  {
    if j < |s| {
      var t := if worse(s[i], s[j]) then Exchanged(s, i, j) else s;
      ExchangedSame(s, i, j);
      assert t[..i] == s[..i];
      PassSame(worse, t, i, j + 1);
    }
  }

  // The test is that of an order on the records there are.
  ghost predicate Ranks(worse: Test, m: multiset<Cand>) {
    && (forall x, y, z :: x in m && y in m && z in m && worse(x, y) && !worse(x, z) ==> !worse(y, z))
    && (forall x, y :: x in m && y in m && worse(x, y) ==> !worse(y, x))
  }

  ghost predicate Best(worse: Test, s: seq<Cand>, i: nat, j: nat)
    requires i < j <= |s|
  {
    forall k :: i < k < j ==> !worse(s[i], s[k])
  }

  // A pass by an order leaves at i a record that is worse than none after it.
  lemma {:induction false} PassBest(worse: Test, s: seq<Cand>, i: nat, j: nat)
    requires i < j <= |s| && Ranks(worse, multiset(s)) && Best(worse, s, i, j)
    ensures Best(worse, Pass(worse, s, i, j), i, |s|)
    decreases |s| - j
  {
    hide Ranks, Best;
    if j < |s| {
      BestNext(worse, s, i, j);
      if worse(s[i], s[j]) {
        ExchangedSame(s, i, j);
        PassBest(worse, Exchanged(s, i, j), i, j + 1);
      } else {
        PassBest(worse, s, i, j + 1);
      }
    }
  }

  lemma BestNext(worse: Test, s: seq<Cand>, i: nat, j: nat)
    requires i < j < |s| && Ranks(worse, multiset(s)) && Best(worse, s, i, j)
    ensures Best(worse, if worse(s[i], s[j]) then Exchanged(s, i, j) else s, i, j + 1)
  {
    assert forall k :: 0 <= k < |s| ==> s[k] in multiset(s);
  }

  lemma WorseRanks(cr: Request, key: Key, m: multiset<Cand>)
    ensures Ranks(ByKey(cr, key), m)
  {
  }

  // Position i holds a record that is worse than none after it, by the third key of
  // one that stands at i or after.
  ghost predicate BestAt(cr: Request, s: seq<Cand>, i: nat)
    requires i < |s|
  {
    exists k :: i <= k < |s| && Best(ByKey(cr, KeyOf(cr, s[k].pvt)), s, i, |s|)
  }

  ghost predicate Rearranged(r: seq<Cand>, s: seq<Cand>, i: nat)
    requires i <= |s|
  {
    |r| == |s| && multiset(r) == multiset(s) && r[..i] == s[..i]
  }

  lemma SameTails(p: seq<Cand>, a: seq<Cand>, b: seq<Cand>)
    requires multiset(p + a) == multiset(p + b)
    ensures multiset(a) == multiset(b)
  {
    assert multiset(p + a) == multiset(p) + multiset(a) && multiset(p + b) == multiset(p) + multiset(b);
    assert forall c :: (multiset(p) + multiset(a))[c] == multiset(p)[c] + multiset(a)[c];
    assert forall c :: multiset(a)[c] == multiset(b)[c];
  }

  lemma RearrangedTail(r: seq<Cand>, s: seq<Cand>, i: nat)
    requires i <= |s| && Rearranged(r, s, i)
    ensures multiset(r[i..]) == multiset(s[i..])
    ensures forall k :: i <= k < |r| ==> exists l :: i <= l < |s| && s[l] == r[k]
  {
    assert r == r[..i] + r[i..] && s == s[..i] + s[i..];
    SameTails(s[..i], r[i..], s[i..]);
    forall k | i <= k < |r|
      ensures exists l :: i <= l < |s| && s[l] == r[k]
    {
      assert r[k] == r[i..][k - i];
      assert r[k] in multiset(r[i..]);
      assert r[k] in multiset(s[i..]);
      var l :| 0 <= l < |s[i..]| && s[i..][l] == r[k];
      assert s[l + i] == r[k];
    }
  }

  // Best is kept when the records after i are rearranged.
  lemma BestRearranged(worse: Test, r: seq<Cand>, s: seq<Cand>, i: nat)
    requires i < |s| && Rearranged(r, s, i + 1) && Best(worse, s, i, |s|)
    ensures Best(worse, r, i, |r|)
  {
    RearrangedTail(r, s, i + 1);
    assert r[i] == r[..i + 1][i] == s[i];
  }

  lemma RearrangedTwice(r: seq<Cand>, t: seq<Cand>, s: seq<Cand>, i: nat)
    requires i < |s| && Rearranged(t, s, i) && Rearranged(r, t, i + 1)
    ensures Rearranged(r, s, i)
  {
    assert r[..i] == r[..i + 1][..i] == t[..i + 1][..i];
  }

  // The sort permutes, and every position is best among what follows it by some key.
  lemma {:induction false} SortedBest(cr: Request, s: seq<Cand>, i: nat)
    requires i <= |s|
    ensures Rearranged(Sorted(cr, s, i), s, i)
    ensures forall p :: i <= p < |s| ==> BestAt(cr, Sorted(cr, s, i), p)
    decreases |s| - i
  {
    hide Worse, KeyOf;
    if i + 1 < |s| {
      var worse := ByKey(cr, KeyOf(cr, s[i].pvt));
      var t := Pass(worse, s, i, i + 1);
      var r := Sorted(cr, s, i);
      PassSame(worse, s, i, i + 1);
      WorseRanks(cr, KeyOf(cr, s[i].pvt), multiset(s));
      PassBest(worse, s, i, i + 1);
      SortedBest(cr, t, i + 1);
      BestRearranged(worse, r, t, i);
      RearrangedTwice(r, t, s, i);
      RearrangedTail(s, r, i);
      var k :| i <= k < |r| && r[k] == s[i];
      assert BestAt(cr, r, i);
    } else if i < |s| {
      assert Best(ByKey(cr, KeyOf(cr, s[i].pvt)), s, i, |s|);
    }
  }

  // pvt_select_sort: a permutation in order of position, then of falling priority,
  // whichever third keys the passes used.
  lemma SortOrders(cr: Request, s: seq<Cand>)
    ensures var r := Sorted(cr, s, 0);
      && |r| == |s| && multiset(r) == multiset(s)
      && forall p, q :: 0 <= p < q < |r| ==>
           r[p].imbPos < r[q].imbPos || (r[p].imbPos == r[q].imbPos && r[p].pvt.priority >= r[q].pvt.priority)
  {
    SortedBest(cr, s, 0);
    var r := Sorted(cr, s, 0);
    forall p, q | 0 <= p < q < |r|
      ensures r[p].imbPos < r[q].imbPos || (r[p].imbPos == r[q].imbPos && r[p].pvt.priority >= r[q].pvt.priority)
    {
      assert BestAt(cr, r, p);
    }
  }

  // With one algorithm class, the whole test is the order of the result.
  lemma SortOrdersOneClass(cr: Request, s: seq<Cand>, key: Key)
    requires forall i :: 0 <= i < |s| ==> KeyOf(cr, s[i].pvt) == key
    ensures var r := Sorted(cr, s, 0);
      forall p, q :: 0 <= p < q < |r| ==> !Worse(cr, key, r[p], r[q])
  {
    SortedBest(cr, s, 0);
    var r := Sorted(cr, s, 0);
    RearrangedTail(r, s, 0);
    forall p, q | 0 <= p < q < |r|
      ensures !Worse(cr, key, r[p], r[q])
    {
      assert BestAt(cr, r, p);
    }
  }

  function Mixed(no: nat, p: Pvt, alg: char, diff: int, limit: int): Cand {
    Cand(no, p.(alg := seq(10, _ => alg), limit := seq(10, _ => limit)), 0, 'N', diff, 0)
  }

  // With two classes two records of one class may come out against their third key, and
  // the result depends on the order before.
  lemma MixedClasses(cr: Request, p: Pvt)
    ensures var x, y, z := Mixed(0, p, ' ', 5, 9), Mixed(1, p, 'A', 0, 0), Mixed(2, p, ' ', 9, 1);
      && Sorted(cr, [y, x, z], 0) == [x, z, y] && Worse(cr, ByDiff, x, z)
      && Sorted(cr, [x, y, z], 0) == [z, x, y]
  {
    var x, y, z := Mixed(0, p, ' ', 5, 9), Mixed(1, p, 'A', 0, 0), Mixed(2, p, ' ', 9, 1);
    var diff, limit := ByKey(cr, ByDiff), ByKey(cr, ByLimit);
    TwoPasses(cr, y, x, z);
    ThreeSteps(limit, y, x, z);
    ThreeSteps(limit, x, y, z);
    TwoPasses(cr, x, y, z);
    ThreeSteps(diff, x, y, z);
    ThreeSteps(limit, z, y, x);
    assert KeyOf(cr, x.pvt) == ByDiff && KeyOf(cr, y.pvt) == ByLimit;
  }

  lemma TwoPasses(cr: Request, x: Cand, y: Cand, z: Cand)
    ensures var t := Pass(ByKey(cr, KeyOf(cr, x.pvt)), [x, y, z], 0, 1);
      Sorted(cr, [x, y, z], 0) == Pass(ByKey(cr, KeyOf(cr, t[1].pvt)), t, 1, 2)
  {
    hide KeyOf, ByKey, Pass;
    var t := Pass(ByKey(cr, KeyOf(cr, x.pvt)), [x, y, z], 0, 1);
    var u := Pass(ByKey(cr, KeyOf(cr, t[1].pvt)), t, 1, 2);
    assert Sorted(cr, [x, y, z], 0) == Sorted(cr, t, 1);
    assert Sorted(cr, t, 1) == Sorted(cr, u, 2) == u;
  }

  lemma ThreeSteps(worse: Test, x: Cand, y: Cand, z: Cand)
    ensures var u := if worse(x, y) then [y, x, z] else [x, y, z];
      Pass(worse, [x, y, z], 0, 1) == if worse(u[0], z) then [z, u[1], u[0]] else u
    ensures Pass(worse, [x, y, z], 1, 2) == if worse(y, z) then [x, z, y] else [x, y, z]
  {
    var s := [x, y, z];
    assert Exchanged(s, 0, 1) == [y, x, z] && Exchanged(s, 1, 2) == [x, z, y];
    var u := if worse(x, y) then [y, x, z] else s;
    assert Exchanged(u, 0, 2) == [z, u[1], u[0]];
    var v := if worse(u[0], z) then [z, u[1], u[0]] else u;
    assert Pass(worse, s, 0, 1) == Pass(worse, u, 0, 2) == Pass(worse, v, 0, 3) == v;
    var w := if worse(y, z) then [x, z, y] else s;
    assert Pass(worse, s, 1, 2) == Pass(worse, w, 1, 3) == w;
  }

  lemma SouRanks(m: multiset<Cand>)
    requires forall c :: c in m ==> c.souDiffStart != 0
    ensures Ranks(SouWorse, m)
  {
  }

  lemma {:induction false} SouSortedBest(s: seq<Cand>, i: nat)
    requires i <= |s|
    ensures Rearranged(SouSorted(s, i), s, i)
    ensures (forall c :: c in multiset(s) ==> c.souDiffStart != 0) ==>
      forall p :: i <= p < |s| ==> Best(SouWorse, SouSorted(s, i), p, |s|)
    decreases |s| - i
  {
    hide Ranks, Best, SouWorse;
    if i + 1 < |s| {
      var t := Pass(SouWorse, s, i, i + 1);
      var r := SouSorted(s, i);
      PassSame(SouWorse, s, i, i + 1);
      SouSortedBest(t, i + 1);
      RearrangedTwice(r, t, s, i);
      if forall c :: c in multiset(s) ==> c.souDiffStart != 0 {
        SouRanks(multiset(s));
        NoneBetter(SouWorse, s, i);
        PassBest(SouWorse, s, i, i + 1);
        BestRearranged(SouWorse, r, t, i);
      }
    } else if i < |s| {
      NoneBetter(SouWorse, s, i);
    }
  }

  lemma NoneBetter(worse: Test, s: seq<Cand>, i: nat)
    requires i < |s|
    ensures Best(worse, s, i, i + 1)
  {
  }

  // For calls back: a permutation, in order of time if every device has one.
  lemma SouSortOrders(s: seq<Cand>)
    ensures var r := SouSorted(s, 0);
      && |r| == |s| && multiset(r) == multiset(s)
      && ((forall k :: 0 <= k < |s| ==> s[k].souDiffStart != 0) ==>
            forall p, q :: 0 <= p < q < |r| ==> r[p].souDiffStart <= r[q].souDiffStart)
  {
    SouSortedBest(s, 0);
    var r := SouSorted(s, 0);
    if forall k :: 0 <= k < |s| ==> s[k].souDiffStart != 0 {
      forall p, q | 0 <= p < q < |r|
        ensures r[p].souDiffStart <= r[q].souDiffStart
      {
        assert Best(SouWorse, r, p, |s|);
      }
    }
  }

  // With a device that has no time the result need not be in order.
  lemma SouZeroBreaksOrder(c: Cand)
    ensures var a, b, z := c.(souDiffStart := 1), c.(souDiffStart := 2), c.(souDiffStart := 0);
      SouSorted([a, z, b], 0) == [b, z, a]
  {
    var a, b, z := c.(souDiffStart := 1), c.(souDiffStart := 2), c.(souDiffStart := 0);
    ThreeSteps(SouWorse, a, z, b);
    ThreeSteps(SouWorse, b, a, z);
    assert SouSorted([a, z, b], 0) == SouSorted([b, a, z], 1) == SouSorted([b, z, a], 2);
  }

  // ------------------------------------------------------------------
  // When the sort for calls back is an order.
  // ------------------------------------------------------------------

  predicate Ascending(r: seq<Cand>) {
    forall p, q :: 0 <= p < q < |r| ==> r[p].souDiffStart <= r[q].souDiffStart
  }

  // A pass that ends on a record with a time leaves one with a time at i.
  lemma {:induction false} PassEndsTimed(s: seq<Cand>, i: nat, j: nat)
    requires i < j < |s| && s[|s| - 1].souDiffStart != 0
    ensures Pass(SouWorse, s, i, j)[i].souDiffStart != 0
    decreases |s| - j
  {
    var t := if SouWorse(s[i], s[j]) then Exchanged(s, i, j) else s;
    if j + 1 < |s| {
      PassEndsTimed(t, i, j + 1);
    }
  }

  // The record taken out and put last.
  function PutLast(s: seq<Cand>, k: nat): seq<Cand>
    requires k < |s|
  {
    s[..k] + s[k + 1..] + [s[k]]
  }

  lemma PutLastSame(s: seq<Cand>, k: nat)
    requires k < |s|
    ensures multiset(PutLast(s, k)) == multiset(s)
  {
    assert s == s[..k] + [s[k]] + s[k + 1..];
  }

  // With a time and the lack of one, an arrangement that ends on the time comes out
  // with a time in front of the lack.
  lemma SouFails(s: seq<Cand>, z: nat, k: nat)
    requires z < |s| && k < |s| && s[z].souDiffStart == 0 && s[k].souDiffStart > 0
    requires forall c :: c in multiset(s) ==> c.souDiffStart >= 0
    ensures multiset(PutLast(s, k)) == multiset(s) && !Ascending(SouSorted(PutLast(s, k), 0))
  {
    hide Pass, SouWorse;
    var t := PutLast(s, k);
    PutLastSame(s, k);
    var u, r := Pass(SouWorse, t, 0, 1), SouSorted(t, 0);
    PassSame(SouWorse, t, 0, 1);
    PassEndsTimed(t, 0, 1);
    SouSortedBest(u, 1);
    assert r[0] == r[..1][0] == u[..1][0];
    assert forall c :: c in r ==> c in multiset(r);
    assert s[z] in multiset(r) && r[0] in multiset(s);
    var q :| 0 <= q < |r| && r[q] == s[z];
    assert q != 0 && r[0].souDiffStart > r[q].souDiffStart;
  }

  lemma SouAllZero(t: seq<Cand>)
    requires forall c :: c in multiset(t) ==> c.souDiffStart == 0
    ensures Ascending(SouSorted(t, 0))
  {
    SouSortedBest(t, 0);
    var r := SouSorted(t, 0);
    assert forall p :: 0 <= p < |r| ==> r[p] in multiset(r);
  }

  lemma SouAllTimed(t: seq<Cand>)
    requires forall c :: c in multiset(t) ==> c.souDiffStart != 0
    ensures Ascending(SouSorted(t, 0))
  {
    assert forall k :: 0 <= k < |t| ==> t[k] in multiset(t);
    SouSortOrders(t);
  }

  // Whatever the order before, the times come out in order if and only if every device
  // has a time or none has.
  lemma SouSortExactly(s: seq<Cand>)
    requires forall k :: 0 <= k < |s| ==> s[k].souDiffStart >= 0
    ensures (forall t {:trigger SouSorted(t, 0)} :: multiset(t) == multiset(s) ==> Ascending(SouSorted(t, 0)))
       <==> ((forall k :: 0 <= k < |s| ==> s[k].souDiffStart != 0)
             || (forall k :: 0 <= k < |s| ==> s[k].souDiffStart == 0))
  {
    hide SouSorted;
    assert forall c :: c in multiset(s) ==> c in s;
    if (forall k :: 0 <= k < |s| ==> s[k].souDiffStart != 0) || (forall k :: 0 <= k < |s| ==> s[k].souDiffStart == 0) {
      forall t {:trigger SouSorted(t, 0)} | multiset(t) == multiset(s)
        ensures Ascending(SouSorted(t, 0))
      {
        if forall k :: 0 <= k < |s| ==> s[k].souDiffStart != 0 {
          SouAllTimed(t);
        } else {
          SouAllZero(t);
        }
      }
    } else {
      var z: nat :| z < |s| && s[z].souDiffStart == 0;
      var k: nat :| k < |s| && s[k].souDiffStart != 0;
      SouFails(s, z, k);
      assert !Ascending(SouSorted(PutLast(s, k), 0));
    }
  }
}
