// When the order in which samples arrive does not matter to the mix (mixbuffer.c).
module Saturation {
  import opened MixBuffers

  function Sgn(x: int): int {
    if x > 0 then 1 else if x < 0 then -1 else 0
  }

  // The samples of one sign, in order.
  function Part(c: seq<Sample>, s: int): seq<Sample> {
    if c == [] then []
    else Part(c[..|c| - 1], s) + if Sgn(c[|c| - 1]) == s then [c[|c| - 1]] else []
  }

  function Ups(c: seq<Sample>): int {
    Sum(Part(c, 1))
  }

  function Downs(c: seq<Sample>): int {
    Sum(Part(c, -1))
  }

  predicate NoneDown(c: seq<Sample>) {
    forall i :: 0 <= i < |c| ==> c[i] >= 0
  }

  predicate NoneUp(c: seq<Sample>) {
    forall i :: 0 <= i < |c| ==> c[i] <= 0
  }

  // The samples are of one sign, or neither those up nor those down leave the range.
  predicate Calm(c: seq<Sample>) {
    || NoneDown(c)
    || NoneUp(c)
    || (Ups(c) <= SAMPLE_MAX && Downs(c) >= SAMPLE_MIN)
  }

  // ------------------------------------------------------------------
  // Parts.
  // ------------------------------------------------------------------

  lemma {:induction false} PartOf(c: seq<Sample>, s: int)
    ensures forall x: Sample :: multiset(Part(c, s))[x] == if Sgn(x) == s then multiset(c)[x] else 0
  {
    if c != [] {
      PartOf(c[..|c| - 1], s);
      assert c == c[..|c| - 1] + [c[|c| - 1]];
    }
  }

  lemma PartSigned(c: seq<Sample>, s: int, i: nat)
    requires i < |Part(c, s)|
    ensures Sgn(Part(c, s)[i]) == s
  {
    PartOf(c, s);
    assert Part(c, s)[i] in multiset(Part(c, s));
  }

  lemma PartOfPermutation(c: seq<Sample>, d: seq<Sample>, s: int)
    requires multiset(c) == multiset(d)
    ensures Sum(Part(c, s)) == Sum(Part(d, s))
  {
    PartOf(c, s);
    PartOf(d, s);
    var p, q := Part(c, s), Part(d, s);
    assert multiset(p) == multiset(q);
    SumSame(p, q);
  }

  lemma SumSame(c: seq<Sample>, d: seq<Sample>)
    requires multiset(c) == multiset(d)
    ensures Sum(c) == Sum(d)
  {
    var c', d': seq<int> := c, d;
    SumOfPermutation(c', d');
  }

  // Positives, negatives and zeros are all there is.
  lemma PartsMakeUp(c: seq<Sample>)
    ensures multiset(Part(c, 1) + Part(c, -1) + Part(c, 0)) == multiset(c)
    ensures multiset(Part(c, -1) + Part(c, 1) + Part(c, 0)) == multiset(c)
  {
    PartOf(c, 1);
    PartOf(c, -1);
    PartOf(c, 0);
    hide Part;
    var m := multiset(Part(c, 1)) + multiset(Part(c, -1)) + multiset(Part(c, 0));
    forall x: Sample
      ensures m[x] == multiset(c)[x]
    {
      assert Sgn(x) == 1 || Sgn(x) == -1 || Sgn(x) == 0;
    }
    assert m == multiset(c);
  }

  // ------------------------------------------------------------------
  // Folds.
  // ------------------------------------------------------------------

  predicate OneSigned(c: seq<Sample>) {
    NoneDown(c) || NoneUp(c)
  }

  lemma {:induction false} SumSign(c: seq<Sample>)
    ensures NoneDown(c) ==> Sum(c) >= 0
    ensures NoneUp(c) ==> Sum(c) <= 0
  {
    if c != [] {
      SumSign(c[..|c| - 1]);
    }
  }

  // Samples of one sign are added as if their sum came at once.
  lemma {:induction false} OneSignAtOnce(a: seq<Sample>, b: seq<Sample>)
    requires a != [] && OneSigned(b)
    ensures SaturatedSum(a + b) == Clamp(SaturatedSum(a) + Sum(b))
    decreases |b|
  {
    if b == [] {
      assert a + b == a;
    } else {
      var n := |b| - 1;
      OneSignAtOnce(a, b[..n]);
      SumSign(b[..n]);
      assert (a + b)[..|a + b| - 1] == a + b[..n] && (a + b)[|a + b| - 1] == b[n];
    }
  }

  lemma OneSignClamps(c: seq<Sample>)
    requires c != [] && OneSigned(c)
    ensures SaturatedSum(c) == Clamp(Sum(c))
  {
    var a, b := c[..1], c[1..];
    assert c == a + b && a == [c[0]];
    OneSignAtOnce(a, b);
    SumJoins(a, b);
    assert a[..0] == [];
    assert Sum(a) == c[0];
    SumSign(b);
  }

  lemma {:induction false} SumJoins(a: seq<Sample>, b: seq<Sample>)
    ensures Sum(a + b) == Sum(a) + Sum(b)
    decreases |b|
  {
    if b == [] {
      assert a + b == a;
    } else {
      SumJoins(a, b[..|b| - 1]);
      assert (a + b)[..|a + b| - 1] == a + b[..|b| - 1];
    }
  }

  // Every partial sum lies between the samples down and the samples up.
  lemma {:induction false} BetweenParts(c: seq<Sample>, k: nat)
    requires k <= |c|
    ensures Downs(c) <= Sum(c[..k]) <= Ups(c) && Downs(c) <= 0 <= Ups(c)
    decreases |c|
  {
    hide Part, Sum;
    if c == [] {
      NothingAddsUp(c[..k]);
      NothingAddsUp(Part(c, 1));
      NothingAddsUp(Part(c, -1));
      NoPart(c);
    } else {
      var n := |c| - 1;
      PartAppends(c, 1);
      PartAppends(c, -1);
      BetweenParts(c[..n], n);
      assert c[..n][..n] == c[..n];
      if k <= n {
        BetweenParts(c[..n], k);
        assert c[..n][..k] == c[..k];
      } else {
        assert c[..k] == c;
        SumAppends(c);
      }
    }
  }

  lemma NoPart(c: seq<Sample>)
    requires c == []
    ensures Part(c, 1) == [] && Part(c, -1) == []
  {
  }

  lemma NothingAddsUp(c: seq<Sample>)
    ensures c == [] ==> Sum(c) == 0
  {
  }

  lemma SumAppends(c: seq<Sample>)
    requires c != []
    ensures Sum(c) == Sum(c[..|c| - 1]) + c[|c| - 1]
  {
  }

  lemma PartAppends(c: seq<Sample>, s: int)
    requires c != []
    ensures Sum(Part(c, s)) == Sum(Part(c[..|c| - 1], s)) + if Sgn(c[|c| - 1]) == s then c[|c| - 1] else 0
  {
    var last := if Sgn(c[|c| - 1]) == s then [c[|c| - 1]] else [];
    SumJoins(Part(c[..|c| - 1], s), last);
    if last != [] {
      assert last[..0] == [];
      assert Sum(last) == Sum(last[..0]) + last[0];
    }
  }

  // ------------------------------------------------------------------
  // The condition.
  // ------------------------------------------------------------------

  lemma CalmPermutes(c: seq<Sample>, d: seq<Sample>)
    requires c != [] && multiset(c) == multiset(d) && Calm(c)
    ensures d != [] && SaturatedSum(d) == SaturatedSum(c)
  {
    assert c[0] in multiset(d);
    assert forall i :: 0 <= i < |d| ==> d[i] in multiset(c);
    SumSame(c, d);
    if OneSigned(c) {
      OneSignClamps(c);
      assert forall x :: x in multiset(c) ==> x in c;
      OneSignClamps(d);
    } else {
      PartOfPermutation(c, d, 1);
      PartOfPermutation(c, d, -1);
      InRange(c);
      InRange(d);
    }
  }

  lemma InRange(c: seq<Sample>)
    requires c != [] && Ups(c) <= SAMPLE_MAX && Downs(c) >= SAMPLE_MIN
    ensures SaturatedSum(c) == Sum(c)
  {
    forall k | 0 <= k <= |c|
      ensures SAMPLE_MIN <= Sum(c[..k]) <= SAMPLE_MAX
    {
      BetweenParts(c, k);
    }
    SaturatedSumIsSum(c);
  }

  lemma Clamps(u: int, d: int)
    requires u > 0 && d < 0 && (u > SAMPLE_MAX || d < SAMPLE_MIN)
    ensures Clamp(Clamp(u) + d) != Clamp(Clamp(d) + u)
  {
  }

  // All samples up first, and all samples down first.
  lemma UpsFirstDownsFirst(c: seq<Sample>) returns (a: seq<Sample>, b: seq<Sample>)
    requires !Calm(c)
    ensures multiset(a) == multiset(b) == multiset(c) && a != [] && b != [] && SaturatedSum(a) != SaturatedSum(b)
  {
    var u, d, z := Part(c, 1), Part(c, -1), Part(c, 0);
    BothSigns(c);
    ZeroPart(c);
    hide Calm, Part, SaturatedSum, Sum, NoneUp, NoneDown, Clamp;
    Folded(u, d, z);
    Folded(d, u, z);
    Clamps(Sum(u), Sum(d));
    a, b := u + d + z, d + u + z;
    PartsMakeUp(c);
  }

  lemma Folded(a: seq<Sample>, b: seq<Sample>, z: seq<Sample>)
    requires a != [] && OneSigned(a) && OneSigned(b) && NoneUp(z) && NoneDown(z)
    ensures SaturatedSum(a + b + z) == Clamp(Clamp(Sum(a)) + Sum(b))
  {
    hide SaturatedSum, Sum, NoneUp, NoneDown;
    OneSignClamps(a);
    OneSignAtOnce(a, b);
    OneSignAtOnce(a + b, z);
    SumSign(z);
  }

  lemma ZeroPart(c: seq<Sample>)
    ensures NoneUp(Part(c, 0)) && NoneDown(Part(c, 0))
  {
    forall i | 0 <= i < |Part(c, 0)|
      ensures Part(c, 0)[i] == 0
    {
      PartSigned(c, 0, i);
    }
  }

  lemma BothSigns(c: seq<Sample>)
    requires !Calm(c)
    ensures var u, d := Part(c, 1), Part(c, -1);
      u != [] && d != [] && Sum(u) > 0 && Sum(d) < 0 && OneSigned(u) && OneSigned(d)
      && (Sum(u) > SAMPLE_MAX || Sum(d) < SAMPLE_MIN)
  {
    hide Part, Sum;
    var p :| 0 <= p < |c| && c[p] < 0;
    var q :| 0 <= q < |c| && c[q] > 0;
    SignThere(c, q);
    SignThere(c, p);
    SumSigned(c, 1);
    SumSigned(c, -1);
  }

  lemma SignThere(c: seq<Sample>, i: nat)
    requires i < |c|
    ensures Part(c, Sgn(c[i])) != []
  {
    PartOf(c, Sgn(c[i]));
    assert c[i] in multiset(c);
    assert c[i] in multiset(Part(c, Sgn(c[i])));
  }

  lemma SumSigned(c: seq<Sample>, s: int)
    requires -1 <= s <= 1 && s != 0 && Part(c, s) != []
    ensures Sgn(Sum(Part(c, s))) == s && OneSigned(Part(c, s))
  {
    var p := Part(c, s);
    hide Part;
    forall i | 0 <= i < |p|
      ensures Sgn(p[i]) == s
    {
      PartSigned(c, s, i);
    }
    var q := p[..|p| - 1];
    assert forall i :: 0 <= i < |q| ==> q[i] == p[i];
    SumSign(q);
    assert s > 0 ==> NoneDown(q) && NoneDown(p);
    assert s < 0 ==> NoneUp(q) && NoneUp(p);
  }

  // Every order of arrival gives the same mix if and only if the samples are of one sign,
  // or neither those up nor those down leave the range by themselves.
  lemma OrderIrrelevantExactly(c: seq<Sample>)
    requires c != []
    ensures (forall d: seq<Sample> {:trigger SaturatedSum(d)} ::
               d != [] && multiset(d) == multiset(c) ==> SaturatedSum(d) == SaturatedSum(c))
       <==> Calm(c)
  {
    hide Calm, SaturatedSum;
    if Calm(c) {
      forall d: seq<Sample> {:trigger SaturatedSum(d)} | d != [] && multiset(d) == multiset(c)
        ensures SaturatedSum(d) == SaturatedSum(c)
      {
        CalmPermutes(c, d);
      }
    } else {
      var a, b := UpsFirstDownsFirst(c);
      assert SaturatedSum(a) != SaturatedSum(c) || SaturatedSum(b) != SaturatedSum(c);
    }
  }

  // ------------------------------------------------------------------
  // One addition.
  // ------------------------------------------------------------------

  // What comes out is the sample of 16 bits nearest to the sum.
  lemma NearestSample(s: Sample, t: Sample, u: int)
    requires -32768 <= u <= 32767
    ensures -32768 <= SaturatedAdd(s, t) <= 32767
    ensures -32768 <= s + t <= 32767 ==> SaturatedAdd(s, t) == s + t
    ensures if s + t >= u then s + t - u >= s + t - SaturatedAdd(s, t) else u - (s + t) >= SaturatedAdd(s, t) - (s + t)
  {
  }
}
