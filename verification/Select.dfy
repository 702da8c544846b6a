// Selection of a device from a group (select.c): the list of records in one array,
// filtered, shuffled and sorted in place, tried in order and freed.
module Select {
  import opened Wrappers
  import opened SelectRules
  import opened SelectSort

  // ------------------------------------------------------------------
  // Records and their release.
  // ------------------------------------------------------------------

  function Nos(s: seq<Cand>): (r: seq<nat>)
    ensures |r| == |s| && forall k :: 0 <= k < |s| ==> r[k] == s[k].no
  {
    seq(|s|, k requires 0 <= k < |s| => s[k].no)
  }

  function Upto(n: nat): (r: seq<nat>)
    ensures |r| == n && forall k :: 0 <= k < n ==> r[k] == k
  {
    seq(n, k => k)
  }

  // The records on the list and the records freed, each as often as it is there.
  function Balance(s: seq<Cand>, freed: seq<nat>): multiset<nat> {
    multiset(Nos(s)) + multiset(freed)
  }

  ghost predicate KeepsNo(note: Cand -> Cand) {
    forall c :: note(c).no == c.no
  }

  lemma {:induction false} SweptAccounts(s: seq<Cand>, i: nat, note: Cand -> Cand, keep: Cand -> bool)
    requires i <= |s| && KeepsNo(note)
    ensures var r := Swept(s, i, note, keep); multiset(Nos(r.0)) + multiset(r.1) == multiset(Nos(s))
    decreases |s| - i
  {
    if i < |s| {
      var c := note(s[i]);
      if keep(c) {
        SweptAccounts(s[i := c], i + 1, note, keep);
        assert Nos(s[i := c]) == Nos(s);
      } else {
        var n := |s| - 1;
        SweptAccounts(s[i := s[n]][..n], i, note, keep);
        NosLess(s, i);
      }
    }
  }

  lemma NosLess(s: seq<Cand>, i: nat)
    requires i < |s|
    ensures multiset(Nos(s[i := s[|s| - 1]][..|s| - 1])) + multiset([s[i].no]) == multiset(Nos(s))
  {
    var n := |s| - 1;
    var t := Nos(s[i := s[n]][..n]);
    if i == n {
      assert Nos(s) == t + [s[i].no];
    } else {
      var p, q := Nos(s)[..i], Nos(s)[i + 1..n];
      assert Nos(s) == p + [s[i].no] + q + [s[n].no];
      assert t == p + [s[n].no] + q;
    }
  }

  // ------------------------------------------------------------------
  // The whole selection as one rule.
  // ------------------------------------------------------------------

  // The records of the eligible devices, numbered from no on.
  function Created(cr: Request, devices: seq<Pvt>, canDial: seq<bool>, junk: Cand, no: nat): seq<Cand>
    requires |canDial| == |devices|
  {
    if devices == [] then []
    else if Eligible(cr, devices[0], canDial[0]) then
      [junk.(no := no, pvt := devices[0])] + Created(cr, devices[1..], canDial[1..], junk, no + 1)
    else Created(cr, devices[1..], canDial[1..], junk, no)
  }

  // A record as the filters leave it.
  function Noted(cr: Request, sinceEnd: Pvt -> int, c: Cand): Cand {
    DiffNote(cr, ImNote(cr, c), sinceEnd)
  }

  // All filters at once, on a record as they leave it.
  predicate Passes(cr: Request, time: nat, c: Cand) {
    ImKeep(cr, c) && QosKeep(cr, c) && CapProKeep(cr, c) && WorkKeep(cr, c, time) && DiffKeep(c)
  }

  function Survivors(cr: Request, time: nat, sinceEnd: Pvt -> int, s: seq<Cand>): seq<Cand> {
    Kept(s, c => Noted(cr, sinceEnd, c), c => Passes(cr, time, c))
  }

  lemma {:induction false} KeptKept(s: seq<Cand>, n1: Cand -> Cand, k1: Cand -> bool,
                                    n2: Cand -> Cand, k2: Cand -> bool,
                                    n3: Cand -> Cand, k3: Cand -> bool)
    requires forall c :: n3(c) == n2(n1(c)) && (k3(n3(c)) <==> k1(n1(c)) && k2(n3(c)))
    ensures Kept(Kept(s, n1, k1), n2, k2) == Kept(s, n3, k3)
  {
    if s != [] {
      KeptKept(s[1..], n1, k1, n2, k2, n3, k3);
      KeptJoins(KeptOne(s[0], n1, k1), Kept(s[1..], n1, k1), n2, k2);
      KeptSingle(s[0], n1, k1, n2, k2, n3, k3);
    }
  }

  lemma KeptSingle(c: Cand, n1: Cand -> Cand, k1: Cand -> bool, n2: Cand -> Cand, k2: Cand -> bool,
                   n3: Cand -> Cand, k3: Cand -> bool)
    requires n3(c) == n2(n1(c)) && (k3(n3(c)) <==> k1(n1(c)) && k2(n3(c)))
    ensures Kept(KeptOne(c, n1, k1), n2, k2) == KeptOne(c, n3, k3)
  {
    if k1(n1(c)) {
      assert KeptOne(c, n1, k1)[1..] == [];
    }
  }

  // Who passes does not depend on the order of the list.
  lemma {:induction false} KeptOfSame(s: seq<Cand>, t: seq<Cand>, note: Cand -> Cand, keep: Cand -> bool)
    requires multiset(s) == multiset(t)
    ensures multiset(Kept(s, note, keep)) == multiset(Kept(t, note, keep))
    decreases |s|
  {
    hide Kept;
    if s == [] {
      assert |multiset(t)| == 0;
      assert t == [];
    } else {
      var rest := s[1..];
      assert s == [s[0]] + rest;
      assert s[0] in multiset(t);
      var k :| 0 <= k < |t| && t[k] == s[0];
      var u := t[..k] + t[k + 1..];
      assert t == t[..k] + [t[k]] + t[k + 1..];
      assert multiset(t) == multiset([s[0]] + u);
      SameTails([s[0]], rest, u);
      KeptOfSame(rest, u, note, keep);
      KeptJoins([s[0]], rest, note, keep);
      KeptJoins(t[..k] + [t[k]], t[k + 1..], note, keep);
      KeptJoins(t[..k], [t[k]], note, keep);
      KeptJoins(t[..k], t[k + 1..], note, keep);
    }
  }

  // The filters applied one after the other to any list.
  function Filtered(cr: Request, time: nat, sinceEnd: Pvt -> int, s: seq<Cand>): seq<Cand> {
    var s1 := Kept(s, c => ImNote(cr, c), c => ImKeep(cr, c));
    var s2 := Kept(s1, c => c, c => QosKeep(cr, c));
    var s3 := Kept(s2, c => c, c => CapProKeep(cr, c));
    var s4 := Kept(s3, c => c, c => WorkKeep(cr, c, time));
    Kept(s4, c => DiffNote(cr, c, sinceEnd), c => DiffKeep(c))
  }

  // All filters in a row are one: they keep a record exactly if it passes the single
  // rule, and leave it noted.
  lemma FilteredIsOne(cr: Request, time: nat, sinceEnd: Pvt -> int, s: seq<Cand>)
    ensures Filtered(cr, time, sinceEnd, s) == Survivors(cr, time, sinceEnd, s)
  {
    var same, im := (c: Cand) => c, (c: Cand) => ImNote(cr, c);
    var k1, k2, k3, k4 := (c: Cand) => ImKeep(cr, c), (c: Cand) => QosKeep(cr, c), (c: Cand) => CapProKeep(cr, c),
      (c: Cand) => WorkKeep(cr, c, time);
    var k12, k123, k1234 := (c: Cand) => ImKeep(cr, c) && QosKeep(cr, c),
      (c: Cand) => ImKeep(cr, c) && QosKeep(cr, c) && CapProKeep(cr, c),
      (c: Cand) => ImKeep(cr, c) && QosKeep(cr, c) && CapProKeep(cr, c) && WorkKeep(cr, c, time);
    DiffKeepsRest(cr, time, sinceEnd);
    hide ImNote, DiffNote, ImKeep, QosKeep, CapProKeep, WorkKeep, DiffKeep;
    KeptKept(s, im, k1, same, k2, im, k12);
    KeptKept(s, im, k12, same, k3, im, k123);
    KeptKept(s, im, k123, same, k4, im, k1234);
    KeptKept(s, im, k1234, c => DiffNote(cr, c, sinceEnd), c => DiffKeep(c),
             c => Noted(cr, sinceEnd, c), c => Passes(cr, time, c));
  }

  // The last note changes nothing the earlier filters look at.
  lemma DiffKeepsRest(cr: Request, time: nat, sinceEnd: Pvt -> int)
    ensures forall c :: var d := DiffNote(cr, c, sinceEnd);
              && ImKeep(cr, d) == ImKeep(cr, c) && QosKeep(cr, d) == QosKeep(cr, c)
              && CapProKeep(cr, d) == CapProKeep(cr, c) && WorkKeep(cr, d, time) == WorkKeep(cr, c, time)
  {
  }

  // ------------------------------------------------------------------
  // Trying the devices.
  // ------------------------------------------------------------------

  // What trying a device finds: can_dial, the lock, and can_dial again under the lock.
  datatype Try = Try(canDial: bool, locked: bool, canStill: bool)

  predicate Succeeds(t: Try) {
    t.canDial && t.locked && t.canStill
  }

  // The device of the first record whose try succeeds; none if all fail.
  ghost predicate FirstHad(found: Option<Pvt>, order: seq<Cand>, tries: seq<Try>) {
    && |order| <= |tries|
    && match found
       case None => forall k :: 0 <= k < |order| ==> !Succeeds(tries[k])
       case Some(p) =>
         exists k :: 0 <= k < |order| && Succeeds(tries[k]) && p == order[k].pvt
           && forall j :: 0 <= j < k ==> !Succeeds(tries[j])
  }

  // ------------------------------------------------------------------
  // The shuffle.
  // ------------------------------------------------------------------

  function Shuffled(s: seq<Cand>, i: nat, rand: seq<nat>): (r: seq<Cand>)
    requires i <= |s| <= |rand|
    ensures |r| == |s|
    decreases |s| - i
  {
    if i + 1 >= |s| then s else Shuffled(Exchanged(s, i, i + rand[i] % (|s| - i)), i + 1, rand)
  }

  lemma {:induction false} ShuffledSame(s: seq<Cand>, i: nat, rand: seq<nat>)
    requires i <= |s| <= |rand|
    ensures Rearranged(Shuffled(s, i, rand), s, i)
    decreases |s| - i
  {
    if i + 1 < |s| {
      var j := i + rand[i] % (|s| - i);
      var t := Exchanged(s, i, j);
      ExchangedSame(s, i, j);
      ShuffledSame(t, i + 1, rand);
      assert t[..i] == s[..i];
      RearrangedTwice(Shuffled(s, i, rand), t, s, i);
    }
  }

  // Every order can come out of the shuffle.
  lemma {:induction false} ShuffleReaches(s: seq<Cand>, r: seq<Cand>, i: nat) returns (rand: seq<nat>)
    requires i <= |s| && Rearranged(r, s, i)
    ensures |rand| == |s| && Shuffled(s, i, rand) == r
    decreases |s| - i
  {
    RearrangedTail(r, s, i);
    if i + 1 >= |s| {
      rand := seq(|s|, _ => 0);
      OnlyOneOrder(s, r, i);
    } else {
      hide Rearranged, Shuffled, Exchanged;
      var k :| i <= k < |s| && s[k] == r[i];
      var t := Exchanged(s, i, k);
      ExchangedMatches(s, r, i, k);
      rand := ShuffleReaches(t, r, i + 1);
      ShuffledIgnores(t, i + 1, rand, rand[i := k - i]);
      rand := rand[i := k - i];
      SmallRemainder(k - i, |s| - i);
      ShuffledNext(s, i, rand, k);
    }
  }

  lemma ShuffledNext(s: seq<Cand>, i: nat, rand: seq<nat>, k: nat)
    requires i + 1 < |s| <= |rand| && i <= k < |s| && rand[i] % (|s| - i) == k - i
    ensures Shuffled(s, i, rand) == Shuffled(Exchanged(s, i, k), i + 1, rand)
  {
  }

  lemma OnlyOneOrder(s: seq<Cand>, r: seq<Cand>, i: nat)
    requires i <= |s| <= i + 1 && Rearranged(r, s, i)
    ensures r == s
  {
    RearrangedTail(r, s, i);
    assert r == r[..i] + r[i..] && s == s[..i] + s[i..];
    if i < |s| {
      assert s[i] == r[i];
    }
  }

  lemma ExchangedMatches(s: seq<Cand>, r: seq<Cand>, i: nat, k: nat)
    requires i <= k < |s| && Rearranged(r, s, i) && s[k] == r[i]
    ensures Rearranged(r, Exchanged(s, i, k), i + 1)
  {
    var t := Exchanged(s, i, k);
    ExchangedSame(s, i, k);
    assert t[..i + 1] == s[..i] + [r[i]] == r[..i + 1];
  }

  lemma SmallRemainder(x: nat, n: nat)
    requires x < n
    ensures x % n == x
  {
  }

  lemma {:induction false} ShuffledIgnores(s: seq<Cand>, i: nat, rand: seq<nat>, other: seq<nat>)
    requires i <= |s| <= |rand| == |other| && forall k :: i <= k < |rand| ==> rand[k] == other[k]
    ensures Shuffled(s, i, rand) == Shuffled(s, i, other)
    decreases |s| - i
  {
    if i + 1 < |s| {
      ShuffledIgnores(Exchanged(s, i, i + rand[i] % (|s| - i)), i + 1, rand, other);
    }
  }

  // ------------------------------------------------------------------
  // Times of the last call back.
  // ------------------------------------------------------------------

  // The last entry for the number decides; 0 if there is none.
  function SouTime(soupri: seq<SouPri>, imsi: string): int {
    if soupri == [] then 0
    else if soupri[|soupri| - 1].imsi == imsi then soupri[|soupri| - 1].diffStart
    else SouTime(soupri[..|soupri| - 1], imsi)
  }

  function SouNote(cr: Request, c: Cand): Cand {
    c.(souDiffStart := SouTime(c.pvt.soupri, cr.souImsiTo))
  }

  function SouNoted(cr: Request, s: seq<Cand>): (r: seq<Cand>)
    ensures |r| == |s| && forall k :: 0 <= k < |s| ==> r[k] == SouNote(cr, s[k])
  {
    seq(|s|, k requires 0 <= k < |s| => SouNote(cr, s[k]))
  }

  // What pvt_select_sort makes of the list.
  function Ordered(cr: Request, s: seq<Cand>): seq<Cand> {
    if cr.qos == 5 then SouSorted(SouNoted(cr, s), 0) else Sorted(cr, s, 0)
  }

  class Selection {
    const a: array<Cand>
    var count: nat
    ghost var made: nat
    ghost var freed: seq<nat>

    constructor (size: nat, junk: Cand)
      ensures Bounded() && count == 0 && made == 0 && freed == [] && fresh(a) && a.Length == size
    {
      a := new Cand[size](_ => junk);
      count, made, freed := 0, 0, [];
    }

    ghost predicate Bounded()
      reads this
    {
      count <= a.Length
    }

    ghost function List(): seq<Cand>
      requires Bounded()
      reads this, a
    {
      a[..count]
    }

    ghost function Held(): multiset<nat>
      requires Bounded()
      reads this, a
    {
      Balance(List(), freed)
    }

    // pvt_select_remove; *num becomes one less.
    method Remove(num: nat) returns (num': int)
      requires Bounded() && num < count
      modifies this, a
      ensures Bounded() && num' == num - 1 && made == old(made)
      ensures List() == old(List())[num := old(List())[old(count) - 1]][..old(count) - 1]
      ensures freed == old(freed) + [old(a[num]).no]
    {
      freed := freed + [a[num].no];
      a[num] := a[count - 1];
      count := count - 1;
      num' := num - 1;
    }

    // The end of a filter's body: a record that does not pass is removed.
    method Settle(i: nat, passes: bool) returns (next: nat)
      requires Bounded() && i < count
      modifies this, a
      ensures Bounded() && made == old(made)
      ensures if passes then next == i + 1 && List() == old(List()) && freed == old(freed)
              else
                && next == i && freed == old(freed) + [old(a[i]).no]
                && List() == old(List())[i := old(List())[old(count) - 1]][..old(count) - 1]
    {
      var num: int := i;
      if !passes {
        num := Remove(i);
      }
      next := num + 1;
    }

    // The loop of the filters: each record is noted and then kept or removed.
    method Sweep(note: Cand -> Cand, keep: Cand -> bool)
      requires Bounded() && KeepsNo(note)
      modifies this, a
      ensures Bounded() && made == old(made) && Held() == old(Held())
      ensures List() == Swept(old(List()), 0, note, keep).0
    {
      hide Balance, KeepsNo, Swept;
      ghost var s := List();
      ghost var r := Swept(s, 0, note, keep);
      ghost var gone: seq<nat> := [];
      var i := 0;
      assert gone + r.1 == r.1;
      while i < count
        invariant 0 <= i <= count && Bounded() && made == old(made) && freed == old(freed) + gone
        invariant r == (Swept(List(), i, note, keep).0, gone + Swept(List(), i, note, keep).1)
        decreases count - i
      {
        ghost var t := List();
        SweptStep(t, i, note, keep, gone);
        a[i] := note(a[i]);
        assert List() == t[i := note(t[i])];
        var passes := keep(a[i]);
        if !passes {
          NoteKeeps(note, t[i]);
          gone := gone + [a[i].no];
        }
        i := Settle(i, passes);
        assert !passes ==> List() == t[i := t[|t| - 1]][..|t| - 1];
      }
      SweptEnd(List(), note, keep, gone);
      SweptBalance(s, old(freed), note, keep);
    }

    // pvt_select_create; left: how many allocations succeed before one fails.
    method Create(cr: Request, devices: seq<Pvt>, canDial: seq<bool>, junk: Cand, left: nat)
      requires Bounded() && count == 0 && made == 0 && freed == []
      requires |canDial| == |devices| <= a.Length
      modifies this, a
      ensures Bounded() && freed == []
      ensures var s := Created(cr, devices, canDial, junk, 0);
        if |s| <= left then List() == s && made == |s| else List() == [] && made == left
    {
      var new_count, j := 0, 0;
      ghost var s := Created(cr, devices, canDial, junk, 0);
      while j < |devices|
        invariant new_count <= j <= |devices| && count == 0 && freed == [] && made == new_count <= left
        invariant s == a[..new_count] + Created(cr, devices[j..], canDial[j..], junk, new_count)
      {
        CreatedNext(cr, devices, canDial, junk, new_count, j);
        if Eligible(cr, devices[j], canDial[j]) {
          if new_count == left {
            return;
          }
          a[new_count] := junk.(no := new_count, pvt := devices[j]);
          made := made + 1;
          new_count := new_count + 1;
        }
        j := j + 1;
      }
      count := new_count;
    }

    method Im(cr: Request)
      requires Bounded()
      modifies this, a
      ensures Bounded() && made == old(made) && Held() == old(Held())
      ensures List() == Swept(old(List()), 0, c => ImNote(cr, c), c => ImKeep(cr, c)).0
    {
      hide Balance, Swept, ImNote, ImKeep;
      ghost var note, keep := (c: Cand) => ImNote(cr, c), (c: Cand) => ImKeep(cr, c);
      ImNoteKeepsNo(cr);
      hide KeepsNo;
      ghost var s := List();
      ghost var r := Swept(s, 0, note, keep);
      ghost var gone: seq<nat> := [];
      var i := 0;
      assert gone + r.1 == r.1;
      while i < count
        invariant 0 <= i <= count && Bounded() && made == old(made) && freed == old(freed) + gone
        invariant r == (Swept(List(), i, note, keep).0, gone + Swept(List(), i, note, keep).1)
        decreases count - i
      {
        ghost var t := List();
        SweptStep(t, i, note, keep, gone);
        var c := ImRecord(cr, a[i]);
        a[i] := c;
        assert List() == t[i := note(t[i])];
        var passes := ImKeep(cr, a[i]);
        if !passes {
          NoteKeeps(note, t[i]);
          gone := gone + [a[i].no];
        }
        i := Settle(i, passes);
        assert !passes ==> List() == t[i := t[|t| - 1]][..|t| - 1];
      }
      SweptEnd(List(), note, keep, gone);
      SweptBalance(s, old(freed), note, keep);
    }

    method Qos(cr: Request)
      requires Bounded()
      modifies this, a
      ensures Bounded() && made == old(made) && Held() == old(Held())
      ensures List() == Swept(old(List()), 0, c => c, c => QosKeep(cr, c)).0
    {
      Sweep(c => c, c => QosKeep(cr, c));
    }

    // pvt_select_cappro leaves the list of a call back alone.
    method CapPro(cr: Request)
      requires Bounded()
      modifies this, a
      ensures Bounded() && made == old(made) && Held() == old(Held())
      ensures List() == Swept(old(List()), 0, c => c, c => CapProKeep(cr, c)).0
    {
      if cr.qos == 5 {
        SweptAll(List(), 0, c => CapProKeep(cr, c));
        return;
      }
      Sweep(c => c, c => CapProKeep(cr, c));
    }

    method Work(cr: Request, time: nat)
      requires Bounded()
      modifies this, a
      ensures Bounded() && made == old(made) && Held() == old(Held())
      ensures List() == Swept(old(List()), 0, c => c, c => WorkKeep(cr, c, time)).0
    {
      Sweep(c => c, c => WorkKeep(cr, c, time));
    }

    method Diff(cr: Request, sinceEnd: Pvt -> int)
      requires Bounded()
      modifies this, a
      ensures Bounded() && made == old(made) && Held() == old(Held())
      ensures List() == Swept(old(List()), 0, c => DiffNote(cr, c, sinceEnd), c => DiffKeep(c)).0
    {
      Sweep(c => DiffNote(cr, c, sinceEnd), c => DiffKeep(c));
    }

    method Swap(i: nat, j: nat)
      requires Bounded() && i < count && j < count
      modifies a
      ensures Bounded() && Held() == old(Held()) && List() == Exchanged(old(List()), i, j)
    {
      ExchangedBalance(List(), freed, i, j);
      hide Balance;
      a[i], a[j] := a[j], a[i];
      assert List() == Exchanged(old(List()), i, j);
    }

    // pvt_select_shuffle
    method Shuffle(rand: seq<nat>)
      requires Bounded() && count <= |rand|
      modifies a
      ensures Bounded() && Held() == old(Held()) && List() == Shuffled(old(List()), 0, rand)
    {
      hide Balance, Exchanged;
      var i := 0;
      if count > 0 {
        while i < count - 1
          invariant 0 <= i <= count - 1 && Bounded() && Held() == old(Held())
          invariant Shuffled(List(), i, rand) == Shuffled(old(List()), 0, rand)
        {
          var rnum := i + rand[i] % (count - i);
          Swap(i, rnum);
          i := i + 1;
        }
      }
    }

    // One pass of the sort.
    method OnePass(worse: Test, i: nat)
      requires Bounded() && i < count
      modifies a
      ensures Bounded() && Held() == old(Held()) && List() == Pass(worse, old(List()), i, i + 1)
    {
      hide Balance, Exchanged;
      var j := i + 1;
      while j < count
        invariant i < j <= count && Bounded() && Held() == old(Held())
        invariant Pass(worse, List(), i, j) == Pass(worse, old(List()), i, i + 1)
      {
        if worse(a[i], a[j]) {
          Swap(i, j);
        }
        j := j + 1;
      }
    }

    // pvt_select_sort
    method Sort(cr: Request)
      requires Bounded()
      modifies a
      ensures Bounded() && Held() == old(Held()) && List() == Ordered(cr, old(List()))
    {
      hide Balance, Pass;
      var i := 0;
      if cr.qos == 5 {
        SouNotes(cr);
        ghost var s := List();
        while i < count - 1
          invariant 0 <= i && (count > 0 ==> i < count) && (count == 0 ==> i == 0) && Bounded() && Held() == old(Held())
          invariant SouSorted(List(), i) == SouSorted(s, 0)
        {
          OnePass(SouWorse, i);
          i := i + 1;
        }
      } else {
        ghost var s := List();
        while i < count - 1
          invariant 0 <= i && (count > 0 ==> i < count) && (count == 0 ==> i == 0) && Bounded() && Held() == old(Held())
          invariant Sorted(cr, List(), i) == Sorted(cr, s, 0)
        {
          OnePass(ByKey(cr, KeyOf(cr, a[i].pvt)), i);
          i := i + 1;
        }
      }
    }

    method SouNotes(cr: Request)
      requires Bounded()
      modifies a
      ensures Bounded() && Held() == old(Held()) && List() == SouNoted(cr, old(List()))
    {
      SouNotedBalance(cr, List(), freed);
      hide Balance;
      var i := 0;
      while i < count
        invariant i <= count && Bounded()
        invariant forall k :: 0 <= k < i ==> a[k] == SouNote(cr, old(a[k]))
        invariant forall k :: i <= k < count ==> a[k] == old(a[k])
      {
        var t := LastTime(a[i].pvt.soupri, cr.souImsiTo);
        a[i] := a[i].(souDiffStart := t);
        i := i + 1;
      }
      assert List() == SouNoted(cr, old(List()));
    }

    // pvt_select_found: the first record that can be had is claimed; all are freed.
    method Found(tries: seq<Try>) returns (found: Option<Pvt>)
      requires Bounded() && count <= |tries|
      modifies this
      ensures Bounded() && count == 0 && made == old(made) && multiset(freed) == old(Held())
      ensures FirstHad(found, old(List()), tries)
    {
      found := None;
      var i := 0;
      while i < count
        invariant i <= count && forall k :: 0 <= k < i ==> !Succeeds(tries[k])
        invariant found == None
      {
        if tries[i].canDial {
          if tries[i].locked {
            if tries[i].canStill {
              found := Some(a[i].pvt);
              break;
            }
          }
        }
        i := i + 1;
      }
      freed := freed + Nos(List());
      count := 0;
    }
  }

  // The body of pvt_select_im up to its flags: the search for the device's number.
  method ImRecord(cr: Request, c: Cand) returns (r: Cand)
    ensures r == ImNote(cr, c)
  {
    var imbPos, imbType := |cr.imb|, 'N';
    if cr.qos != 5 {
      var p := 0;
      while p < |cr.imb|
        invariant p <= |cr.imb| && imbPos == |cr.imb| && imbType == 'N'
        invariant forall k :: 0 <= k < p ==> cr.imb[k] != c.pvt.imsi
      {
        if cr.imb[p] == c.pvt.imsi {
          imbPos := p;
          imbType := if p == 0 then 'B' else 'C';
          break;
        }
        p := p + 1;
      }
      if imbType == 'N' {
        if !cr.imbAny {
          imbType := 'E';
        } else {
          if |cr.imb| == 0 {
            imbType := 'N';
          }
          if |cr.imb| > 0 {
            imbType := 'D';
          }
        }
      }
    }
    r := c.(imbPos := imbPos, imbType := imbType);
  }

  lemma ImNoteKeepsNo(cr: Request)
    ensures KeepsNo(c => ImNote(cr, c))
  {
  }

  method LastTime(soupri: seq<SouPri>, imsi: string) returns (t: int)
    ensures t == SouTime(soupri, imsi)
  {
    t := 0;
    var j := 0;
    while j < |soupri|
      invariant j <= |soupri| && t == SouTime(soupri[..j], imsi)
    {
      assert soupri[..j + 1][..j] == soupri[..j];
      if soupri[j].imsi == imsi {
        t := soupri[j].diffStart;
      }
      j := j + 1;
    }
    assert soupri[..j] == soupri;
  }

  lemma ExchangedBalance(s: seq<Cand>, freed: seq<nat>, i: nat, j: nat)
    requires i < |s| && j < |s|
    ensures Balance(Exchanged(s, i, j), freed) == Balance(s, freed)
  {
    assert Nos(Exchanged(s, i, j)) == Nos(s)[i := Nos(s)[j]][j := Nos(s)[i]];
  }

  lemma SouNotedBalance(cr: Request, s: seq<Cand>, freed: seq<nat>)
    ensures Balance(SouNoted(cr, s), freed) == Balance(s, freed)
  {
    assert Nos(SouNoted(cr, s)) == Nos(s);
  }

  lemma CreatedNext(cr: Request, devices: seq<Pvt>, canDial: seq<bool>, junk: Cand, no: nat, j: nat)
    requires j < |devices| == |canDial|
    ensures Created(cr, devices[j..], canDial[j..], junk, no) ==
      if Eligible(cr, devices[j], canDial[j]) then
        [junk.(no := no, pvt := devices[j])] + Created(cr, devices[j + 1..], canDial[j + 1..], junk, no + 1)
      else Created(cr, devices[j + 1..], canDial[j + 1..], junk, no)
  {
    assert devices[j..][1..] == devices[j + 1..] && canDial[j..][1..] == canDial[j + 1..];
  }

  lemma {:induction false} SweptAll(s: seq<Cand>, i: nat, keep: Cand -> bool)
    requires i <= |s| && forall c :: keep(c)
    ensures Swept(s, i, c => c, keep) == (s, [])
    decreases |s| - i
  {
    if i < |s| {
      SweptAll(s, i + 1, keep);
      assert s[i := s[i]] == s;
    }
  }

  lemma SweptStep(t: seq<Cand>, i: nat, note: Cand -> Cand, keep: Cand -> bool, gone: seq<nat>)
    requires i < |t|
    ensures var c := note(t[i]);
      if keep(c) then Swept(t, i, note, keep) == Swept(t[i := c], i + 1, note, keep)
      else
        var r := Swept(t[i := t[|t| - 1]][..|t| - 1], i, note, keep);
        && Swept(t, i, note, keep).0 == r.0
        && gone + Swept(t, i, note, keep).1 == gone + [t[i].no] + r.1
  {
  }

  lemma SweptEnd(t: seq<Cand>, note: Cand -> Cand, keep: Cand -> bool, gone: seq<nat>)
    ensures Swept(t, |t|, note, keep).0 == t && gone + Swept(t, |t|, note, keep).1 == gone
  {
  }

  lemma NoteKeeps(note: Cand -> Cand, c: Cand)
    requires KeepsNo(note)
    ensures note(c).no == c.no
  {
  }

  lemma SweptBalance(s: seq<Cand>, freed: seq<nat>, note: Cand -> Cand, keep: Cand -> bool)
    requires KeepsNo(note)
    ensures Balance(Swept(s, 0, note, keep).0, freed + Swept(s, 0, note, keep).1) == Balance(s, freed)
  {
    SweptAccounts(s, 0, note, keep);
  }

  // ------------------------------------------------------------------
  // From the group to the device.
  // ------------------------------------------------------------------

  // The records tried, in the order they are tried.
  ghost predicate InOrder(cr: Request, order: seq<Cand>) {
    if cr.qos == 5 then (forall p :: 0 <= p < |order| ==> order[p].souDiffStart != 0) ==> Ascending(order)
    else
      && (forall p :: 0 <= p < |order| ==> BestAt(cr, order, p))
      && forall p, q :: 0 <= p < q < |order| ==>
           || order[p].imbPos < order[q].imbPos
           || (order[p].imbPos == order[q].imbPos && order[p].pvt.priority >= order[q].pvt.priority)
  }

  function LastNote(cr: Request, s: seq<Cand>): seq<Cand> {
    if cr.qos == 5 then SouNoted(cr, s) else s
  }

  // All the records of the group that pass every filter, in the order of the sort.
  ghost predicate Ranking(cr: Request, time: nat, sinceEnd: Pvt -> int, eligible: seq<Cand>, order: seq<Cand>) {
    && multiset(order) == multiset(LastNote(cr, Survivors(cr, time, sinceEnd, eligible)))
    && InOrder(cr, order)
  }

  // The records are numbered as they are allocated.
  lemma {:induction false} CreatedNumbered(cr: Request, devices: seq<Pvt>, canDial: seq<bool>, junk: Cand, no: nat)
    requires |canDial| == |devices|
    ensures var s := Created(cr, devices, canDial, junk, no);
      |s| <= |devices| && forall k :: 0 <= k < |s| ==> s[k].no == no + k
    decreases |devices|
  {
    if devices != [] {
      CreatedNumbered(cr, devices[1..], canDial[1..], junk, no + 1);
      CreatedNumbered(cr, devices[1..], canDial[1..], junk, no);
    }
  }

  lemma AllHeld(s: seq<Cand>, freed: seq<nat>)
    requires freed == [] && forall k :: 0 <= k < |s| ==> s[k].no == k
    ensures Balance(s, freed) == multiset(Upto(|s|))
    ensures s == [] ==> Balance(s, freed) == multiset{}
  {
    assert Nos(s) == Upto(|s|);
  }

  lemma SweptOfSame(s: seq<Cand>, t: seq<Cand>, note: Cand -> Cand, keep: Cand -> bool)
    requires multiset(s) == multiset(t)
    ensures multiset(Swept(s, 0, note, keep).0) == multiset(Kept(t, note, keep))
  {
    SweptKeeps(s, 0, note, keep);
    assert s[0..] == s && s[..0] == [];
    KeptOfSame(s, t, note, keep);
  }

  lemma SweptChain(cr: Request, time: nat, sinceEnd: Pvt -> int, s0: seq<Cand>, s1: seq<Cand>,
                   s2: seq<Cand>, s3: seq<Cand>, s4: seq<Cand>, s5: seq<Cand>)
    requires s1 == Swept(s0, 0, c => ImNote(cr, c), c => ImKeep(cr, c)).0
    requires s2 == Swept(s1, 0, c => c, c => QosKeep(cr, c)).0
    requires s3 == Swept(s2, 0, c => c, c => CapProKeep(cr, c)).0
    requires s4 == Swept(s3, 0, c => c, c => WorkKeep(cr, c, time)).0
    requires s5 == Swept(s4, 0, c => DiffNote(cr, c, sinceEnd), c => DiffKeep(c)).0
    ensures multiset(s5) == multiset(Survivors(cr, time, sinceEnd, s0))
  {
    hide Swept, ImNote, ImKeep, QosKeep, CapProKeep, WorkKeep, DiffNote, DiffKeep, Survivors, Kept;
    FilteredIsOne(cr, time, sinceEnd, s0);
    var t1 := Kept(s0, c => ImNote(cr, c), c => ImKeep(cr, c));
    var t2 := Kept(t1, c => c, c => QosKeep(cr, c));
    var t3 := Kept(t2, c => c, c => CapProKeep(cr, c));
    var t4 := Kept(t3, c => c, c => WorkKeep(cr, c, time));
    SweptOfSame(s0, s0, c => ImNote(cr, c), c => ImKeep(cr, c));
    SweptOfSame(s1, t1, c => c, c => QosKeep(cr, c));
    SweptOfSame(s2, t2, c => c, c => CapProKeep(cr, c));
    SweptOfSame(s3, t3, c => c, c => WorkKeep(cr, c, time));
    SweptOfSame(s4, t4, c => DiffNote(cr, c, sinceEnd), c => DiffKeep(c));
  }

  lemma {:induction false} SouNotedIsKept(cr: Request, s: seq<Cand>)
    ensures SouNoted(cr, s) == Kept(s, c => SouNote(cr, c), c => true)
  {
    if s != [] {
      SouNotedIsKept(cr, s[1..]);
      assert SouNoted(cr, s) == [SouNote(cr, s[0])] + SouNoted(cr, s[1..]);
    }
  }

  lemma TimesKept(r: seq<Cand>, s: seq<Cand>)
    requires multiset(r) == multiset(s)
    ensures (forall p :: 0 <= p < |r| ==> r[p].souDiffStart != 0)
        ==> (forall p :: 0 <= p < |s| ==> s[p].souDiffStart != 0)
  {
    forall p | 0 <= p < |s|
      ensures s[p] in r
    {
      assert s[p] in multiset(r);
    }
  }

  lemma OrderedRanks(cr: Request, s: seq<Cand>, t: seq<Cand>)
    requires multiset(s) == multiset(t)
    ensures multiset(Ordered(cr, s)) == multiset(LastNote(cr, t)) && InOrder(cr, Ordered(cr, s))
  {
    hide Kept, SouNote, Sorted, SouSorted;
    if cr.qos == 5 {
      SouSortOrders(SouNoted(cr, s));
      TimesKept(Ordered(cr, s), SouNoted(cr, s));
      SouNotedIsKept(cr, s);
      SouNotedIsKept(cr, t);
      KeptOfSame(s, t, c => SouNote(cr, c), c => true);
    } else {
      SortOrders(cr, s);
      SortedBest(cr, s, 0);
    }
  }

  // A record in the ranking passes every filter and belongs to an eligible device.
  lemma RankedPass(cr: Request, time: nat, sinceEnd: Pvt -> int, devices: seq<Pvt>, canDial: seq<bool>, junk: Cand,
                   order: seq<Cand>, c: Cand) returns (k: nat)
    requires |canDial| == |devices| && c in order
    requires Ranking(cr, time, sinceEnd, Created(cr, devices, canDial, junk, 0), order)
    ensures Passes(cr, time, c)
    ensures k < |devices| && c.pvt == devices[k] && Eligible(cr, devices[k], canDial[k])
  {
    hide ImKeep, QosKeep, CapProKeep, WorkKeep, Kept, InOrder, Created;
    var eligible := Created(cr, devices, canDial, junk, 0);
    var s := Survivors(cr, time, sinceEnd, eligible);
    assert c in multiset(LastNote(cr, s));
    var i: nat :| i < |LastNote(cr, s)| && LastNote(cr, s)[i] == c;
    var d := s[i];
    KeptPasses(eligible, e => Noted(cr, sinceEnd, e), e => Passes(cr, time, e), d);
    var j: nat :| j < |eligible| && d == Noted(cr, sinceEnd, eligible[j]);
    SouNoteHarmless(cr, time, d);
    NotesKeepPvt(cr, sinceEnd, eligible[j], d);
    k := CreatedFrom(cr, devices, canDial, junk, 0, j);
  }

  lemma NotesKeepPvt(cr: Request, sinceEnd: Pvt -> int, e: Cand, d: Cand)
    ensures Noted(cr, sinceEnd, e).pvt == e.pvt && SouNote(cr, d).pvt == d.pvt
  {
  }

  lemma SouNoteHarmless(cr: Request, time: nat, d: Cand)
    ensures Passes(cr, time, SouNote(cr, d)) == Passes(cr, time, d)
  {
  }

  lemma {:induction false} CreatedFrom(cr: Request, devices: seq<Pvt>, canDial: seq<bool>, junk: Cand, no: nat,
                                       j: nat) returns (k: nat)
    requires |canDial| == |devices| && j < |Created(cr, devices, canDial, junk, no)|
    ensures k < |devices| && Created(cr, devices, canDial, junk, no)[j].pvt == devices[k]
        && Eligible(cr, devices[k], canDial[k])
    decreases |devices|
  {
    if Eligible(cr, devices[0], canDial[0]) {
      if j == 0 {
        k := 0;
      } else {
        k := CreatedFrom(cr, devices[1..], canDial[1..], junk, no + 1, j - 1);
        k := k + 1;
      }
    } else {
      k := CreatedFrom(cr, devices[1..], canDial[1..], junk, no, j);
      k := k + 1;
    }
  }

  // The group branch of find_device_by_resource_ex: the first device in the ranking
  // that can be had is returned, NULL if there is none, and every record is freed
  // once. When memory runs out nothing is found, and nothing freed.
  method SelectDevice(cr: Request, devices: seq<Pvt>, canDial: seq<bool>, junk: Cand, left: nat,
                      time: nat, sinceEnd: Pvt -> int, rand: seq<nat>, tries: seq<Try>)
    returns (found: Option<Pvt>, order: seq<Cand>, ghost made: nat, ghost freed: seq<nat>)
    requires |canDial| == |devices| <= |rand| && |devices| <= |tries|
    ensures var eligible := Created(cr, devices, canDial, junk, 0);
      if |eligible| <= left then Ranking(cr, time, sinceEnd, eligible, order) && FirstHad(found, order, tries)
      else found == None && order == []
    ensures var eligible := Created(cr, devices, canDial, junk, 0);
      if |eligible| <= left then made == |eligible| && multiset(freed) == multiset(Upto(made))
      else made == left && multiset(freed) == multiset{}
  {
    hide Balance, Swept, ImNote, ImKeep, QosKeep, CapProKeep, WorkKeep, DiffNote, DiffKeep, Shuffled, Ordered, InOrder;
    var list := new Selection(|devices|, junk);
    list.Create(cr, devices, canDial, junk, left);
    ghost var s0 := list.List();
    CreatedNumbered(cr, devices, canDial, junk, 0);
    AllHeld(s0, list.freed);
    list.Im(cr);
    ghost var s1 := list.List();
    list.Qos(cr);
    ghost var s2 := list.List();
    list.CapPro(cr);
    ghost var s3 := list.List();
    list.Work(cr, time);
    ghost var s4 := list.List();
    list.Diff(cr, sinceEnd);
    ghost var s5 := list.List();
    list.Shuffle(rand);
    ghost var s6 := list.List();
    list.Sort(cr);
    order := list.a[..list.count];
    SweptChain(cr, time, sinceEnd, s0, s1, s2, s3, s4, s5);
    ShuffledSame(s5, 0, rand);
    OrderedRanks(cr, s6, Survivors(cr, time, sinceEnd, s0));
    found := list.Found(tries);
    made, freed := list.made, list.freed;
  }

  // plain_dial: the first device of the given name that can be had.
  method PlainDial(resource: string, devices: seq<Pvt>, tries: seq<Try>) returns (found: Option<Pvt>)
    requires |tries| == |devices|
    ensures found == None ==>
              forall k :: 0 <= k < |devices| ==> devices[k].id != resource || tries[k] != Try(true, true, true)
    ensures found != None ==>
              exists k :: 0 <= k < |devices| && devices[k].id == resource && tries[k] == Try(true, true, true)
                && found == Some(devices[k])
                && forall j :: 0 <= j < k ==> devices[j].id != resource || tries[j] != Try(true, true, true)
  {
    var j := 0;
    while j < |devices|
      invariant j <= |devices|
      invariant forall k :: 0 <= k < j ==> devices[k].id != resource || tries[k] != Try(true, true, true)
    {
      if devices[j].id == resource {
        if tries[j].canDial {
          if tries[j].locked {
            if tries[j].canStill {
              return Some(devices[j]);
            }
          }
        }
      }
      j := j + 1;
    }
    found := None;
  }
}
