// The ring buffer of ringbuffer.c, generic in its element: the audio mixer keeps
// 16-bit samples in it, the reader of device responses keeps characters.
module RingBuffers {

  // Positions run from 0 to size; a sum that passes the end starts over.
  function Wrap(x: nat, size: nat): nat {
    if x >= size then x - size else x
  }

  // The flat contents of a ring: `used` elements from `read` on.
  function View<T>(buf: seq<T>, read: nat, used: nat): (v: seq<T>)
    requires used <= |buf| && read <= |buf|
    ensures |v| == used
    ensures forall i {:trigger v[i]} :: 0 <= i < used ==> v[i] == buf[Wrap(read + i, |buf|)]
  {
    seq(used, i requires 0 <= i < used => buf[Wrap(read + i, |buf|)])
  }

  // One element of an I/O vector: a stretch of the buffer.
  datatype Iov = Iov(base: nat, len: nat)

  // The elements an I/O vector of n parts covers.
  function Gather<T>(buf: seq<T>, n: int, v0: Iov, v1: Iov): seq<T>
    requires v0.base + v0.len <= |buf| && v1.base + v1.len <= |buf|
  {
    if n <= 0 then []
    else if n == 1 then buf[v0.base..v0.base + v0.len]
    else buf[v0.base..v0.base + v0.len] + buf[v1.base..v1.base + v1.len]
  }

  // n parts that cover k elements from position `at` on, going round the end.
  predicate Covers(n: int, v0: Iov, v1: Iov, at: nat, k: nat, size: nat) {
    && 1 <= n <= 2 && v0.base == at && v0.len + v1.len == k
    && v0.base + v0.len <= size && v1.base + v1.len <= size
    && (n == 1 ==> v1.len == 0)
    && (n == 2 ==> v0.base + v0.len == size && v1.base == 0)
  }

  // Such parts hold exactly the first k elements of the contents.
  lemma CoversPrefix<T>(buf: seq<T>, read: nat, used: nat, n: int, v0: Iov, v1: Iov, k: nat)
    requires read <= |buf| && k <= used <= |buf| && Covers(n, v0, v1, read, k, |buf|)
    ensures Gather(buf, n, v0, v1) == View(buf, read, used)[..k]
  {
    var g, v := Gather(buf, n, v0, v1), View(buf, read, used);
    assert |g| == k;
    forall i | 0 <= i < k
      ensures g[i] == v[i]
    {
      assert v[i] == buf[Wrap(read + i, |buf|)];
    }
  }

  // The index of the first c in s, or |s|.
  function FirstIndex<T(==)>(s: seq<T>, c: T): (k: nat)
    ensures k <= |s| && (k < |s| ==> s[k] == c)
    ensures forall i :: 0 <= i < k ==> s[i] != c
  {
    FirstIndexFrom(s, c, 0)
  }

  function FirstIndexFrom<T(==)>(s: seq<T>, c: T, from: nat): (k: nat)
    requires from <= |s|
    ensures from <= k <= |s| && (k < |s| ==> s[k] == c)
    ensures forall i :: from <= i < k ==> s[i] != c
    decreases |s| - from
  {
    if from == |s| || s[from] == c then from else FirstIndexFrom(s, c, from + 1)
  }

  lemma FirstIndexIs<T>(s: seq<T>, c: T, k: nat)
    requires k <= |s| && (k < |s| ==> s[k] == c)
    requires forall i :: 0 <= i < k ==> s[i] != c
    ensures FirstIndex(s, c) == k
  {
  }

  predicate OccursAt<T(==)>(s: seq<T>, pat: seq<T>, k: nat) {
    k + |pat| <= |s| && forall j :: 0 <= j < |pat| ==> s[k + j] == pat[j]
  }

  // Where pat first occurs in s, or |s|; the empty pattern is never found.
  function FirstMatch<T(==)>(s: seq<T>, pat: seq<T>): (k: nat)
    ensures k <= |s| && (k < |s| ==> OccursAt(s, pat, k))
    ensures forall i {:trigger OccursAt(s, pat, i)} :: 0 <= i < k && pat != [] ==> !OccursAt(s, pat, i)
    ensures pat == [] ==> k == |s|
  {
    FirstMatchFrom(s, pat, 0)
  }

  function FirstMatchFrom<T(==)>(s: seq<T>, pat: seq<T>, from: nat): (k: nat)
    requires from <= |s|
    ensures from <= k <= |s| && (k < |s| ==> OccursAt(s, pat, k))
    ensures forall i {:trigger OccursAt(s, pat, i)} :: from <= i < k && pat != [] ==> !OccursAt(s, pat, i)
    ensures pat == [] ==> k == |s|
    decreases |s| - from
  {
    if from == |s| || (pat != [] && OccursAt(s, pat, from)) then from else FirstMatchFrom(s, pat, from + 1)
  }

  lemma FirstMatchIs<T>(s: seq<T>, pat: seq<T>, k: nat)
    requires pat != [] && k <= |s| && (k < |s| ==> OccursAt(s, pat, k))
    requires forall i {:trigger OccursAt(s, pat, i)} :: 0 <= i < k ==> !OccursAt(s, pat, i)
    ensures FirstMatch(s, pat) == k
  {
    var f := FirstMatch(s, pat);
  }

  lemma MatchOfOne<T>(s: seq<T>, pat: seq<T>)
    requires |pat| == 1
    ensures FirstMatch(s, pat) == FirstIndex(s, pat[0])
  {
    FirstMatchIs(s, pat, FirstIndex(s, pat[0]));
  }

  lemma MatchFlat<T>(buf: seq<T>, read: nat, used: nat, mem: seq<T>, k: nat)
    requires read + used <= |buf| && mem != [] && k <= used
    requires k < used ==> k + |mem| <= used && OccursAt(buf, mem, read + k)
    requires forall p :: read <= p < read + k && p + |mem| <= read + used ==> !OccursAt(buf, mem, p)
    ensures FirstMatch(View(buf, read, used), mem) == k
  {
    var v := View(buf, read, used);
    forall i {:trigger OccursAt(v, mem, i)} | 0 <= i && i + |mem| <= used
      ensures OccursAt(v, mem, i) == OccursAt(buf, mem, read + i)
    {
      assert v == buf[read..read + used];
    }
    FirstMatchIs(v, mem, k);
  }

  lemma OccursIsSlice<T>(s: seq<T>, pat: seq<T>, k: nat)
    requires k + |pat| <= |s|
    ensures OccursAt(s, pat, k) <==> s[k..k + |pat|] == pat
  {
    if s[k..k + |pat|] == pat {
      forall j | 0 <= j < |pat|
        ensures s[k + j] == pat[j]
      {
        assert s[k..k + |pat|][j] == pat[j];
      }
    }
  }

  lemma SliceOfSlice<T>(s: seq<T>, at: nat, m: nat, i: nat, n: nat)
    requires at + m <= |s| && i + n <= m
    ensures s[at..at + m][i..i + n] == s[at + i..at + i + n]
  {
    var x, y := s[at..at + m][i..i + n], s[at + i..at + i + n];
    forall j | 0 <= j < n
      ensures x[j] == y[j]
    {
      assert x[j] == s[at..at + m][i + j] == s[at + (i + j)];
    }
    assert x == y;
  }

  // The same for one piece of the buffer.
  lemma MatchIsFirst<T>(a: seq<T>, mem: seq<T>, buf: seq<T>, at: nat, k: nat)
    requires at + |a| <= |buf| && a == buf[at..at + |a|] && mem != [] && k <= |a|
    requires k < |a| ==> k + |mem| <= |a| && OccursAt(buf, mem, at + k)
    requires forall p :: at <= p < at + k && p + |mem| <= at + |a| ==> !OccursAt(buf, mem, p)
    ensures FirstMatch(a, mem) == k
  {
    forall i {:trigger OccursAt(a, mem, i)} | 0 <= i && i + |mem| <= |a|
      ensures OccursAt(a, mem, i) == OccursAt(buf, mem, at + i)
    {
      OccursIsSlice(a, mem, i);
      OccursIsSlice(buf, mem, at + i);
      SliceOfSlice(buf, at, |a|, i, |mem|);
    }
    FirstMatchIs(a, mem, k);
  }

  lemma MatchInPiece<T>(buf: seq<T>, at: nat, len: nat, mem: seq<T>)
    requires at + len <= |buf|
    ensures len < |mem| ==> FirstMatch(buf[at..at + len], mem) == len
  {
  }

  // A pattern that straddles the seam with i elements behind it, and the test
  // rb_read_until_mem_iov makes instead; a and b are the two sides of the seam.
  predicate Straddles<T(==)>(a: seq<T>, b: seq<T>, memory: seq<T>, len: nat, i: nat)
    requires i <= len <= |memory|
  {
    a == memory[..len - i] && b == memory[len - i..len]
  }

  predicate StraddlesAsWritten<T(==)>(a: seq<T>, b: seq<T>, memory: seq<T>, len: nat, i: nat)
    requires i <= len <= |memory| && 2 * i <= |memory|
  {
    a == memory[..len - i] && b == memory[i..i + i]
  }

  // ------------------------------------------------------------------
  // The search of rb_read_until_mem_iov, on contents in two pieces: a up to the end of
  // the buffer, b behind it. The pattern is memory[..len]; where it goes round the end
  // the comparison also reads what follows the pattern in memory.
  // ------------------------------------------------------------------

  predicate Readable<T>(memory: seq<T>, len: nat) {
    len <= |memory| && 2 * len <= |memory| + 2
  }

  // The straddling positions from i elements behind the seam on, then the second piece.
  function SeamSearch<T(==)>(a: seq<T>, b: seq<T>, memory: seq<T>, len: nat, i: nat): (k: nat)
    requires Readable(memory, len) && 1 <= i <= len <= |a| + i && i <= |b|
    ensures k <= |a| + |b|
    decreases len - i
  {
    if i == len then |a| + FirstMatch(b, memory[..len])
    else if StraddlesAsWritten(a[|a| - (len - i)..], b[..i], memory, len, i) then |a| - (len - i)
    else if |b| == i then |a| + |b|
    else SeamSearch(a, b, memory, len, i + 1)
  }

  // The position found, or the length of the contents.
  function MemSearch<T(==)>(a: seq<T>, b: seq<T>, memory: seq<T>, len: nat): (k: nat)
    requires Readable(memory, len)
    ensures k <= |a| + |b|
  {
    var mem := memory[..len];
    if len <= 1 || b == [] || |a| + |b| < len then FirstMatch(a + b, mem)
    else if FirstMatch(a, mem) < |a| then FirstMatch(a, mem)
    else SeamSearch(a, b, memory, len, if |a| >= len then 1 else len - |a|)
  }

  // Where the pattern occurs in the contents, by piece.
  lemma OccursInTwo<T>(a: seq<T>, b: seq<T>, memory: seq<T>, len: nat, p: nat)
    requires len <= |memory| && p + len <= |a| + |b|
    ensures p + len <= |a| ==> OccursAt(a + b, memory[..len], p) == OccursAt(a, memory[..len], p)
    ensures p >= |a| ==> OccursAt(a + b, memory[..len], p) == OccursAt(b, memory[..len], p - |a|)
    ensures p < |a| < p + len ==>
              (OccursAt(a + b, memory[..len], p) <==> Straddles(a[p..], b[..p + len - |a|], memory, len, p + len - |a|))
  {
    var c, mem := a + b, memory[..len];
    OccursIsSlice(c, mem, p);
    if p >= |a| {
      OccursIsSlice(b, mem, p - |a|);
      assert c[p..p + len] == b[p - |a|..p - |a| + len];
    } else if p + len <= |a| {
      OccursIsSlice(a, mem, p);
      assert c[p..p + len] == a[p..p + len];
    } else {
      var i := p + len - |a|;
      assert c[p..p + len] == a[p..] + b[..i];
      assert mem == memory[..len - i] + memory[len - i..len];
    }
  }

  // Memory repeats at i the last i elements of the pattern.
  predicate Repeats<T(==)>(memory: seq<T>, len: nat, i: nat)
    requires Readable(memory, len) && i < len
  {
    memory[i..i + i] == memory[len - i..len]
  }

  // The search is right if all the stretches of memory it confuses are equal.
  ghost predicate Forgiving<T>(memory: seq<T>, len: nat)
    requires Readable(memory, len)
  {
    forall i :: 0 < i < len ==> Repeats(memory, len, i)
  }

  lemma {:induction false} SeamSearchRight<T(!new)>(a: seq<T>, b: seq<T>, memory: seq<T>, len: nat, i: nat)
    requires Readable(memory, len) && 1 <= i <= len <= |a| + i && i <= |b| && Forgiving(memory, len)
    requires forall p {:trigger OccursAt(a + b, memory[..len], p)} :: 0 <= p < |a| - (len - i) ==>
        !OccursAt(a + b, memory[..len], p)
    ensures SeamSearch(a, b, memory, len, i) == FirstMatch(a + b, memory[..len])
    decreases len - i
  {
    hide FirstMatch;
    var c, mem := a + b, memory[..len];
    if i == len {
      var q := FirstMatch(b, mem);
      forall p {:trigger OccursAt(c, mem, p)} | |a| <= p < |a| + q
        ensures !OccursAt(c, mem, p)
      {
        if p + len <= |c| {
          OccursInTwo(a, b, memory, len, p);
        }
      }
      if q < |b| {
        OccursInTwo(a, b, memory, len, |a| + q);
      }
      FirstMatchIs(c, mem, |a| + q);
    } else {
      var at := |a| - (len - i);
      assert Repeats(memory, len, i);
      OccursInTwo(a, b, memory, len, at);
      if StraddlesAsWritten(a[at..], b[..i], memory, len, i) {
        FirstMatchIs(c, mem, at);
      } else if |b| == i {
        forall p {:trigger OccursAt(c, mem, p)} | 0 <= p < |c|
          ensures !OccursAt(c, mem, p)
        {
        }
        FirstMatchIs(c, mem, |c|);
      } else {
        SeamSearchRight(a, b, memory, len, i + 1);
      }
    }
  }

  lemma MemSearchRight<T(!new)>(a: seq<T>, b: seq<T>, memory: seq<T>, len: nat)
    requires Readable(memory, len) && Forgiving(memory, len)
    ensures MemSearch(a, b, memory, len) == FirstMatch(a + b, memory[..len])
  {
    hide FirstMatch, SeamSearch;
    var c, mem := a + b, memory[..len];
    if len > 1 && b != [] && |a| + |b| >= len {
      var p := FirstMatch(a, mem);
      forall k {:trigger OccursAt(c, mem, k)} | 0 <= k < p && k + len <= |a|
        ensures !OccursAt(c, mem, k)
      {
        OccursInTwo(a, b, memory, len, k);
      }
      if p < |a| {
        OccursInTwo(a, b, memory, len, p);
        FirstMatchIs(c, mem, p);
      } else {
        SeamSearchRight(a, b, memory, len, if |a| >= len then 1 else len - |a|);
      }
    }
  }

  // In particular for the patterns of one and two elements.
  lemma PairSearchRight<T(!new)>(a: seq<T>, b: seq<T>, memory: seq<T>, len: nat)
    requires Readable(memory, len) && len <= 2
    ensures MemSearch(a, b, memory, len) == FirstMatch(a + b, memory[..len])
  {
    assert Forgiving(memory, len);
    MemSearchRight(a, b, memory, len);
  }

  // The contents that are the pattern alone, i elements of it behind the seam: not found
  // unless the test is right there.
  lemma PatternAcross<T>(memory: seq<T>, len: nat, i: nat)
    requires Readable(memory, len) && 0 < i < len && !Repeats(memory, len, i)
    ensures var a, b := memory[..len - i], memory[len - i..len];
      MemSearch(a, b, memory, len) == len && FirstMatch(a + b, memory[..len]) == 0
  {
    var a, b := memory[..len - i], memory[len - i..len];
    hide FirstMatch, SeamSearch;
    assert a + b == memory[..len];
    FirstMatchIs(a + b, memory[..len], 0);
    FirstMatchIs(a, memory[..len], |a|);
    assert a[|a| - (len - i)..] == a && b[..i] == b;
    SeamStep(a, b, memory, len, i);
  }

  // rb_read_until_mem_iov finds the first occurrence in all contents, wherever they go
  // round the end, if and only if memory repeats at i the last i elements of the
  // pattern, for every i.
  lemma MemSearchExactly<T(!new)>(memory: seq<T>, len: nat)
    requires Readable(memory, len)
    ensures (forall a: seq<T>, b: seq<T> {:trigger MemSearch(a, b, memory, len)} ::
               MemSearch(a, b, memory, len) == FirstMatch(a + b, memory[..len]))
       <==> Forgiving(memory, len)
  {
    hide MemSearch, FirstMatch;
    if Forgiving(memory, len) {
      forall a: seq<T>, b: seq<T> {:trigger MemSearch(a, b, memory, len)}
        ensures MemSearch(a, b, memory, len) == FirstMatch(a + b, memory[..len])
      {
        MemSearchRight(a, b, memory, len);
      }
    } else {
      var i :| 0 < i < len && !Repeats(memory, len, i);
      PatternAcross(memory, len, i);
      assert MemSearch(memory[..len - i], memory[len - i..len], memory, len) == len;
    }
  }

  // What is reported across the seam has passed the comparison as written.
  lemma {:induction false} SeamSearchSays<T>(a: seq<T>, b: seq<T>, memory: seq<T>, len: nat, i: nat)
    requires Readable(memory, len) && 1 <= i <= len <= |a| + i && i <= |b|
    ensures var k := SeamSearch(a, b, memory, len, i);
      || k >= |a|
      || (&& |a| < k + len <= |a| + |b|
          && StraddlesAsWritten(a[k..], b[..k + len - |a|], memory, len, k + len - |a|))
    decreases len - i
  {
    if i < len && |b| > i && !StraddlesAsWritten(a[|a| - (len - i)..], b[..i], memory, len, i) {
      SeamSearchSays(a, b, memory, len, i + 1);
    }
  }

  lemma SeamStep<T>(a: seq<T>, b: seq<T>, memory: seq<T>, len: nat, i: nat)
    requires Readable(memory, len) && 1 <= i <= len <= |a| + i && i <= |b|
    ensures SeamSearch(a, b, memory, len, i) ==
      if i == len then |a| + FirstMatch(b, memory[..len])
      else if StraddlesAsWritten(a[|a| - (len - i)..], b[..i], memory, len, i) then |a| - (len - i)
      else if |b| == i then |a| + |b|
      else SeamSearch(a, b, memory, len, i + 1)
  {
  }

  lemma MemSearchSays<T>(a: seq<T>, b: seq<T>, memory: seq<T>, len: nat, k: nat)
    requires Readable(memory, len) && 2 <= len && k < |a| < k + len <= |a| + |b| && MemSearch(a, b, memory, len) == k
    ensures StraddlesAsWritten(a[k..], b[..k + len - |a|], memory, len, k + len - |a|)
  {
    SeamSearchSays(a, b, memory, len, if |a| >= len then 1 else len - |a|);
    hide SeamSearch, StraddlesAsWritten;
  }

  const TERMINATOR := "\n\r\nOK\r\n"

  lemma TerminatorTest(memory: seq<char>, i: nat)
    requires 12 <= |memory| && memory[..8] == TERMINATOR + "\0" && 1 <= i < 7
    ensures memory[i..i + i] != memory[7 - i..7]
  {
    var m := memory[..8];
    assert m[0] == memory[0] && m[1] == memory[1] && m[2] == memory[2] && m[3] == memory[3];
    assert m[4] == memory[4] && m[5] == memory[5] && m[6] == memory[6] && m[7] == memory[7];
    var right, wrong := memory[7 - i..7], memory[i..i + i];
    assert right[0] == memory[7 - i] && wrong[0] == memory[i];
  }

  // So the terminator of a multi-line response that lies across the end of the buffer is
  // never found there, whatever follows the pattern in memory.
  lemma StraddlingTerminatorMissed(memory: seq<char>, a: seq<char>, b: seq<char>, k: nat)
    requires 12 <= |memory| && memory[..8] == TERMINATOR + "\0"
    requires k < |a| < k + 7 <= |a| + |b| && OccursAt(a + b, TERMINATOR, k)
    ensures MemSearch(a, b, memory, 7) != k
  {
    hide MemSearch, OccursAt;
    assert memory[..7] == memory[..8][..7] == TERMINATOR;
    var i := k + 7 - |a|;
    OccursInTwo(a, b, memory, 7, k);
    TerminatorTest(memory, i);
    if MemSearch(a, b, memory, 7) == k {
      MemSearchSays(a, b, memory, 7, k);
    }
  }

  // What writing does to one cell: data goes in from `at` on, round the end,
  // combined with what was there.
  function OverlaidCell<T>(buf: seq<T>, at: nat, data: seq<T>, f: (T, T) -> T, p: nat): T
    requires |data| <= |buf| && at <= |buf| && p < |buf|
  {
    if at <= p < at + |data| then f(buf[p], data[p - at])
    else if p + |buf| < at + |data| then f(buf[p], data[p + |buf| - at])
    else buf[p]
  }

  ghost predicate Overlaid<T(!new)>(now: seq<T>, was: seq<T>, at: nat, data: seq<T>, f: (T, T) -> T)
    requires |data| <= |was| && at <= |was|
  {
    |now| == |was| && forall p :: 0 <= p < |was| ==> now[p] == OverlaidCell(was, at, data, f, p)
  }

  // rb_write writes with memmove.
  function Replace<T>(before: T, after: T): T {
    after
  }

  // Writing behind the contents appends to them.
  lemma OverlaidAppends<T(!new)>(now: seq<T>, was: seq<T>, read: nat, used: nat, data: seq<T>)
    requires used + |data| <= |was| && (read < |was| || read == |was| == 0)
    requires Overlaid(now, was, Wrap(read + used, |was|), data, Replace)
    ensures View(now, read, used + |data|) == View(was, read, used) + data
  {
    var v, w := View(now, read, used + |data|), View(was, read, used) + data;
    forall i | 0 <= i < used + |data|
      ensures v[i] == w[i]
    {
      assert v[i] == now[Wrap(read + i, |now|)];
    }
  }

  // Positions size and 0 are one place.
  lemma OverlaidFromEnd<T(!new)>(now: seq<T>, was: seq<T>, at: nat, data: seq<T>, f: (T, T) -> T)
    requires |data| <= |was| && at <= |was| && Overlaid(now, was, at, data, f)
    ensures Overlaid(now, was, if at == |was| then 0 else at, data, f)
  {
    if at == |was| {
      forall p | 0 <= p < |was|
        ensures OverlaidCell(was, at, data, f, p) == OverlaidCell(was, 0, data, f, p)
      {
      }
    }
  }

  class RingBuffer<T(==,!new)> {
    const buffer: array<T>
    const size: nat
    var used: nat
    var read: nat
    var write: nat

    // write is the position after the contents; rb_write_upd may leave it at
    // `size` instead of 0.
    ghost predicate Valid()
      reads this
    {
      && size == buffer.Length
      && used <= size
      && (read < size || read == size == 0)
      && (write == Wrap(read + used, size) || write == read + used == size)
    }

    ghost function Contents(): seq<T>
      requires Valid()
      reads this, buffer
    {
      View(buffer[..], read, used)
    }

    // rb_init
    constructor (buf: array<T>)
      ensures Valid() && buffer == buf && size == buf.Length
      ensures used == read == write == 0
    {
      buffer := buf;
      size := buf.Length;
      used, read, write := 0, 0, 0;
    }

    function Free(): nat
      requires used <= size
      reads this
    {
      size - used
    }

    // ---------------------------- READ ----------------------------

    // memcmp of a stretch of the buffer with mem, equal or not.
    predicate Same(at: nat, mem: seq<T>)
      requires at + |mem| <= buffer.Length
      reads buffer
      ensures Same(at, mem) == OccursAt(buffer[..], mem, at)
    {
      forall j :: 0 <= j < |mem| ==> buffer[at + j] == mem[j]
    }

    method Memcmp(mem: seq<T>) returns (r: int)
      requires Valid()
      ensures r == 0 <==> mem != [] && OccursAt(Contents(), mem, 0)
      ensures r == -1 <==> mem == [] || used < |mem|
      ensures r == 0 || r == 1 || r == -1
    {
      ghost var flat := Contents();
      if used > 0 && |mem| > 0 && used >= |mem| {
        if read + |mem| > size {
          var tmp := size - read;
          assert forall j :: 0 <= j < tmp ==> flat[j] == buffer[read + j] && mem[..tmp][j] == mem[j];
          assert forall j :: tmp <= j < |mem| ==> flat[j] == buffer[j - tmp] && mem[tmp..][j - tmp] == mem[j];
          if Same(read, mem[..tmp]) {
            if Same(0, mem[tmp..]) {
              return 0;
            }
          }
        } else {
          assert forall j :: 0 <= j < |mem| ==> buffer[read + j] == flat[j];
          if Same(read, mem) {
            return 0;
          }
        }
        return 1;
      }
      return -1;
    }

    method ReadAllIov() returns (n: int, v0: Iov, v1: Iov)
      requires Valid()
      ensures n == 0 <==> used == 0
      ensures n != 0 ==> Covers(n, v0, v1, read, used, size)
    {
      v0, v1 := Iov(0, 0), Iov(0, 0);
      if used > 0 {
        if read + used > size {
          v0 := Iov(read, size - read);
          v1 := Iov(0, used - v0.len);
          return 2, v0, v1;
        } else {
          v0 := Iov(read, used);
          return 1, v0, v1;
        }
      }
      n := 0;
    }

    method ReadNIov(len: nat) returns (n: int, v0: Iov, v1: Iov)
      requires Valid()
      ensures n == 0 <==> len == 0 || used < len
      ensures n != 0 ==> Covers(n, v0, v1, read, len, size)
    {
      v0, v1 := Iov(0, 0), Iov(0, 0);
      if used < len {
        return 0, v0, v1;
      }
      if len > 0 {
        if read + len > size {
          v0 := Iov(read, size - read);
          v1 := Iov(0, len - v0.len);
          return 2, v0, v1;
        } else {
          v0 := Iov(read, len);
          return 1, v0, v1;
        }
      }
      n := 0;
    }

    // memchr on a stretch of the buffer: the offset of the first c, or len.
    method Memchr(at: nat, c: T, len: nat) returns (k: nat)
      requires at + len <= buffer.Length
      ensures k <= len && (k < len ==> buffer[at + k] == c)
      ensures forall p :: at <= p < at + k ==> buffer[p] != c
    {
      k := 0;
      while k < len && buffer[at + k] != c
        invariant k <= len
        invariant forall p :: at <= p < at + k ==> buffer[p] != c
      {
        k := k + 1;
      }
    }

    method ReadUntilCharIov(c: T) returns (n: int, v0: Iov, v1: Iov)
      requires Valid()
      ensures n == 0 <==> FirstIndex(Contents(), c) == used
      ensures n != 0 ==> Covers(n, v0, v1, read, FirstIndex(Contents(), c), size)
    {
      v0, v1 := Iov(0, 0), Iov(0, 0);
      n := 0;
      ghost var flat := Contents();
      if used > 0 {
        if read + used > size {
          v0 := Iov(read, size - read);
          var p := Memchr(v0.base, c, v0.len);
          if p < v0.len {
            v0 := Iov(read, p);
            FirstIndexIs(flat, c, p);
            return 1, v0, v1;
          }
          p := Memchr(0, c, used - v0.len);
          FirstIndexIs(flat, c, v0.len + p);
          if p < used - v0.len {
            v1 := Iov(0, p);
            return 2, v0, v1;
          }
        } else {
          v0 := Iov(read, used);
          var p := Memchr(v0.base, c, v0.len);
          FirstIndexIs(flat, c, p);
          if p < v0.len {
            v0 := Iov(read, p);
            return 1, v0, v1;
          }
        }
      }
    }

    // memmem on a stretch of the buffer: the offset of the first match, or len.
    method Memmem(at: nat, len: nat, mem: seq<T>) returns (k: nat)
      requires at + len <= buffer.Length && mem != []
      ensures k <= len && (k < len ==> k + |mem| <= len && OccursAt(buffer[..], mem, at + k))
      ensures forall p :: at <= p < at + k && p + |mem| <= at + len ==> !OccursAt(buffer[..], mem, p)
    {
      k := 0;
      while k + |mem| <= len && !Same(at + k, mem)
        invariant k <= len
        invariant forall p :: at <= p < at + k && p + |mem| <= at + len ==> !OccursAt(buffer[..], mem, p)
      {
        k := k + 1;
      }
      if k + |mem| > len {
        k := len;
      }
    }

    // The contents up to the end of the buffer, and behind it.
    ghost function Front(): seq<T>
      requires Valid()
      reads this, buffer
    {
      if read + used > size then buffer[read..] else buffer[read..read + used]
    }

    ghost function Behind(): seq<T>
      requires Valid()
      reads this, buffer
    {
      if read + used > size then buffer[..read + used - size] else []
    }

    lemma TwoPieces()
      requires Valid()
      ensures Contents() == Front() + Behind() && |Front()| + |Behind()| == used
    {
    }

    lemma PiecesAround()
      requires Valid() && read + used > size
      ensures |Front()| == size - read && |Behind()| == used - (size - read)
          && Behind() == buffer[..][0..0 + |Behind()|]
    {
    }

    // rb_read_until_mem_iov for the pattern memory[..len].
    method ReadUntilMemIov(memory: seq<T>, len: nat) returns (n: int, v0: Iov, v1: Iov)
      requires Valid() && Readable(memory, len)
      ensures n == 0 <==> MemSearch(Front(), Behind(), memory, len) == used
      ensures n != 0 ==> Covers(n, v0, v1, read, MemSearch(Front(), Behind(), memory, len), size)
    {
      hide SeamSearch;
      v0, v1 := Iov(0, 0), Iov(0, 0);
      n := 0;
      TwoPieces();
      var mem := memory[..len];
      if len == 1 {
        MatchOfOne(Contents(), mem);
        n, v0, v1 := ReadUntilCharIov(memory[0]);
        return;
      }
      if used > 0 && len > 0 && used >= len {
        if read + used > size {
          n, v0, v1 := UntilMemAround(memory, len);
        } else {
          v0 := Iov(read, used);
          var p := Memmem(v0.base, v0.len, mem);
          MatchFlat(buffer[..], read, used, mem, p);
          if p < v0.len {
            v0 := Iov(read, p);
            return 1, v0, v1;
          }
        }
      }
    }

    // The branch for contents that go round the end.
    method UntilMemAround(memory: seq<T>, len: nat) returns (n: int, v0: Iov, v1: Iov)
      requires Valid() && Readable(memory, len) && 2 <= len <= used && read + used > size
      ensures n == 0 <==> MemSearch(Front(), Behind(), memory, len) == used
      ensures n != 0 ==> Covers(n, v0, v1, read, MemSearch(Front(), Behind(), memory, len), size)
    {
      hide FirstMatch, SeamSearch;
      n, v0, v1 := 0, Iov(read, size - read), Iov(0, 0);
      ghost var a, b := Front(), Behind();
      var mem := memory[..len];
      var i, at := len - v0.len, read;
      MatchInPiece(buffer[..], read, v0.len, mem);
      if v0.len >= len {
        var p := Memmem(v0.base, v0.len, mem);
        MatchIsFirst(a, mem, buffer[..], read, p);
        if p < v0.len {
          v0 := Iov(read, p);
          return 1, v0, v1;
        }
        i, at := 1, size - len + 1;
      }
      n, v0, v1 := AcrossSeam(memory, len, i, at);
    }

    // Its loop over the straddling positions, and the search behind the seam.
    method AcrossSeam(memory: seq<T>, len: nat, first: nat, start: nat) returns (n: int, v0: Iov, v1: Iov)
      requires Valid() && Readable(memory, len) && 2 <= len <= used && read + used > size
      requires 1 <= first <= len <= |Front()| + first && first <= |Behind()|
      requires read <= start && start + len - first == size
      ensures n == 0 <==> SeamSearch(Front(), Behind(), memory, len, first) == used
      ensures n != 0 ==> Covers(n, v0, v1, read, SeamSearch(Front(), Behind(), memory, len, first), size)
    {
      hide FirstMatch, StraddlesAsWritten, SeamSearch, OccursAt;
      PiecesAround();
      hide RingBuffer.Front, RingBuffer.Behind;
      n, v0, v1 := 0, Iov(read, size - read), Iov(0, 0);
      ghost var a, b := Front(), Behind();
      var i, at := first, start;
      while i < len
        invariant 1 <= i <= len && read <= at && at + len - i == size && i <= |b|
        invariant SeamSearch(a, b, memory, len, first) == SeamSearch(a, b, memory, len, i)
      {
        SameAsPieces(at, memory, len, i);
        SeamStep(a, b, memory, len, i);
        if Same(at, memory[..len - i]) && Same(0, memory[i..i + i]) {
          v0 := Iov(read, at - read);
          return 1, v0, v1;
        }
        if used == v0.len + i {
          return 0, v0, v1;
        }
        at, i := at + 1, i + 1;
      }
      SeamStep(a, b, memory, len, i);
      if used >= v0.len + len {
        var q := Memmem(0, used - v0.len, memory[..len]);
        MatchIsFirst(b, memory[..len], buffer[..], 0, q);
        if q < used - v0.len {
          n := 1;
          if q > 0 {
            n, v1 := 2, Iov(0, q);
          }
        }
      }
    }

    lemma SameAsPieces(at: nat, memory: seq<T>, len: nat, i: nat)
      requires Valid() && Readable(memory, len) && 1 <= i < len && read <= at && at + len - i == size
      requires read + used > size && i <= |Behind()|
      ensures len - i <= |Front()|
      ensures (Same(at, memory[..len - i]) && Same(0, memory[i..i + i]))
         <==> StraddlesAsWritten(Front()[|Front()| - (len - i)..], Behind()[..i], memory, len, i)
    {
      var x, y := buffer[at..], buffer[..i];
      assert Front()[|Front()| - (len - i)..] == x && Behind()[..i] == y;
      assert Same(at, memory[..len - i]) <==> x == memory[..len - i];
      assert Same(0, memory[i..i + i]) <==> y == memory[i..i + i];
    }

    method ReadUpd(len: nat) returns (n: nat)
      requires Valid()
      modifies this
      ensures Valid()
      ensures n == if old(used) < len then old(used) else len
      ensures used == old(used) - n
      ensures Contents() == old(Contents())[n..]
      ensures used == 0 && n > 0 ==> read == write == 0
      ensures used > 0 ==> read == Wrap(old(read) + n, size) && write == old(write)
      ensures n == 0 ==> read == old(read) && write == old(write)
    {
      n := if used < len then used else len;
      if n > 0 {
        used := used - n;
        if used == 0 {
          read := 0;
          write := 0;
        } else {
          var s := read + n;
          if s >= size {
            read := s - size;
          } else {
            read := s;
          }
        }
      }
      ghost var was := old(Contents());
      assert forall i :: 0 <= i < used ==> Contents()[i] == was[i + n];
    }

    // ---------------------------- WRITE ---------------------------

    method WriteIov() returns (n: int, v0: Iov, v1: Iov)
      requires Valid()
      ensures n == 0 <==> Free() == 0
      ensures n != 0 ==> Covers(n, v0, v1, write, Free(), size)
    {
      v0, v1 := Iov(0, 0), Iov(0, 0);
      var free := Free();
      if free > 0 {
        if write + free > size {
          v0 := Iov(write, size - write);
          v1 := Iov(0, free - v0.len);
          return 2, v0, v1;
        } else {
          v0 := Iov(write, free);
          return 1, v0, v1;
        }
      }
      n := 0;
    }

    method WriteUpd(len: nat) returns (n: nat)
      requires Valid()
      modifies this
      ensures Valid()
      ensures n == if old(Free()) < len then old(Free()) else len
      ensures used == old(used) + n && read == old(read)
      ensures n == 0 ==> write == old(write)
    {
      n := Free();
      if len < n {
        n := len;
      }
      if n > 0 {
        var s := write + n;
        if s > size {
          write := s - size;
        } else {
          write := s;
        }
        used := used + n;
      }
    }

    // (*method)(buffer + at, data, |data|)
    method Combine(at: nat, data: seq<T>, f: (T, T) -> T)
      requires at + |data| <= buffer.Length
      modifies buffer
      ensures Overlaid(buffer[..], old(buffer[..]), at, data, f)
    {
      for k := 0 to |data|
        invariant forall p :: 0 <= p < buffer.Length ==>
                    buffer[p] == if at <= p < at + k then f(old(buffer[p]), data[p - at]) else old(buffer[p])
      {
        buffer[at + k] := f(buffer[at + k], data[k]);
      }
    }

    // The two calls of (*method) where the data goes round the end.
    method CombineAround(at: nat, data: seq<T>, f: (T, T) -> T)
      requires at <= buffer.Length < at + |data| && |data| <= buffer.Length
      modifies buffer
      ensures Overlaid(buffer[..], old(buffer[..]), at, data, f)
    {
      var n := buffer.Length - at;
      Combine(at, data[..n], f);
      Combine(0, data[n..], f);
    }

    method WriteCore(data: seq<T>, f: (T, T) -> T) returns (n: nat)
      requires Valid()
      modifies this, buffer
      ensures Valid()
      ensures n == if old(Free()) < |data| then old(Free()) else |data|
      ensures used == old(used) + n && read == old(read)
      ensures n > 0 ==> write == Wrap(read + used, size)
      ensures n == 0 ==> write == old(write)
      ensures Overlaid(buffer[..], old(buffer[..]), Wrap(read + old(used), size), data[..n], f)
    {
      n := Free();
      if |data| < n {
        n := |data|;
      }
      if n > 0 {
        var s := write + n;
        if s > size {
          CombineAround(write, data[..n], f);
          write := s - size;
        } else {
          Combine(write, data[..n], f);
          if s == size {
            write := 0;
          } else {
            write := s;
          }
        }
        OverlaidFromEnd(buffer[..], old(buffer[..]), old(write), data[..n], f);
        used := used + n;
      }
    }

    // rb_write
    method Write(data: seq<T>) returns (n: nat)
      requires Valid()
      modifies this, buffer
      ensures Valid()
      ensures n == if old(Free()) < |data| then old(Free()) else |data|
      ensures used == old(used) + n && read == old(read)
      ensures n > 0 ==> write == Wrap(read + used, size)
      ensures n == 0 ==> write == old(write)
      ensures Contents() == old(Contents()) + data[..n]
    {
      n := WriteCore(data, Replace);
      OverlaidAppends(buffer[..], old(buffer[..]), read, old(used), data[..n]);
    }
  }
}
