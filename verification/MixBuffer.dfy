// The audio mix buffer of mixbuffer.c: many streams write into one ring, each with
// its own cursor, and what the device reads is the saturating sum of the streams.
// Sizes and lengths are counted in 16-bit samples.
module MixBuffers {
  import opened Sequences
  import opened RingBuffers

  const SAMPLE_MAX := 0x7fff
  const SAMPLE_MIN := -0x8000

  type Sample = x: int | SAMPLE_MIN <= x <= SAMPLE_MAX

  function Clamp(x: int): Sample {
    if x > SAMPLE_MAX then SAMPLE_MAX else if x < SAMPLE_MIN then SAMPLE_MIN else x
  }

  // The step of saturated_sum.
  function SaturatedAdd(a: Sample, b: Sample): Sample {
    Clamp(a + b)
  }

  // ------------------------------------------------------------------
  // What a position holds: the saturating sum, in order of arrival.
  // ------------------------------------------------------------------

  function SaturatedSum(c: seq<Sample>): Sample
    requires c != []
  {
    if |c| == 1 then c[0] else SaturatedAdd(SaturatedSum(c[..|c| - 1]), c[|c| - 1])
  }

  function Sum(c: seq<int>): int {
    if c == [] then 0 else Sum(c[..|c| - 1]) + c[|c| - 1]
  }

  ghost predicate NeverSaturates(c: seq<Sample>) {
    forall k :: 0 <= k <= |c| ==> SAMPLE_MIN <= Sum(c[..k]) <= SAMPLE_MAX
  }

  // Where no partial sum leaves the range, saturation plays no part.
  lemma {:induction false} SaturatedSumIsSum(c: seq<Sample>)
    requires c != [] && NeverSaturates(c)
    ensures SaturatedSum(c) == Sum(c)
  {
    assert c[..|c|] == c;
    if |c| == 1 {
      assert c[..0] == [];
      assert Sum(c) == Sum(c[..0]) + c[0];
    } else {
      var d := c[..|c| - 1];
      forall k | 0 <= k <= |d|
        ensures SAMPLE_MIN <= Sum(d[..k]) <= SAMPLE_MAX
      {
        assert d[..k] == c[..k];
      }
      SaturatedSumIsSum(d);
    }
  }

  lemma {:induction false} SumRemove(c: seq<int>, i: nat)
    requires i < |c|
    ensures Sum(c) == c[i] + Sum(c[..i] + c[i + 1..])
  {
    var n := |c| - 1;
    if i == n {
      assert c[..i] + c[i + 1..] == c[..n];
    } else {
      SumRemove(c[..n], i);
      var r := c[..i] + c[i + 1..];
      assert r[..|r| - 1] == c[..n][..i] + c[..n][i + 1..];
      assert r[|r| - 1] == c[n];
    }
  }

  lemma MultisetRemove(c: seq<int>, i: nat)
    requires i < |c|
    ensures multiset(c[..i] + c[i + 1..]) == multiset(c) - multiset{c[i]}
  {
    assert c == c[..i] + [c[i]] + c[i + 1..];
  }

  lemma {:induction false} SumOfPermutation(c: seq<int>, d: seq<int>)
    requires multiset(c) == multiset(d)
    ensures Sum(c) == Sum(d)
    decreases |c|
  {
    assert |multiset(c)| == |c| && |multiset(d)| == |d|;
    if c != [] {
      var n := |c| - 1;
      assert c[n] in multiset(c);
      var i :| 0 <= i < |d| && d[i] == c[n];
      var e := d[..i] + d[i + 1..];
      MultisetRemove(d, i);
      MultisetRemove(c, n);
      assert c[..n] + c[n + 1..] == c[..n];
      SumOfPermutation(c[..n], e);
      SumRemove(d, i);
    }
  }

  // Two orders of arrival that never saturate give the plain sum, and so the same mix.
  lemma OrderIrrelevantWithoutSaturation(c: seq<Sample>, d: seq<Sample>)
    requires c != [] && multiset(c) == multiset(d) && NeverSaturates(c) && NeverSaturates(d)
    ensures d != [] && SaturatedSum(c) == SaturatedSum(d) == Sum(c)
  {
    assert c[0] in multiset(d);
    SaturatedSumIsSum(c);
    SaturatedSumIsSum(d);
    var c', d': seq<int> := c, d;
    SumOfPermutation(c', d');
  }

  // With saturation the order matters.
  lemma OrderMattersWithSaturation()
    ensures SaturatedSum([30000, 30000, -30000]) == 2767
    ensures SaturatedSum([30000, -30000, 30000]) == 30000
  {
    var c: seq<Sample>, d: seq<Sample> := [30000, 30000, -30000], [30000, -30000, 30000];
    assert c[..2] == [30000, 30000] && c[..2][..1] == [30000];
    assert d[..2] == [30000, -30000] && d[..2][..1] == [30000];
  }

  // ------------------------------------------------------------------
  // The history of a mix buffer.
  // ------------------------------------------------------------------

  // One accepted write: its samples and the absolute position of the first,
  // counted from the start of the run.
  datatype Put = Put(start: nat, samples: seq<Sample>)

  // What was written at absolute position p, in order of arrival.
  function Arrivals(log: seq<Put>, p: nat): seq<Sample> {
    if log == [] then []
    else
      var last, before := log[|log| - 1], Arrivals(log[..|log| - 1], p);
      if last.start <= p < last.start + |last.samples| then before + [last.samples[p - last.start]] else before
  }

  predicate IsMixOf(x: Sample, c: seq<Sample>) {
    c != [] && x == SaturatedSum(c)
  }

  // c holds the mix of the log from absolute position base on, and nothing was
  // written behind it.
  ghost predicate Represents(c: seq<Sample>, base: nat, log: seq<Put>) {
    forall p: nat {:trigger Arrivals(log, p)} :: base <= p ==>
      if p < base + |c| then IsMixOf(c[p - base], Arrivals(log, p)) else Arrivals(log, p) == []
  }

  // c with data mixed in from index off on.
  function Mixed(c: seq<Sample>, off: nat, data: seq<Sample>): (r: seq<Sample>)
    requires off <= |c|
    ensures |r| == if off + |data| <= |c| then |c| else off + |data|
  {
    var n := if off + |data| <= |c| then |c| else off + |data|;
    seq(n, i requires 0 <= i < n =>
      if i < off || i >= off + |data| then c[i]
      else if i < |c| then SaturatedAdd(c[i], data[i - off])
      else data[i - off])
  }

  lemma ArrivalsOfPut(log: seq<Put>, put: Put, p: nat)
    ensures Arrivals(log + [put], p) ==
      if put.start <= p < put.start + |put.samples| then Arrivals(log, p) + [put.samples[p - put.start]]
      else Arrivals(log, p)
  {
    assert (log + [put])[..|log|] == log;
  }

  lemma SaturatedSumOfNext(c: seq<Sample>, x: Sample)
    ensures SaturatedSum(c + [x]) == if c == [] then x else SaturatedAdd(SaturatedSum(c), x)
  {
    assert (c + [x])[..|c|] == c;
  }

  lemma MixedHolds(r: seq<Sample>, c: seq<Sample>, base: nat, log: seq<Put>, put: Put, p: nat)
    requires put.start >= base && put.start - base <= |c| && base <= p
    requires r == Mixed(c, put.start - base, put.samples)
    requires if p < base + |c| then IsMixOf(c[p - base], Arrivals(log, p)) else Arrivals(log, p) == []
    ensures if p < base + |r| then IsMixOf(r[p - base], Arrivals(log + [put], p)) else Arrivals(log + [put], p) == []
  {
    ArrivalsOfPut(log, put, p);
    if put.start <= p < put.start + |put.samples| {
      SaturatedSumOfNext(Arrivals(log, p), put.samples[p - put.start]);
    }
  }

  // Mixing a write into the contents and logging it keep the two in step.
  lemma MixedRepresents(c: seq<Sample>, base: nat, log: seq<Put>, off: nat, data: seq<Sample>)
    requires off <= |c| && Represents(c, base, log)
    ensures Represents(Mixed(c, off, data), base, log + [Put(base + off, data)])
  {
    hide Mixed, IsMixOf;
    var r, put := Mixed(c, off, data), Put(base + off, data);
    forall p: nat {:trigger Arrivals(log + [put], p)} | base <= p
      ensures if p < base + |r| then IsMixOf(r[p - base], Arrivals(log + [put], p)) else Arrivals(log + [put], p) == []
    {
      var before := Arrivals(log, p);
      MixedHolds(r, c, base, log, put, p);
    }
  }

  // Every sample that left the buffer was the mix of what was written to it.
  ghost predicate Delivered(out: seq<Sample>, log: seq<Put>) {
    forall p: nat {:trigger Arrivals(log, p)} :: p < |out| ==> IsMixOf(out[p], Arrivals(log, p))
  }

  lemma OutGrows(out: seq<Sample>, c: seq<Sample>, n: nat, log: seq<Put>)
    requires n <= |c| && Represents(c, |out|, log) && Delivered(out, log)
    ensures Delivered(out + c[..n], log)
  {
  }

  // Later writes never reach back to what has left the buffer.
  lemma DeliveredStays(out: seq<Sample>, log: seq<Put>, put: Put)
    requires Delivered(out, log) && |out| <= put.start
    ensures Delivered(out, log + [put])
  {
    hide IsMixOf;
    forall p: nat {:trigger Arrivals(log + [put], p)} | p < |out|
      ensures IsMixOf(out[p], Arrivals(log + [put], p))
    {
      ArrivalsOfPut(log, put, p);
    }
  }

  lemma DroppedRepresents(c: seq<Sample>, base: nat, log: seq<Put>, n: nat)
    requires n <= |c| && Represents(c, base, log)
    ensures Represents(c[n..], base + n, log)
  {
  }

  // The mixing write touches only what it covers.
  lemma OverlaidInside(now: seq<Sample>, was: seq<Sample>, read: nat, used: nat, off: nat, data: seq<Sample>)
    requires off + |data| <= used <= |was| && (read < |was| || read == |was| == 0)
    requires Overlaid(now, was, Wrap(read + off, |was|), data, SaturatedAdd)
    ensures View(now, read, used) == Mixed(View(was, read, used), off, data)
  {
    var v, w := View(now, read, used), Mixed(View(was, read, used), off, data);
    forall i | 0 <= i < used
      ensures v[i] == w[i]
    {
      assert v[i] == now[Wrap(read + i, |now|)];
      assert View(was, read, used)[i] == was[Wrap(read + i, |was|)];
    }
  }

  // ------------------------------------------------------------------
  // The structures.
  // ------------------------------------------------------------------

  class MixStream {
    var used: nat
    var write: nat
    // The absolute position behind the last sample this stream wrote, or where
    // the reader was when the stream was attached.
    ghost var end: nat

    constructor ()
      ensures used == write == end == 0
    {
      used, write, end := 0, 0, 0;
    }
  }

  class MixBuffer {
    const rb: RingBuffer<Sample>
    var streams: seq<MixStream>
    var attached: nat

    // The run so far: every accepted write, and every sample that left the
    // buffer at the reading end, in order.
    ghost var log: seq<Put>
    ghost var out: seq<Sample>

    // Each stream is behind the ring's contents and points just behind its own
    // part of them; the next sample of a stream goes behind its previous one,
    // unless the reader has passed that.
    ghost predicate StreamValid(s: MixStream)
      reads this`out, rb, s
    {
      && s.used <= rb.used
      && s.write == Wrap(rb.read + s.used, rb.size)
      && |out| + s.used == if s.end < |out| then |out| else s.end
    }

    ghost predicate RingValid()
      reads this`out, this`log, rb, rb.buffer
    {
      && rb.Valid()
      && rb.write == Wrap(rb.read + rb.used, rb.size)
      && Represents(rb.Contents(), |out|, log)
      && Delivered(out, log)
    }

    ghost predicate Valid()
      reads this, rb, rb.buffer, streams
    {
      && RingValid()
      && attached == |streams|
      && Distinct(streams)
      && (forall s :: s in streams ==> StreamValid(s))
    }

    // mixb_init
    constructor (buf: array<Sample>)
      ensures Valid() && streams == [] && log == [] && out == []
      ensures fresh(rb) && rb.buffer == buf && rb.used == 0
    {
      rb := new RingBuffer(buf);
      streams, attached := [], 0;
      log, out := [], [];
    }

    method Attach(stream: MixStream)
      requires Valid() && stream !in streams
      modifies this, stream
      ensures Valid() && streams == old(streams) + [stream] && stream.used == 0
      ensures log == old(log) && out == old(out) && rb.Contents() == old(rb.Contents())
    {
      stream.used := 0;
      stream.write := rb.read;
      stream.end := |out|;
      streams := streams + [stream];
      attached := attached + 1;
    }

    method Detach(stream: MixStream)
      requires Valid() && stream in streams
      modifies this`streams, this`attached
      ensures Valid() && stream !in streams
      ensures exists k :: 0 <= k < |old(streams)| && streams == RemoveAt(old(streams), k)
    {
      attached := attached - 1;
      var k := 0;
      while streams[k] != stream
        invariant k < |streams| && stream in streams[k..]
        decreases |streams| - k
      {
        k := k + 1;
      }
      RemoveDistinct(streams, k);
      streams := RemoveAt(streams, k);
    }

    function Free(stream: MixStream): nat
      requires stream.used <= rb.size
      reads stream
    {
      rb.size - stream.used
    }

    // Mix into the contents with the stream's cursors swapped into the ring.
    method MixWrite(stream: MixStream, data: seq<Sample>) returns (rv: nat)
      requires rb.Valid() && rb.write == Wrap(rb.read + rb.used, rb.size)
      requires stream.write == Wrap(rb.read + stream.used, rb.size) && stream.used + |data| <= rb.used
      modifies rb, rb.buffer, stream`used, stream`write
      ensures rb.Valid() && rb.read == old(rb.read) && rb.used == old(rb.used) && rb.write == old(rb.write)
      ensures rv == |data| && stream.used == old(stream.used) + |data|
      ensures stream.write == Wrap(rb.read + stream.used, rb.size)
      ensures rb.Contents() == Mixed(old(rb.Contents()), old(stream.used), data)
    {
      var save_write, save_used := rb.write, rb.used;
      rb.write, rb.used := stream.write, stream.used;
      rv := rb.WriteCore(data, SaturatedAdd);
      stream.write, stream.used := rb.write, rb.used;
      rb.used, rb.write := save_used, save_write;
      assert data[..rv] == data;
      OverlaidInside(rb.buffer[..], old(rb.buffer[..]), rb.read, rb.used, old(stream.used), data);
    }

    // The ring side of mixb_write: mix what lies under the contents, copy the rest
    // behind them.
    method Place(stream: MixStream, data: seq<Sample>)
      requires rb.Valid() && rb.write == Wrap(rb.read + rb.used, rb.size)
      requires stream.used <= rb.used && stream.write == Wrap(rb.read + stream.used, rb.size)
      requires 0 < |data| <= rb.size - stream.used
      modifies rb, rb.buffer, stream`used, stream`write
      ensures rb.Valid() && rb.write == Wrap(rb.read + rb.used, rb.size) && rb.read == old(rb.read)
      ensures rb.Contents() == Mixed(old(rb.Contents()), old(stream.used), data)
      ensures stream.used == old(stream.used) + |data| && stream.write == Wrap(rb.read + stream.used, rb.size)
    {
      ghost var flat, off := rb.Contents(), stream.used;
      var max_mix := rb.used - stream.used;
      if |data| > max_mix {
        if max_mix > 0 {
          var _ := MixWrite(stream, data[..max_mix]);
        } else {
          assert Mixed(flat, off, data[..max_mix]) == flat;
        }
        var rest := data[max_mix..];
        var n := rb.Write(rest);
        assert rest[..n] == rest;
        MixedInTwo(flat, off, data, max_mix);
        stream.write := rb.write;
        stream.used := rb.used;
      } else {
        var _ := MixWrite(stream, data);
      }
    }

    // mixb_write
    method Write(stream: MixStream, data: seq<Sample>) returns (len: nat)
      requires Valid() && stream in streams
      modifies this`log, rb, rb.buffer, stream
      ensures Valid() && rb.read == old(rb.read)
      ensures len == if old(Free(stream)) < |data| then old(Free(stream)) else |data|
      ensures rb.Contents() == Mixed(old(rb.Contents()), old(stream.used), data[..len])
      ensures stream.used == old(stream.used) + len
      ensures log == if len == 0 then old(log) else old(log) + [Put(|out| + old(stream.used), data[..len])]
    {
      var max_mix := Free(stream);
      len := if max_mix < |data| then max_mix else |data|;
      if len > 0 {
        WriteFitting(stream, data[..len]);
      } else {
        assert Mixed(rb.Contents(), stream.used, data[..len]) == rb.Contents();
      }
    }

    method WriteFitting(stream: MixStream, data: seq<Sample>)
      requires Valid() && stream in streams && 0 < |data| <= Free(stream)
      modifies this`log, rb, rb.buffer, stream
      ensures Valid() && rb.read == old(rb.read)
      ensures rb.Contents() == Mixed(old(rb.Contents()), old(stream.used), data)
      ensures stream.used == old(stream.used) + |data|
      ensures log == old(log) + [Put(|out| + old(stream.used), data)]
    {
      hide Represents, Delivered, Distinct;
      ghost var flat, off := rb.Contents(), stream.used;
      Place(stream, data);
      LogPut(flat, off, data);
      stream.end := |out| + off + |data|;
      assert |rb.Contents()| == rb.used >= old(rb.used);
      forall s | s in streams && s != stream
        ensures StreamValid(s)
      {
        assert old(StreamValid(s));
      }
    }

    ghost method LogPut(flat: seq<Sample>, off: nat, data: seq<Sample>)
      requires rb.Valid() && rb.write == Wrap(rb.read + rb.used, rb.size)
      requires off <= |flat| && Represents(flat, |out|, log) && rb.Contents() == Mixed(flat, off, data)
      requires Delivered(out, log)
      modifies this`log
      ensures log == old(log) + [Put(|out| + off, data)]
      ensures RingValid()
    {
      hide Represents, Delivered, Mixed;
      ghost var put := Put(|out| + off, data);
      MixedRepresents(flat, |out|, log, off, data);
      DeliveredStays(out, log, put);
      log := log + [put];
    }

    // What mixb_read_upd does to one stream.
    method Advance(stream: MixStream, len: nat)
      modifies stream`used, stream`write
      ensures stream.used == if old(stream.used) > len then old(stream.used) - len else 0
      ensures stream.write == Wrap(rb.read + stream.used, rb.size)
    {
      if stream.used > len {
        stream.used := stream.used - len;
      } else {
        stream.used := 0;
      }
      stream.write := rb.read + stream.used;
      if stream.write >= rb.size {
        stream.write := stream.write - rb.size;
      }
    }

    // The ring side of mixb_read_upd.
    method Consume(len: nat) returns (rv: nat)
      requires RingValid()
      modifies this`out, rb
      ensures RingValid()
      ensures rv == if old(rb.used) < len then old(rb.used) else len
      ensures out == old(out) + old(rb.Contents())[..rv]
      ensures rb.Contents() == old(rb.Contents())[rv..]
    {
      hide Represents, Delivered;
      ghost var flat := rb.Contents();
      rv := rb.ReadUpd(len);
      DroppedRepresents(flat, |out|, log, rv);
      OutGrows(out, flat, rv, log);
      out := out + flat[..rv];
    }

    // mixb_read_upd
    method ReadUpd(len: nat) returns (rv: nat)
      requires Valid()
      modifies this`out, rb, streams
      ensures Valid()
      ensures rv == if old(rb.used) < len then old(rb.used) else len
      ensures out == old(out) + old(rb.Contents())[..rv]
      ensures rb.Contents() == old(rb.Contents())[rv..]
      ensures forall s :: s in streams ==> s.end == old(s.end)
      ensures forall s :: s in streams ==> s.used == if old(s.used) > len then old(s.used) - len else 0
    {
      rv := Consume(len);
      AdvanceAll(len);
      forall s | s in streams
        ensures StreamValid(s)
      {
        assert old(StreamValid(s));
      }
    }

    // The traversal of mixb_read_upd.
    method AdvanceAll(len: nat)
      requires Distinct(streams)
      modifies streams
      ensures forall s :: s in streams ==> s.end == old(s.end) && s.write == Wrap(rb.read + s.used, rb.size)
      ensures forall s :: s in streams ==> s.used == if old(s.used) > len then old(s.used) - len else 0
    {
      var k := 0;
      while k < |streams|
        invariant k <= |streams|
        invariant forall s :: s in streams ==> s.end == old(s.end)
        invariant forall s :: s in streams[..k] ==> s.used == if old(s.used) > len then old(s.used) - len else 0
        invariant forall s :: s in streams[..k] ==> s.write == Wrap(rb.read + s.used, rb.size)
        invariant forall s :: s in streams[k..] ==> s.used == old(s.used)
      {
        assert streams[k..] == [streams[k]] + streams[k + 1..];
        assert streams[..k + 1] == streams[..k] + [streams[k]];
        assert streams[k] !in streams[..k] && streams[k] !in streams[k + 1..];
        Advance(streams[k], len);
        k := k + 1;
      }
      assert streams[..k] == streams;
    }
  }

  // Mixing what fits under the contents and appending the rest is one mix.
  lemma MixedInTwo(c: seq<Sample>, off: nat, data: seq<Sample>, m: nat)
    requires off + m == |c| && m <= |data|
    ensures Mixed(c, off, data) == Mixed(c, off, data[..m]) + data[m..]
  {
  }
}
