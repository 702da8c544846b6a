// The audio paths of channel.c that drive the mix buffer: the timer tick that sends
// one frame to the device, and a channel writing a frame of its own.
module Audio {
  import opened Sequences
  import opened RingBuffers
  import opened MixBuffers

  // FRAME_SIZE is 320 bytes.
  const FRAME: nat := 160

  function Silence(n: nat): seq<Sample> {
    seq(n, _ => 0)
  }

  // The first k samples of c, or all of them.
  function Head(c: seq<Sample>, k: nat): seq<Sample> {
    if k <= |c| then c[..k] else c
  }

  // timing_write: the result is what goes to iov_write.
  method TimingWrite(mb: MixBuffer) returns (frame: seq<Sample>)
    requires mb.Valid()
    modifies mb`out, mb.rb, mb.streams
    ensures mb.Valid() && |frame| == FRAME
    ensures frame == Head(old(mb.rb.Contents()), FRAME) + Silence(FRAME - |Head(old(mb.rb.Contents()), FRAME)|)
    ensures mb.out == old(mb.out) + Head(old(mb.rb.Contents()), FRAME)
    ensures old(mb.rb.Contents()) == Head(old(mb.rb.Contents()), FRAME) + mb.rb.Contents()
    ensures HoldsMix(frame, mb.log, |old(mb.out)|, |Head(old(mb.rb.Contents()), FRAME)|)
    // 160 samples, and nothing to be heard behind those there were
    ensures |frame| == 160 && forall k :: |old(mb.rb.Contents())| <= k < 160 ==> frame[k] == 0
  {
    hide HoldsMix;
    ghost var flat := mb.rb.Contents();
    var buf := mb.rb.buffer[..];
    var used := mb.rb.used;
    if used >= FRAME {
      var n, v0, v1 := mb.rb.ReadNIov(FRAME);
      CoversPrefix(buf, mb.rb.read, used, n, v0, v1, FRAME);
      var _ := mb.ReadUpd(FRAME);
      frame := Gather(buf, n, v0, v1);
      assert flat == flat[..FRAME] + flat[FRAME..];
    } else if used > 0 {
      var n, v0, v1 := mb.rb.ReadAllIov();
      CoversPrefix(buf, mb.rb.read, used, n, v0, v1, used);
      var _ := mb.ReadUpd(used);
      frame := Gather(buf, n, v0, v1) + Silence(FRAME - used);
      assert flat[..used] == flat;
    } else {
      frame := Silence(FRAME);
    }
    TickSamples(mb.out, mb.log, |old(mb.out)|, frame, |Head(flat, FRAME)|);
  }

  // The first n samples are, position by position, the saturating sums of what the
  // streams wrote there.
  ghost predicate HoldsMix(frame: seq<Sample>, log: seq<Put>, before: nat, n: nat) {
    && n <= |frame|
    && forall k :: 0 <= k < n ==>
         Arrivals(log, before + k) != [] && frame[k] == SaturatedSum(Arrivals(log, before + k))
  }

  lemma TickSamples(out: seq<Sample>, log: seq<Put>, before: nat, frame: seq<Sample>, n: nat)
    requires Delivered(out, log) && before + n <= |out| && n <= |frame|
    requires forall k :: 0 <= k < n ==> frame[k] == out[before + k]
    ensures HoldsMix(frame, log, before, n)
  {
    forall k | 0 <= k < n
      ensures Arrivals(log, before + k) != [] && frame[k] == SaturatedSum(Arrivals(log, before + k))
    {
      TickSample(out, log, before, k);
    }
  }

  // The samples of a tick are, position by position, the saturating sums of what
  // the streams wrote there.
  lemma TickSample(out: seq<Sample>, log: seq<Put>, before: nat, k: nat)
    requires Delivered(out, log) && before + k < |out|
    ensures Arrivals(log, before + k) != [] && out[before + k] == SaturatedSum(Arrivals(log, before + k))
  {
    assert IsMixOf(out[before + k], Arrivals(log, before + k));
  }

  function Excess(x: nat, y: nat): nat {
    if x > y then x - y else 0
  }

  // The overflow path: drop from the oldest end what the stream lacks in room.
  method MakeRoom(mb: MixBuffer, stream: MixStream, n: nat)
    requires mb.Valid() && stream in mb.streams
    modifies mb`out, mb.rb, mb.streams
    ensures mb.Valid()
    ensures var shortfall := Excess(n, old(mb.Free(stream)));
      && mb.out == old(mb.out) + Head(old(mb.rb.Contents()), shortfall)
      && old(mb.rb.Contents()) == Head(old(mb.rb.Contents()), shortfall) + mb.rb.Contents()
      && stream.used == Excess(old(stream.used), shortfall)
    // nothing is dropped when there is room, and never more than is lacking
    ensures old(mb.Free(stream)) >= n ==> mb.out == old(mb.out)
    ensures old(mb.Free(stream)) < n && n - old(mb.Free(stream)) <= |old(mb.rb.Contents())| ==>
              |mb.out| == |old(mb.out)| + (n - old(mb.Free(stream)))
  {
    hide Represents, Delivered, Distinct, View;
    ghost var flat := mb.rb.Contents();
    var count := mb.Free(stream);
    HeadAndRest(flat, Excess(n, count));
    if count < n {
      var rv := mb.ReadUpd(n - count);
      assert flat[..rv] == Head(flat, n - count);
    }
  }

  lemma HeadAndRest(c: seq<Sample>, k: nat)
    ensures c == Head(c, k) + c[|Head(c, k)|..]
    ensures k == 0 ==> Head(c, k) == []
  {
  }

  // channel_write with a timer: make room, then mix.
  method ChannelWrite(mb: MixBuffer, stream: MixStream, data: seq<Sample>)
    returns (accepted: nat, ghost kept: seq<Sample>, ghost off: nat)
    requires mb.Valid() && stream in mb.streams
    modifies mb`out, mb`log, mb.rb, mb.rb.buffer, mb.streams
    ensures mb.Valid()
    // a frame no longer than the buffer is taken whole
    ensures accepted == if |data| <= mb.rb.size then |data| else mb.rb.size
    // only the shortfall is dropped, from the oldest samples
    ensures var shortfall := Excess(|data|, old(mb.Free(stream)));
      && mb.out == old(mb.out) + Head(old(mb.rb.Contents()), shortfall)
      && old(mb.rb.Contents()) == Head(old(mb.rb.Contents()), shortfall) + kept
      && off == Excess(old(stream.used), shortfall) <= |kept|
    // the frame is mixed in behind what the stream still has to be played
    ensures mb.rb.Contents() == Mixed(kept, off, data[..accepted])
    ensures mb.log == if accepted == 0 then old(mb.log) else old(mb.log) + [Put(|mb.out| + off, data[..accepted])]
  {
    hide Represents, Delivered, Distinct, View, Mixed;
    MakeRoom(mb, stream, |data|);
    kept, off := mb.rb.Contents(), stream.used;
    accepted := mb.Write(stream, data);
  }
}
