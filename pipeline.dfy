/** The threads of the main script, one pass of each loop at a time: the
    collector drains every chip into a shared queue, and the UDP sender and
    the file writer take everything queued, in order, and ship it as one
    packet or as numbered text lines.

    Threads, sleeps, timeouts and the clock are not modelled: each pass runs
    alone against the queue, and the time a pass reads is a parameter. */
module Pipeline {
  import opened Common
  import opened Icm20689Regs
  import opened Spi
  import opened Samples
  import opened Packets
  import opened Device

  /** What one read_fifo_data call puts on the queue. */
  type Batch = seq<MpuDataPoint>

  /** The points of the batches, batch after batch. */
  function Concat(bs: seq<Batch>): (ps: Batch)
  {
    if bs == [] then [] else bs[0] + Concat(bs[1..])
  }

  /** The sum of the batch sizes. */
  function TotalLength(bs: seq<Batch>): nat
  {
    if bs == [] then 0 else |bs[0]| + TotalLength(bs[1..])
  }

  /** Coalescing loses no point and adds none. */
  lemma {:induction false} ConcatLength(bs: seq<Batch>)
    ensures |Concat(bs)| == TotalLength(bs)
  {
    if bs != [] {
      ConcatLength(bs[1..]);
    }
  }

  /** Coalescing in two goes is coalescing at once. */
  lemma {:induction false} ConcatAppend(a: seq<Batch>, b: seq<Batch>)
    ensures Concat(a + b) == Concat(a) + Concat(b)
  {
    if a == [] {
      assert a + b == b;
    } else {
      assert (a + b)[1..] == a[1..] + b;
      ConcatAppend(a[1..], b);
    }
  }

  /** Order is kept: point j of batch i sits right after the points of the
      batches before it. */
  lemma {:induction false} ConcatPosition(bs: seq<Batch>, i: nat, j: nat)
    requires i < |bs| && j < |bs[i]|
    ensures TotalLength(bs[..i]) + j < |Concat(bs)|
    ensures Concat(bs)[TotalLength(bs[..i]) + j] == bs[i][j]
  {
    ConcatLength(bs);
    if i == 0 {
      assert bs[..0] == [];
    } else {
      assert bs[..i][1..] == bs[1..][..i - 1];
      ConcatPosition(bs[1..], i - 1, j);
    }
  }

  /** The queue.Queue the threads share (unbounded). */
  class SampleQueue {
    var items: seq<Batch>

    constructor ()
      ensures items == []
    {
      items := [];
    }

    /** `put(data)`. */
    method Put(b: Batch)
      modifies this
      ensures items == old(items) + [b]
    {
      items := items + [b];
    }

    /** `get`: the oldest batch, or None where the source gets Empty (a
        `get(timeout=1)` that times out, a `get(block=False)` on an empty
        queue). */
    method Get() returns (r: Option<Batch>)
      modifies this
      ensures old(items) == [] ==> r == None && items == []
      ensures old(items) != [] ==> r == Some(old(items)[0]) && items == old(items)[1..]
    {
      if items == [] {
        return None;
      }
      r := Some(items[0]);
      items := items[1..];
    }

    /** `empty()`. */
    method Empty() returns (e: bool)
      ensures e <==> items == []
    {
      e := items == [];
    }
  }

  /** The inner loop of both consumers: `while not queue.empty():
      data.extend(queue.get(block=False))`. It leaves the queue empty and
      appends every batch that was queued, oldest first. */
  method Coalesce(q: SampleQueue, first: Batch) returns (data: Batch)
    modifies q
    ensures data == first + Concat(old(q.items)) && q.items == []
  {
    data := first;
    ghost var pending := q.items;
    ghost var k := 0;
    var empty := q.Empty();
    while !empty
      invariant 0 <= k <= |pending| && q.items == pending[k..]
      invariant data == first + Concat(pending[..k])
      invariant empty <==> q.items == []
      decreases |q.items|
    {
      var b := q.Get();
      ConcatAppend(pending[..k], [pending[k]]);
      assert pending[..k + 1] == pending[..k] + [pending[k]];
      assert Concat([pending[k]]) == pending[k] + Concat([]);
      data := data + b.value;
      k := k + 1;
      assert pending[k..] == pending[k - 1..][1..];
      empty := q.Empty();
    }
    assert pending[..k] == pending;
  }

  /** UdpNetworkSenderThread (TcpNetworkSenderThread runs the same code over
      a stream socket): the datagrams it has sent, in order. */
  class UdpNetworkSender {
    const queue: SampleQueue
    const enc: real -> Bytes8
    var sent: seq<seq<byte>>

    constructor (q: SampleQueue, enc: real -> Bytes8)
      ensures queue == q && this.enc == enc && sent == []
    {
      queue := q;
      this.enc := enc;
      sent := [];
    }

    /** One pass of run's loop. On an empty queue the timed get gives Empty
        and nothing happens (`Ok(None)`). Otherwise the first batch and every
        batch queued behind it become one MpuDataPacket, sent as one
        datagram, and the pass answers the point count it prints. A point
        whose id does not fit `!i` makes serialize raise struct.error, which
        nothing catches: the thread ends with nothing sent. */
    method Step() returns (r: Result<Option<nat>>)
      modifies this, queue
      ensures queue.items == []
      ensures old(queue.items) == [] ==> r == Ok(None) && sent == old(sent)
      ensures old(queue.items) != [] ==>
        var data := Concat(old(queue.items));
        match PacketBytes(data, enc)
        case Ok(packet) => r == Ok(Some(|data|)) && sent == old(sent) + [packet]
        case Err(f) => r == Err(f) && sent == old(sent)
    {
      ghost var items := queue.items;
      var first := queue.Get();
      if first.None? {
        return Ok(None);
      }
      var data := Coalesce(queue, first.value);
      assert data == Concat(items) by {
        assert items == [items[0]] + items[1..];
      }
      var packet := SerializePacket(data, enc);
      if packet.Err? {
        return Err(packet.fault);
      }
      sent := sent + [packet.value];
      r := Ok(Some(|data|));
    }
  }

  /** The datagram of a pass announces as many points as the coalesced
      batches hold together, and carries that many records. */
  lemma SentPacketCount(bs: seq<Batch>, enc: real -> Bytes8)
    requires PacketBytes(Concat(bs), enc).Ok?
    ensures var packet := PacketBytes(Concat(bs), enc).value;
      UnpackInt32(packet[..4]) == TotalLength(bs) && |packet| == 4 + 52 * TotalLength(bs)
  {
    ConcatLength(bs);
    PacketRoundTrip(Concat(bs), enc);
  }

  /** Its records keep the queue order: record TotalLength(bs[..i]) + j is
      point j of batch i. */
  lemma SentPacketOrder(bs: seq<Batch>, enc: real -> Bytes8, i: nat, j: nat)
    requires PacketBytes(Concat(bs), enc).Ok? && i < |bs| && j < |bs[i]|
    ensures var w := ParsePacket(PacketBytes(Concat(bs), enc).value);
      w.Some? && TotalLength(bs[..i]) + j < |w.value| &&
      w.value[TotalLength(bs[..i]) + j] == Encode(bs[i][j], enc)
  {
    var ps := Concat(bs);
    var k := TotalLength(bs[..i]) + j;
    PacketRoundTrip(ps, enc);
    ConcatPosition(bs, i, j);
    assert EncodeAll(ps, enc)[k] == Encode(ps[k], enc);
  }

  /** One text line of Write2FileThread: the sample number, the time of the
      get and the six readings as `%d` prints them, truncated toward zero. */
  datatype Line = Line(sampNum: int, retTime: real, accel: (int, int, int), gyro: (int, int, int))

  /** The line for point p with sample number n: every reading is printed
      with its fraction dropped. */
  function LineOf(n: int, retTime: real, p: MpuDataPoint): (l: Line)
    ensures l.sampNum == n && l.retTime == retTime
    ensures TruncatedTo(p.accel.x, l.accel.0) && TruncatedTo(p.accel.y, l.accel.1) && TruncatedTo(p.accel.z, l.accel.2)
    ensures TruncatedTo(p.gyro.x, l.gyro.0) && TruncatedTo(p.gyro.y, l.gyro.1) && TruncatedTo(p.gyro.z, l.gyro.2)
  {
    Line(n, retTime, (Trunc(p.accel.x), Trunc(p.accel.y), Trunc(p.accel.z)),
      (Trunc(p.gyro.x), Trunc(p.gyro.y), Trunc(p.gyro.z)))
  }

  /** The lines for a coalesced batch written after sample number `last`. */
  function Lines(last: int, retTime: real, ps: Batch): (ls: seq<Line>)
    ensures |ls| == |ps|
  {
    seq(|ps|, i requires 0 <= i < |ps| => LineOf(last + i + 1, retTime, ps[i]))
  }

  /** Writing two batches in a row numbers the second after the first. */
  lemma LinesAppend(last: int, retTime: real, a: Batch, b: Batch)
    ensures Lines(last, retTime, a + b) == Lines(last, retTime, a) + Lines(last + |a|, retTime, b)
  {
    var l, r := Lines(last, retTime, a + b), Lines(last, retTime, a) + Lines(last + |a|, retTime, b);
    forall i | 0 <= i < |l| ensures l[i] == r[i] {
      if i >= |a| {
        assert (a + b)[i] == b[i - |a|];
      }
    }
  }

  /** Write2FileThread: the lines of temp.txt and the sample counter. */
  class Write2File {
    const queue: SampleQueue
    /** The `sampNum` the thread was made with. */
    const start: int
    var sampNum: int
    var lines: seq<Line>

    /** The file holds one line per sample, numbered from start + 1 on
        without a gap, and the counter is the number of the last one. */
    ghost predicate Valid()
      reads this
    {
      sampNum == start + |lines| &&
      forall i :: 0 <= i < |lines| ==> lines[i].sampNum == start + i + 1
    }

    constructor (q: SampleQueue, sampNum0: int)
      ensures Valid() && queue == q && start == sampNum0 && lines == []
    {
      queue := q;
      start := sampNum0;
      sampNum := sampNum0;
      lines := [];
    }

    /** One pass of run's loop; `retTime` is `time.time() - start` taken
        right after the first get. On an empty queue nothing is written and
        the pass answers false. */
    method Step(retTime: real) returns (got: bool)
      requires Valid()
      modifies this, queue
      ensures Valid() && queue.items == []
      ensures got <==> old(queue.items) != []
      ensures lines == old(lines) + Lines(old(sampNum), retTime, Concat(old(queue.items)))
    {
      ghost var items := queue.items;
      var first := queue.Get();
      if first.None? {
        assert Lines(sampNum, retTime, Concat(items)) == [];
        return false;
      }
      var data := Coalesce(queue, first.value);
      assert data == Concat(items) by {
        assert items == [items[0]] + items[1..];
      }
      ghost var lines0 := lines;
      ghost var last := sampNum;
      for x := 0 to |data|
        invariant sampNum == last + x && queue.items == []
        invariant lines == lines0 + Lines(last, retTime, data[..x])
      {
        sampNum := sampNum + 1;
        LinesAppend(last, retTime, data[..x], [data[x]]);
        assert data[..x + 1] == data[..x] + [data[x]];
        lines := lines + [LineOf(sampNum, retTime, data[x])];
      }
      assert data[..|data|] == data;
      got := true;
    }
  }

  /** What draining one chip does, as a function of the chip's state. */
  ghost function ChipDrain(c: Icm20689): Drain
    reads c, c.bus
    requires c.Valid()
  {
    SpiDrain(c.bus.peer, c.mpuId, c.accelRangeCached, c.gyroRangeCached)
  }

  /** enable_fifo has run on chip c since the earlier state. */
  twostate predicate FifoEnabled(c: Icm20689)
    requires old(c.Valid())
    reads c.bus
  {
    c.bus.peer == EnableFifoOn(old(c.bus.peer)) &&
    c.bus.log == old(c.bus.log) + EnableFifoEvents(old(c.bus.peer).regs[Address(USER_CTRL)])
  }

  /** Chip c has been drained since the earlier state: its bus is where that
      drain leaves it. */
  twostate predicate Drained(c: Icm20689)
    requires old(c.Valid())
    reads c.bus
  {
    var d := old(ChipDrain(c));
    c.bus.peer == d.peer && c.bus.log == old(c.bus.log) + d.events
  }

  /** DataCollectionThread: the chips, in order, and the queue it fills. */
  class DataCollector {
    const queue: SampleQueue
    const chips: seq<Icm20689>

    /** Every chip is ready and each sits on its own bus. */
    ghost predicate Valid()
      reads set c | c in chips :: c.bus
    {
      (forall i :: 0 <= i < |chips| ==> chips[i].Valid()) &&
      forall i, j :: 0 <= i < j < |chips| ==> chips[i].bus != chips[j].bus
    }

    constructor (q: SampleQueue, cs: seq<Icm20689>)
      ensures queue == q && chips == cs
    {
      queue := q;
      chips := cs;
    }

    /** The start of run: enable_fifo on each chip, in order. */
    method Start()
      requires Valid()
      modifies set c | c in chips :: c.bus
      ensures Valid()
      ensures forall i :: 0 <= i < |chips| ==> FifoEnabled(chips[i])
    {
      for n := 0 to |chips|
        invariant Valid()
        invariant forall i :: 0 <= i < n ==> FifoEnabled(chips[i])
        invariant forall i :: n <= i < |chips| ==> unchanged(chips[i].bus)
      {
        chips[n].EnableFifo();
      }
    }

    /** The body of that pass for chip n: `queue.put(chip.read_fifo_data())`. */
    method Collect(n: nat) returns (data: Result<Batch>)
      requires Valid() && n < |chips|
      modifies queue, chips[n].bus
      ensures Valid()
      ensures data == old(ChipDrain(chips[n])).result && Drained(chips[n])
      ensures queue.items == old(queue.items) + (if data.Ok? then [data.value] else [])
    {
      data := chips[n].ReadFifoData();
      if data.Ok? {
        queue.Put(data.value);
      }
    }

    /** One pass of run's loop: each chip in order is drained and its batch
        queued. The pass stops at the first chip whose read_fifo_data raises
        (IndexError on a negative count), which ends the thread: the chips
        before it have queued their batches, the failing chip has only had
        its count read, and the chips after it are untouched. */
    method Cycle() returns (r: Result<()>)
      requires Valid()
      modifies queue, set c | c in chips :: c.bus
      ensures Valid()
      ensures var n := |queue.items| - |old(queue.items)|;
        0 <= n <= |chips| && queue.items[..|old(queue.items)|] == old(queue.items) &&
        (r.Ok? <==> n == |chips|) &&
        (r.Err? ==> old(ChipDrain(chips[n])).result == Err(r.fault)) &&
        (forall i :: 0 <= i < n ==> Ok(queue.items[|old(queue.items)| + i]) == old(ChipDrain(chips[i])).result)
      ensures var m := |queue.items| - |old(queue.items)| + (if r.Ok? then 0 else 1);
        (forall i :: 0 <= i < m ==> Drained(chips[i])) &&
        (forall i :: m <= i < |chips| ==> unchanged(chips[i].bus))
    {
      ghost var q0 := queue.items;
      var n := 0;
      while n < |chips|
        invariant 0 <= n <= |chips| && Valid()
        invariant |queue.items| == |q0| + n && queue.items[..|q0|] == q0
        invariant forall i :: 0 <= i < n ==> Ok(queue.items[|q0| + i]) == old(ChipDrain(chips[i])).result && Drained(chips[i])
        invariant forall i :: n <= i < |chips| ==> unchanged(chips[i].bus)
      {
        var data := Collect(n);
        if data.Err? {
          return Err(data.fault);
        }
        n := n + 1;
      }
      r := Ok(());
    }
  }
}
