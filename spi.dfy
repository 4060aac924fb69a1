/** The SPI bus the Icm20689SPI driver talks through, with the sensor on the
    other end.

    The spidev and RPi.GPIO libraries are replaced by a log of what the
    driver does on the wire (chip-select edges and full-duplex transfers, in
    order) and by an abstract peer: a plain file of 128 one-byte registers
    plus the FIFO as a byte stream with a read cursor. Reading FIFO_R_W
    answers the byte at the cursor and advances it; any other read returns
    the register; a write frame stores its second byte in the addressed
    register. */
module Spi {
  import opened Common
  import opened Icm20689Regs

  /** One step of the driver on the bus: `GPIO.output(chip_select, level)`
      or `spidev.xfer(mosi)`. */
  datatype BusEvent = ChipSelect(level: nat) | Xfer(mosi: seq<byte>)

  /** The sensor as the bus sees it: its registers, the bytes its FIFO has
      queued, and how many of them the driver has read. */
  datatype Peer = Peer(regs: seq<byte>, fifo: seq<byte>, read: nat)
  {
    predicate Valid()
    {
      |regs| == 128
    }
  }

  /** Byte i of the FIFO stream; a drained FIFO reads as zeros. */
  function FifoByte(f: seq<byte>, i: nat): byte
  {
    if i < |f| then f[i] else 0
  }

  /** The n bytes the FIFO delivers from position `at` on. */
  function FifoTake(f: seq<byte>, at: nat, n: nat): (r: seq<byte>)
    ensures |r| == n
  {
    seq<byte>(n, i requires 0 <= i < n => FifoByte(f, at + i))
  }

  /** Wire value of the Python integer the driver passes to xfer: spidev
      keeps its low eight bits. */
  function WireByte(v: int): (b: byte)
    ensures (b - v) % 256 == 0
    ensures 0 <= v < 256 ==> b == v
  {
    v % 256
  }

  /** The read command for a register: its address with the top bit set. */
  function ReadCommand(r: Reg): (c: byte)
    ensures c >= 0x80
  {
    Address(r) + 0x80
  }

  /** It is the source's `register.value | 0x80`, since every address is
      below 0x80. */
  lemma ReadCommandIsOr(r: Reg)
    ensures ReadCommand(r) == Or(Address(r), 0x80)
    ensures ReadCommand(r) - 0x80 == Address(r)
  {
    assert Pow2(7) == 0x80;
    OrHighBit(Address(r), 7);
  }

  /** The frame of read_byte_data: `[register.value | 0x80, 0x00]`. The
      sensor tells it from a write by the top bit of its first byte. */
  function ReadFrame(r: Reg): (f: seq<byte>)
    ensures |f| == 2 && f[0] >= 0x80 && f[0] - 0x80 == Address(r) && f[1] == 0
  {
    [ReadCommand(r), 0x00]
  }

  /** The frame of write_byte_data: `[register.value, value]`, whose first
      byte has the top bit clear. */
  function WriteFrame(r: Reg, v: byte): (f: seq<byte>)
    ensures |f| == 2 && f[0] == Address(r) && f[0] < 0x80 && f[1] == v
  {
    [Address(r), v]
  }

  /** The frame of _bulk_transfer: `size + 1` bytes, the read command and
      then zeros. */
  function BulkFrame(r: Reg, size: nat): (f: seq<byte>)
    ensures |f| == size + 1 && f[0] == ReadCommand(r)
    ensures forall i :: 1 <= i < |f| ==> f[i] == 0
  {
    [ReadCommand(r)] + seq(size, _ => 0)
  }

  /** One bracketed transfer: chip select driven low, the frame, chip select
      driven high. */
  function Transaction(frame: seq<byte>): seq<BusEvent>
  {
    [ChipSelect(0), Xfer(frame), ChipSelect(1)]
  }

  /** n transactions with the same frame, one after the other. */
  function Repeat(frame: seq<byte>, n: nat): (log: seq<BusEvent>)
    ensures |log| == 3 * n
  {
    if n == 0 then [] else Repeat(frame, n - 1) + Transaction(frame)
  }

  /** The peer's answer to a frame: one byte back per byte sent. */
  function Miso(p: Peer, mosi: seq<byte>): (miso: seq<byte>)
    requires p.Valid()
    ensures |miso| == |mosi|
  {
    if |mosi| == 0 then []
    else if mosi[0] < 0x80 then seq(|mosi|, _ => 0)
    else if mosi[0] - 0x80 == Address(FIFO_R_W) then [0] + FifoTake(p.fifo, p.read, |mosi| - 1)
    else [0] + seq(|mosi| - 1, _ => p.regs[mosi[0] - 0x80])
  }

  /** The peer's state after a frame. */
  function After(p: Peer, mosi: seq<byte>): (q: Peer)
    requires p.Valid()
    ensures q.Valid()
  {
    if |mosi| == 0 then p
    else if mosi[0] < 0x80 then
      (if |mosi| >= 2 then p.(regs := p.regs[mosi[0] := mosi[1]]) else p)
    else if mosi[0] - 0x80 == Address(FIFO_R_W) then p.(read := p.read + |mosi| - 1)
    else p
  }

  /** read_byte_data(r) against the peer: the byte returned and the peer
      afterwards. Only FIFO_R_W has a side effect: it answers the FIFO byte
      at the cursor and moves the cursor past it. */
  function ReadOn(p: Peer, r: Reg): (res: (byte, Peer))
    requires p.Valid()
    ensures res.1.Valid()
  {
    if r == FIFO_R_W then (FifoByte(p.fifo, p.read), p.(read := p.read + 1))
    else (p.regs[Address(r)], p)
  }

  /** It is what the bus does with the read frame: byte 1 of the response,
      and the peer after the transfer. */
  lemma ReadOnIsFrame(p: Peer, r: Reg)
    requires p.Valid()
    ensures ReadOn(p, r) == (Miso(p, ReadFrame(r))[1], After(p, ReadFrame(r)))
  {
  }

  /** write_byte_data(r, v) against the peer: the register holds v, every
      other register and the FIFO are as they were. */
  function WriteOn(p: Peer, r: Reg, v: byte): (q: Peer)
    requires p.Valid()
    ensures q.Valid() && q.fifo == p.fifo && q.read == p.read
    ensures q.regs[Address(r)] == v
    ensures forall a :: 0 <= a < 128 && a != Address(r) ==> q.regs[a] == p.regs[a]
  {
    p.(regs := p.regs[Address(r) := v])
  }

  /** It is what the bus does with the write frame. */
  lemma WriteOnIsFrame(p: Peer, r: Reg, v: byte)
    requires p.Valid()
    ensures WriteOn(p, r, v) == After(p, WriteFrame(r, v))
  {
  }

  /** _bulk_transfer(FIFO_R_W, size) against the peer: the `size` FIFO bytes
      from the cursor on, and the cursor past them. */
  function BulkOn(p: Peer, size: nat): (res: (seq<byte>, Peer))
    requires p.Valid()
    ensures res.1.Valid()
  {
    (FifoTake(p.fifo, p.read, size), p.(read := p.read + size))
  }

  /** It is what the bus does with the bulk frame: the response after its
      first byte, and the peer after the transfer. */
  lemma BulkOnIsFrame(p: Peer, size: nat)
    requires p.Valid()
    ensures BulkOn(p, size) == (Miso(p, BulkFrame(FIFO_R_W, size))[1..], After(p, BulkFrame(FIFO_R_W, size)))
  {
  }

  /** The bus with the GPIO chip-select line and the sensor on it. */
  class SpiBus {
    var peer: Peer
    var log: seq<BusEvent>

    ghost predicate Valid()
      reads this
    {
      peer.Valid()
    }

    constructor (peer0: Peer)
      requires peer0.Valid()
      ensures Valid() && peer == peer0 && log == []
    {
      peer := peer0;
      log := [];
    }

    /** `GPIO.output(chip_select, level)`. */
    method Output(level: nat)
      requires level <= 1
      modifies this
      ensures peer == old(peer) && log == old(log) + [ChipSelect(level)]
    {
      log := log + [ChipSelect(level)];
    }

    /** `spidev.xfer(mosi)`: one full-duplex transfer. */
    method Transfer(mosi: seq<byte>) returns (miso: seq<byte>)
      requires Valid()
      modifies this
      ensures Valid()
      ensures miso == Miso(old(peer), mosi) && peer == After(old(peer), mosi)
      ensures log == old(log) + [Xfer(mosi)]
    {
      miso := Miso(peer, mosi);
      peer := After(peer, mosi);
      log := log + [Xfer(mosi)];
    }
  }
}
