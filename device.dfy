/** The Icm20689 driver over SPI (Icm20689 and Icm20689SPI): register reads
    and writes as bus transactions, the configuration write sequences with
    their cached settings, range and rate readback, and the two FIFO
    drains.

    Every method is specified by a pure function of the peer it starts
    from; the properties of the driver are lemmas about those functions. */
module Device {
  import opened Common
  import opened Icm20689Regs
  import opened Spi
  import opened Samples

  /** Icm20689SPI.FIFO_MAX: the most words one SPI drain asks for. */
  const FIFO_MAX: int := 4096

  /** The internal sample rate set_sample_frequency divides down, in Hz. */
  const INTERNAL_SAMPLE_FREQ: real := 1000.0

  // ---------------------------------------------------------------------
  // The range message `int(bin(v)[2:] + '000', 2)` of the range setters.

  function DigitChar(d: nat): char
    requires d < 2
  {
    if d == 0 then '0' else '1'
  }

  /** The binary digits Python's bin() prints after its prefix. */
  function Digits(v: nat): (s: string)
    ensures |s| >= 1
    ensures forall i :: 0 <= i < |s| ==> s[i] == '0' || s[i] == '1'
    decreases v
  {
    if v < 2 then [DigitChar(v)] else Digits(v / 2) + [DigitChar(v % 2)]
  }

  /** Python's `bin(v)`: "0b" and the digits, or "-0b" and the digits of -v. */
  function PyBin(v: int): (s: string)
    ensures |s| >= 3
    ensures v >= 0 ==> s[..2] == "0b" && s[2] in "01"
    ensures v < 0 ==> s[..3] == "-0b"
  {
    if v < 0 then "-0b" + Digits(-v) else "0b" + Digits(v)
  }

  /** The value of a string of binary digits, None if another character
      occurs in it. */
  function ParseDigits(s: string): (r: Option<nat>)
    ensures r.Some? <==> forall i :: 0 <= i < |s| ==> s[i] == '0' || s[i] == '1'
  {
    if s == [] then Some(0)
    else
      match ParseDigits(s[..|s| - 1])
      case None => None
      case Some(n) =>
        if s[|s| - 1] == '0' then Some(2 * n)
        else if s[|s| - 1] == '1' then Some(2 * n + 1)
        else None
  }

  /** `int(s, 2)` on the strings the range setters build: ValueError for the
      empty string or a character other than a binary digit. */
  function ParseBase2(s: string): (r: Result<nat>)
    ensures r.Ok? <==> s != [] && forall i :: 0 <= i < |s| ==> s[i] == '0' || s[i] == '1'
    ensures r.Err? ==> r.fault == ValueError
  {
    if s == [] then Err(ValueError)
    else
      match ParseDigits(s)
      case None => Err(ValueError)
      case Some(n) => Ok(n)
  }

  /** The byte set_accel_range and set_gyro_range write for a range value. */
  function RangeMessage(v: int): (r: Result<nat>)
    ensures v >= 0 ==> r == Ok(8 * v)
    ensures v < 0 ==> r == Err(ValueError)
  {
    if v >= 0 then
      RangeMessageOfNat(v);
      ParseBase2(PyBin(v)[2..] + "000")
    else
      RangeMessageOfNegative(v);
      ParseBase2(PyBin(v)[2..] + "000")
  }

  lemma {:induction false} ParseDigitsOfDigits(v: nat)
    ensures ParseDigits(Digits(v)) == Some(v)
    decreases v
  {
    var s := Digits(v);
    if v < 2 {
      assert s[..0] == [];
    } else {
      assert s[..|s| - 1] == Digits(v / 2);
      ParseDigitsOfDigits(v / 2);
    }
  }

  /** A trailing zero digit doubles the value. */
  lemma ParseDigitsZero(s: string, n: nat)
    requires ParseDigits(s) == Some(n)
    ensures ParseDigits(s + "0") == Some(2 * n)
  {
    assert (s + "0")[..|s|] == s;
  }

  lemma {:induction false} ParseDigitsRejects(s: string)
    requires |s| >= 1 && s[0] != '0' && s[0] != '1'
    ensures ParseDigits(s) == None
    decreases |s|
  {
    if |s| == 1 {
      assert s[..0] == [];
    } else {
      var front := s[..|s| - 1];
      assert front[0] == s[0];
      ParseDigitsRejects(front);
    }
  }

  /** Three more zero digits multiply the value by eight. */
  lemma ParseDigitsThreeZeros(s: string, n: nat)
    requires ParseDigits(s) == Some(n)
    ensures ParseDigits(s + "000") == Some(8 * n)
  {
    ParseDigitsZero(s, n);
    ParseDigitsZero(s + "0", 2 * n);
    ParseDigitsZero(s + "0" + "0", 4 * n);
    assert s + "000" == s + "0" + "0" + "0";
  }

  /** The range message is `v << 3` for a non-negative v ... */
  lemma RangeMessageOfNat(v: nat)
    ensures ParseBase2(PyBin(v)[2..] + "000") == Ok(8 * v)
  {
    assert PyBin(v)[2..] == Digits(v);
    ParseDigitsOfDigits(v);
    ParseDigitsThreeZeros(Digits(v), v);
  }

  /** ... and for a negative one bin() yields "-0b...", whose tail "b..."
      int() rejects. */
  lemma RangeMessageOfNegative(v: int)
    requires v < 0
    ensures ParseBase2(PyBin(v)[2..] + "000") == Err(ValueError)
  {
    var t := PyBin(v)[2..] + "000";
    assert t[0] == 'b';
    ParseDigitsRejects(t);
  }


  // ---------------------------------------------------------------------
  // FIFO count, FIFO words and the two drains, as functions of the peer.

  /** The count register pair read as a signed word and halved, rounding
      toward zero. */
  function CountFromWord(w: int): (c: int)
    ensures c == Trunc(w as real / 2.0)
  {
    var t := Trunc(w as real / 2.0);
    assert 2 * t <= w < 2 * t + 2 || 2 * t - 2 < w <= 2 * t;
    if w >= 0 then w / 2 else -((-w) / 2)
  }

  /** What get_fifo_count returns on a peer. */
  function CountOf(p: Peer): (c: int)
    requires p.Valid()
    ensures -16384 <= c <= 16383
  {
    CountFromWord(Decode16(p.regs[Address(FIFO_COUNTH)], p.regs[Address(FIFO_COUNTL)]))
  }

  /** The bus traffic of get_fifo_count: FIFO_COUNTH, then FIFO_COUNTL. */
  function CountEvents(): seq<BusEvent>
  {
    Transaction(ReadFrame(FIFO_COUNTH)) + Transaction(ReadFrame(FIFO_COUNTL))
  }

  /** The FIFO word at byte position b: bytes b (high) and b+1 (low). */
  function FifoWord(f: seq<byte>, b: nat): int
  {
    Decode16(FifoByte(f, b), FifoByte(f, b + 1))
  }

  /** Sample slot j counted from byte position `at`: the six words from byte
      at + 12j on. */
  function FifoGroup(f: seq<byte>, at: nat, j: nat): (w: seq<int>)
    ensures |w| == 6
  {
    seq(6, t requires 0 <= t < 6 => FifoWord(f, at + 12 * j + 2 * t))
  }

  /** The first k sample slots from byte position `at`, scaled and tagged. */
  function FifoPoints(f: seq<byte>, at: nat, k: nat, id: int, a: AfsSel, g: FsSel): (ps: seq<MpuDataPoint>)
    ensures |ps| == k
  {
    seq(k, j requires 0 <= j < k => ScaledPoint(id, a, g, FifoGroup(f, at, j)))
  }

  /** The outcome of a drain: what it returns (or raises), the peer after it
      and the bus traffic it made. */
  datatype Drain = Drain(result: Result<seq<MpuDataPoint>>, peer: Peer, events: seq<BusEvent>)

  /** `min(count, FIFO_MAX)`. */
  function ClampedCount(p: Peer): (c: int)
    requires p.Valid()
    ensures c <= FIFO_MAX && c <= CountOf(p) && (c == CountOf(p) || c == FIFO_MAX)
  {
    if CountOf(p) < FIFO_MAX then CountOf(p) else FIFO_MAX
  }

  /** Icm20689SPI.read_fifo_data: for a clamped count c, nothing more when
      c == 0; for a negative c the bulk transfer's frame `[0] * (size + 1)` is
      empty and setting its first byte raises IndexError; otherwise one bulk
      read of 12*floor(c/6) bytes from FIFO_R_W, floor(c/6) points. */
  function SpiDrain(p: Peer, id: int, a: AfsSel, g: FsSel): (d: Drain)
    requires p.Valid()
    ensures d.peer.Valid()
  {
    var c := ClampedCount(p);
    if c == 0 then Drain(Ok([]), p, CountEvents())
    else if c < 0 then Drain(Err(IndexError), p, CountEvents())
    else
      var k := c / 6;
      Drain(Ok(FifoPoints(p.fifo, p.read, k, id, a, g)),
            p.(read := p.read + 12 * k),
            CountEvents() + Transaction(BulkFrame(FIFO_R_W, 12 * k)))
  }

  /** Icm20689.read_fifo_data: no clamp, `range(0, floor(c/6) - 1)` slots,
      each read as twelve single-byte reads of FIFO_R_W. */
  function BaseDrain(p: Peer, id: int, a: AfsSel, g: FsSel): (d: Drain)
    requires p.Valid()
    ensures d.peer.Valid()
  {
    var c := CountOf(p);
    var n := if c / 6 - 1 > 0 then c / 6 - 1 else 0;
    Drain(Ok(FifoPoints(p.fifo, p.read, n, id, a, g)),
          p.(read := p.read + 12 * n),
          CountEvents() + Repeat(ReadFrame(FIFO_R_W), 12 * n))
  }

  /** Two more transactions with the same frame extend the run by two. */
  lemma LogTwice(log0: seq<BusEvent>, frame: seq<byte>, n: nat)
    ensures log0 + Repeat(frame, n) + Transaction(frame) + Transaction(frame) == log0 + Repeat(frame, n + 2)
  {
    assert Repeat(frame, n + 2) == Repeat(frame, n + 1) + Transaction(frame);
    assert Repeat(frame, n + 1) == Repeat(frame, n) + Transaction(frame);
  }

  /** One more sample slot: the point of slot j, spelled out from its six
      FIFO words. */
  lemma SlotPoint(f: seq<byte>, at: nat, j: nat, id: int, a: AfsSel, g: FsSel)
    ensures var b := at + 12 * j;
      FifoPoints(f, at, j + 1, id, a, g) == FifoPoints(f, at, j, id, a, g) +
      [MpuDataPoint(id,
        Vec3(FifoWord(f, b) as real / AccelModifier(a),
             FifoWord(f, b + 2) as real / AccelModifier(a),
             FifoWord(f, b + 4) as real / AccelModifier(a)),
        Vec3(FifoWord(f, b + 6) as real / g.GetLsbSensitivity(),
             FifoWord(f, b + 8) as real / g.GetLsbSensitivity(),
             FifoWord(f, b + 10) as real / g.GetLsbSensitivity()))]
  {
    assert FifoPoints(f, at, j + 1, id, a, g) == FifoPoints(f, at, j, id, a, g) + [ScaledPoint(id, a, g, FifoGroup(f, at, j))];
  }

  /** A bulk read of 2n bytes from position `at`, decoded word by word, is
      the n FIFO words from there. */
  lemma DecodeWordsOfTake(f: seq<byte>, at: nat, n: nat)
    ensures forall m :: 0 <= m < n ==> DecodeWords(FifoTake(f, at, 2 * n))[m] == FifoWord(f, at + 2 * m)
  {
  }

  /** Six consecutive FIFO words regrouped are a sample slot. */
  lemma GroupOfWords(vs: seq<int>, f: seq<byte>, at: nat, k: nat, id: int, a: AfsSel, g: FsSel)
    requires |vs| == 6 * k
    requires forall m :: 0 <= m < 6 * k ==> vs[m] == FifoWord(f, at + 2 * m)
    ensures GroupPoints(vs, id, a, g) == FifoPoints(f, at, k, id, a, g)
  {
    forall j | 0 <= j < k
      ensures vs[6 * j .. 6 * j + 6] == FifoGroup(f, at, j)
    {
      var slot := vs[6 * j .. 6 * j + 6];
      assert forall t :: 0 <= t < 6 ==> slot[t] == vs[6 * j + t];
    }
  }

  /** A bulk read of 12k bytes decoded word by word and regrouped six at a
      time is the k sample slots at the read position. */
  lemma GroupOfTake(f: seq<byte>, at: nat, k: nat, id: int, a: AfsSel, g: FsSel)
    ensures GroupPoints(DecodeWords(FifoTake(f, at, 12 * k)), id, a, g) == FifoPoints(f, at, k, id, a, g)
  {
    DecodeWordsOfTake(f, at, 6 * k);
    GroupOfWords(DecodeWords(FifoTake(f, at, 12 * k)), f, at, k, id, a, g);
  }

  lemma FifoPointsPrefix(f: seq<byte>, at: nat, k: nat, j: nat, id: int, a: AfsSel, g: FsSel)
    requires j <= k
    ensures FifoPoints(f, at, k, id, a, g)[..j] == FifoPoints(f, at, j, id, a, g)
  {
  }

  /** The base drain returns the SPI drain's points except the last: the
      `- 1` in its range drops one sample slot (for counts the clamp does not
      touch; both return nothing for a count below six). */
  lemma BaseDropsLastSlot(p: Peer, id: int, a: AfsSel, g: FsSel)
    requires p.Valid() && 0 <= CountOf(p) <= FIFO_MAX
    ensures SpiDrain(p, id, a, g).result.Ok? && BaseDrain(p, id, a, g).result.Ok?
    ensures var spi := SpiDrain(p, id, a, g).result.value;
      BaseDrain(p, id, a, g).result.value == if |spi| == 0 then [] else spi[..|spi| - 1]
  {
    var c := CountOf(p);
    if c > 0 {
      FifoPointsPrefix(p.fifo, p.read, c / 6, if c / 6 - 1 > 0 then c / 6 - 1 else 0, id, a, g);
    }
  }

  /** A drain never asks for more than FIFO_MAX words: at most 682 points,
      and the cursor moves past exactly twelve bytes per point. */
  lemma SpiDrainBounds(p: Peer, id: int, a: AfsSel, g: FsSel)
    requires p.Valid()
    ensures var d := SpiDrain(p, id, a, g);
      d.result.Ok? ==> |d.result.value| <= FIFO_MAX / 6 &&
                       d.peer == p.(read := p.read + 12 * |d.result.value|)
    ensures SpiDrain(p, id, a, g).result.Err? <==> CountOf(p) < 0
  {
  }

  /** The slots from `at` depend only on the FIFO bytes up to the last one
      they use. */
  lemma FifoPointsOfPrefix(f: seq<byte>, m: nat, at: nat, k: nat, id: int, a: AfsSel, g: FsSel)
    requires at + 12 * k <= m <= |f|
    ensures FifoPoints(f[..m], at, k, id, a, g) == FifoPoints(f, at, k, id, a, g)
  {
    var l, r := FifoPoints(f[..m], at, k, id, a, g), FifoPoints(f, at, k, id, a, g);
    forall j | 0 <= j < k ensures l[j] == r[j] {
      GroupOfPrefix(f, m, at, j);
    }
  }

  /** Slot j reads the same words from the first m bytes as from them all. */
  lemma GroupOfPrefix(f: seq<byte>, m: nat, at: nat, j: nat)
    requires at + 12 * j + 12 <= m <= |f|
    ensures FifoGroup(f[..m], at, j) == FifoGroup(f, at, j)
  {
    var b := at + 12 * j;
    forall t | 0 <= t < 6 ensures FifoWord(f[..m], b + 2 * t) == FifoWord(f, b + 2 * t) {
      FifoWordOfPrefix(f, m, b + 2 * t);
    }
  }

  /** A word read from the first m bytes is the word read from them all. */
  lemma FifoWordOfPrefix(f: seq<byte>, m: nat, b: nat)
    requires b + 1 < m <= |f|
    ensures FifoWord(f[..m], b) == FifoWord(f, b)
  {
  }

  /** When the count registers report the bytes still queued (the FIFO count
      is in bytes, so the driver's count is in words), the SPI drain reads
      only queued bytes: floor(min(n/2, FIFO_MAX)/6) points for n queued
      bytes, made from the first twelve queued bytes per point. */
  lemma SpiDrainOfConsistentPeer(p: Peer, id: int, a: AfsSel, g: FsSel)
    requires p.Valid() && p.read <= |p.fifo|
    requires Decode16(p.regs[Address(FIFO_COUNTH)], p.regs[Address(FIFO_COUNTL)]) == |p.fifo| - p.read
    ensures var n := |p.fifo| - p.read;
      var k := (if n / 2 < FIFO_MAX then n / 2 else FIFO_MAX) / 6;
      12 * k <= n &&
      SpiDrain(p, id, a, g).result == Ok(FifoPoints(p.fifo[..p.read + 12 * k], p.read, k, id, a, g))
  {
    var n := |p.fifo| - p.read;
    var c := if n / 2 < FIFO_MAX then n / 2 else FIFO_MAX;
    var k := c / 6;
    assert CountFromWord(n) == n / 2;
    assert CountOf(p) == n / 2;
    assert ClampedCount(p) == c;
    assert 6 * k <= c && 2 * c <= n;
    FifoPointsOfPrefix(p.fifo, p.read + 12 * k, p.read, k, id, a, g);
  }

  // ---------------------------------------------------------------------
  // Configuration and readback, as functions of the peer.

  /** `current | 1 << k` for a byte and a bit below 8: it sets bit k, keeps
      every other bit as it was, and stays a byte. */
  function SetBit(c: byte, k: nat): (b: byte)
    requires k < 8
    ensures forall j :: Bit(b, j) <==> j == k || Bit(c, j)
    ensures b == Or(c, Pow2(k))
  {
    assert Pow2(8) == 256;
    assert Pow2(k) <= Pow2(7) by {
      if k < 7 { assert Pow2(k) < 256; }
    }
    OrBound(c, Pow2(k), 8);
    assert forall j :: Bit(Or(c, Pow2(k)), j) <==> j == k || Bit(c, j) by {
      forall j ensures Bit(Or(c, Pow2(k)), j) <==> j == k || Bit(c, j) {
        OrBit(c, Pow2(k), j);
        Pow2Bit(k, j);
      }
    }
    Or(c, Pow2(k))
  }

  /** enable_fifo against the peer: USER_CTRL = c is written c|0x04 (FIFO
      reset) and then c|0x40 (FIFO enabled). */
  function EnableFifoOn(p: Peer): (q: Peer)
    requires p.Valid()
    ensures q.Valid() && q.fifo == p.fifo && q.read == p.read
    ensures q.regs[Address(USER_CTRL)] == SetBit(p.regs[Address(USER_CTRL)], 6)
    ensures forall a :: 0 <= a < 128 && a != Address(USER_CTRL) ==> q.regs[a] == p.regs[a]
  {
    var c := p.regs[Address(USER_CTRL)];
    WriteOn(WriteOn(p, USER_CTRL, SetBit(c, 2)), USER_CTRL, SetBit(c, 6))
  }

  function EnableFifoEvents(c: byte): seq<BusEvent>
  {
    Transaction(ReadFrame(USER_CTRL)) + Transaction(WriteFrame(USER_CTRL, SetBit(c, 2)))
      + Transaction(WriteFrame(USER_CTRL, SetBit(c, 6)))
  }

  /** The reset write carries bit 2 and the enable write bit 6; the enable
      write leaves the reset bit as it was before enable_fifo, so it does not
      repeat the reset. */
  lemma EnableFifoBits(c: byte)
    ensures Bit(SetBit(c, 2), 2) && Bit(SetBit(c, 6), 6)
    ensures Bit(SetBit(c, 6), 2) <==> Bit(c, 2)
  {
  }

  /** AFS_SEL((raw >> 3) & 0x3), the setting read_accel_range decodes. */
  function AfsFromConfig(b: byte): (s: AfsSel)
    ensures s.Value() == (b / 8) % 4
  {
    AfsSel.FromValue((b / 8) % 4).value
  }

  /** Writing a range v in 0..3 and reading the configuration register back
      gives the byte v << 3, which decodes to v. */
  lemma AccelRangeReadBack(p: Peer, v: int)
    requires p.Valid() && 0 <= v <= 3
    ensures var q := WriteOn(WriteOn(p, ACCEL_CONFIG, 0), ACCEL_CONFIG, WireByte(8 * v));
      ReadOn(q, ACCEL_CONFIG).0 == 8 * v && AfsFromConfig(ReadOn(q, ACCEL_CONFIG).0) == AfsSel.FromValue(v).value
  {
    var s := AfsSel.FromValue(v).value;
    AfsSelRoundTrip(s);
  }

  /** The same for the gyroscope register; only the raw byte shows it, since
      the cached setting is not refreshed on readback. */
  lemma GyroRangeReadBack(p: Peer, v: int)
    requires p.Valid() && 0 <= v <= 3
    ensures var q := WriteOn(WriteOn(p, GYRO_CONFIG, 0), GYRO_CONFIG, WireByte(8 * v));
      ReadOn(q, GYRO_CONFIG).0 == 8 * v && FsSel.FromValue((ReadOn(q, GYRO_CONFIG).0 / 8) % 4) == FsSel.FromValue(v)
  {
  }

  /** `int(1000/f - 1)`, the divider set_sample_frequency writes. */
  function DividerFor(f: real): (d: int)
    requires f != 0.0
    ensures 0.0 < f <= INTERNAL_SAMPLE_FREQ ==> d >= 0
  {
    Trunc(INTERNAL_SAMPLE_FREQ / f - 1.0)
  }

  /** read_sample_frequency's `1000/(div + 1)`. */
  function RateOf(div: byte): (rate: real)
    ensures 0.0 < rate <= INTERNAL_SAMPLE_FREQ
  {
    INTERNAL_SAMPLE_FREQ / (div as int + 1) as real
  }

  /** For a rate that fits the divider byte, the rate read back is at least
      the one set (the divider is truncated, not rounded), and equal to it
      exactly when 1000/f is a whole number. */
  lemma SampleFrequencyReadBack(f: real)
    requires 4.0 <= f <= INTERNAL_SAMPLE_FREQ
    ensures 0 <= DividerFor(f) < 250
    ensures RateOf(DividerFor(f)) >= f
    ensures RateOf(DividerFor(f)) == f <==> (1000.0 / f).Floor as real == 1000.0 / f
  {
    var q := 1000.0 / f;
    assert 1.0 <= q <= 250.0 by {
      assert q * f == 1000.0;
    }
    var d := DividerFor(f);
    assert d == q.Floor - 1;
    var n := (d + 1) as real;
    assert 1.0 <= n <= q;
    assert RateOf(d) == 1000.0 / n;
    assert f == 1000.0 / q;
    QuotientAntitone(1000.0, n, q);
  }

  lemma QuotientAntitone(x: real, n: real, q: real)
    requires x > 0.0 && 0.0 < n <= q
    ensures x / n >= x / q
    ensures x / n == x / q <==> n == q
  {
    assert x / n - x / q == x * (q - n) / (n * q);
  }

  /** The setup in the main script: 100 Hz becomes divider 9, which reads
      back as 100 Hz. */
  lemma HundredHertz()
    ensures DividerFor(100.0) == 9 && RateOf(9) == 100.0
  {
  }

  /** read_accel_range's and read_gyro_range's answer: the raw register or
      the (cached) setting. */
  datatype Reading<T> = RawByte(raw: byte) | Setting(setting: T)

  // ---------------------------------------------------------------------

  /** One sensor on its SPI bus and chip-select line. */
  class Icm20689 {
    const mpuId: int
    const bus: SpiBus
    var gyroRangeCached: FsSel
    var accelRangeCached: AfsSel
    var sampleFrequencyCached: real

    ghost predicate Valid()
      reads bus
    {
      bus.Valid()
    }

    /** Icm20689SPI.__init__: chip select high, wake the chip (PWR_MGMT_1 =
        0) and disable its I2C interface (USER_CTRL = 1 << 4). */
    constructor (id: int, spi: SpiBus)
      requires spi.Valid()
      modifies spi
      ensures Valid() && mpuId == id && bus == spi
      ensures gyroRangeCached == FS_DEG_250 && accelRangeCached == FS_2G
      ensures sampleFrequencyCached == 1000.0
      ensures bus.peer == WriteOn(WriteOn(old(spi.peer), PWR_MGMT_1, 0), USER_CTRL, 0x10)
      ensures bus.log == old(spi.log) + [ChipSelect(1)] + Transaction(WriteFrame(PWR_MGMT_1, 0))
        + Transaction(WriteFrame(USER_CTRL, 0x10))
    {
      mpuId := id;
      bus := spi;
      gyroRangeCached := FS_DEG_250;
      accelRangeCached := FS_2G;
      sampleFrequencyCached := 1000.0;
      new;
      bus.Output(1);
      WriteByteData(PWR_MGMT_1, 0x00);
      WriteByteData(USER_CTRL, Pow2(4));
    }

    /** SPI read_byte_data: `[register | 0x80, 0x00]` under chip select,
        answering byte 1 of the response. */
    method ReadByteData(register: Reg) returns (b: byte)
      requires Valid()
      modifies bus
      ensures Valid()
      ensures (b, bus.peer) == ReadOn(old(bus.peer), register)
      ensures bus.log == old(bus.log) + Transaction(ReadFrame(register))
    {
      bus.Output(0);
      var response := bus.Transfer([ReadCommand(register), 0x00]);
      bus.Output(1);
      b := response[1];
      ReadOnIsFrame(old(bus.peer), register);
    }

    /** SPI write_byte_data: `[register, value]` under chip select. */
    method WriteByteData(register: Reg, value: int)
      requires Valid()
      modifies bus
      ensures Valid()
      ensures bus.peer == WriteOn(old(bus.peer), register, WireByte(value))
      ensures bus.log == old(bus.log) + Transaction(WriteFrame(register, WireByte(value)))
    {
      bus.Output(0);
      var response := bus.Transfer([Address(register), WireByte(value)]);
      bus.Output(1);
      WriteOnIsFrame(old(bus.peer), register, WireByte(value));
    }

    /** read_word_data: the high register, then the low one, decoded as a
        signed 16-bit word. */
    method ReadWordData(registerHigh: Reg, registerLow: Reg) returns (v: int)
      requires Valid()
      modifies bus
      ensures Valid()
      ensures var r1 := ReadOn(old(bus.peer), registerHigh);
        var r2 := ReadOn(r1.1, registerLow);
        v == Decode16(r1.0, r2.0) && bus.peer == r2.1
      ensures bus.log == old(bus.log) + Transaction(ReadFrame(registerHigh)) + Transaction(ReadFrame(registerLow))
    {
      var high := ReadByteData(registerHigh);
      var low := ReadByteData(registerLow);
      var value := (high as int) * 256 + low as int;
      if value >= 0x8000 {
        v := -((65535 - value) + 1);
      } else {
        v := value;
      }
    }

    /** _bulk_transfer: a frame of `size + 1` bytes, the read command then
        zeros, answering all but the first response byte. */
    method BulkTransfer(register: Reg, size: int) returns (res: Result<seq<byte>>)
      requires Valid()
      modifies bus
      ensures Valid()
      ensures size < 0 ==> res == Err(IndexError) && bus.peer == old(bus.peer) && bus.log == old(bus.log)
      ensures size >= 0 ==>
        res == Ok(Miso(old(bus.peer), BulkFrame(register, size))[1..]) &&
        bus.peer == After(old(bus.peer), BulkFrame(register, size)) &&
        bus.log == old(bus.log) + Transaction(BulkFrame(register, size))
      ensures register == FIFO_R_W && size >= 0 ==>
        res == Ok(BulkOn(old(bus.peer), size).0) && bus.peer == BulkOn(old(bus.peer), size).1
    {
      if size + 1 <= 0 {
        // `[0] * (size + 1)` is empty: assigning its element 0 fails.
        return Err(IndexError);
      }
      var xferData := seq(size + 1, _ => 0);
      xferData := xferData[0 := ReadCommand(register)];
      assert xferData == BulkFrame(register, size);
      bus.Output(0);
      var response := bus.Transfer(xferData);
      bus.Output(1);
      res := Ok(response[1..]);
      if register == FIFO_R_W {
        BulkOnIsFrame(old(bus.peer), size);
      }
    }

    /** get_fifo_count. */
    method GetFifoCount() returns (count: int)
      requires Valid()
      modifies bus
      ensures Valid()
      ensures count == CountOf(old(bus.peer))
      ensures bus.peer == old(bus.peer) && bus.log == old(bus.log) + CountEvents()
    {
      var word := ReadWordData(FIFO_COUNTH, FIFO_COUNTL);
      count := Trunc(word as real / 2.0);
    }

    /** _get_fifo_data: `2 * count` bytes from FIFO_R_W, decoded as words. */
    method GetFifoData(count: int) returns (res: Result<seq<int>>)
      requires Valid()
      modifies bus
      ensures Valid()
      ensures count < 0 ==> res == Err(IndexError) && bus.peer == old(bus.peer) && bus.log == old(bus.log)
      ensures count >= 0 ==>
        res == Ok(DecodeWords(FifoTake(old(bus.peer).fifo, old(bus.peer).read, 2 * count))) &&
        bus.peer == old(bus.peer).(read := old(bus.peer).read + 2 * count) &&
        bus.log == old(bus.log) + Transaction(BulkFrame(FIFO_R_W, 2 * count))
    {
      var rawData := BulkTransfer(FIFO_R_W, count * 2);
      if rawData.Err? {
        return Err(rawData.fault);
      }
      var words := TransformRawData(rawData.value);
      res := Ok(words);
    }

    /** Icm20689SPI.read_fifo_data. */
    method ReadFifoData() returns (res: Result<seq<MpuDataPoint>>)
      requires Valid()
      modifies bus
      ensures Valid()
      ensures var d := SpiDrain(old(bus.peer), mpuId, accelRangeCached, gyroRangeCached);
        res == d.result && bus.peer == d.peer && bus.log == old(bus.log) + d.events
    {
      var data: seq<MpuDataPoint> := [];
      var count := GetFifoCount();
      count := if count < FIFO_MAX then count else FIFO_MAX;
      if count == 0 {
        return Ok(data);
      }
      ghost var p := old(bus.peer);
      assert count == ClampedCount(p);
      var slots := count / 6;
      var fetched := GetFifoData(slots * 6);
      if fetched.Err? {
        return Err(fetched.fault);
      }
      var dataPoints := fetched.value;
      data := ScaleWords(mpuId, accelRangeCached, gyroRangeCached, dataPoints);
      GroupOfTake(p.fifo, p.read, slots, mpuId, accelRangeCached, gyroRangeCached);
      res := Ok(data);
    }

    /** Icm20689.read_fifo_data, the single-read variant. */
    method ReadFifoDataBase() returns (data: seq<MpuDataPoint>)
      requires Valid()
      modifies bus
      ensures Valid()
      ensures var d := BaseDrain(old(bus.peer), mpuId, accelRangeCached, gyroRangeCached);
        d.result == Ok(data) && bus.peer == d.peer && bus.log == old(bus.log) + d.events
    {
      var count := GetFifoCount();
      var gyroScaleModifier := gyroRangeCached.GetLsbSensitivity();
      var accelScaleModifier := accelRangeCached.GetLsbSensitivity() / GRAVITY_MS2;
      ghost var k := if count / 6 - 1 > 0 then count / 6 - 1 else 0;
      assert old(bus.log) + CountEvents() + Repeat(ReadFrame(FIFO_R_W), 12 * k)
        == old(bus.log) + (CountEvents() + Repeat(ReadFrame(FIFO_R_W), 12 * k));
      data := ReadSlots(count / 6 - 1, accelScaleModifier, gyroScaleModifier);
    }

    /** The loop of Icm20689.read_fifo_data: `range(0, n)` slots (none when
        n <= 0), each six read_word_data calls on FIFO_R_W, accelerometer
        x,y,z then gyroscope x,y,z, divided by the scale modifiers. */
    method ReadSlots(n: int, accelScaleModifier: real, gyroScaleModifier: real) returns (data: seq<MpuDataPoint>)
      requires Valid()
      requires accelScaleModifier == AccelModifier(accelRangeCached)
      requires gyroScaleModifier == gyroRangeCached.GetLsbSensitivity()
      modifies bus
      ensures Valid()
      ensures var k := if n > 0 then n else 0;
        var p := old(bus.peer);
        data == FifoPoints(p.fifo, p.read, k, mpuId, accelRangeCached, gyroRangeCached) &&
        bus.peer == p.(read := p.read + 12 * k) &&
        bus.log == old(bus.log) + Repeat(ReadFrame(FIFO_R_W), 12 * k)
    {
      data := [];
      ghost var p := bus.peer;
      ghost var log0 := bus.log;
      ghost var m := 0;
      var i := 0;
      while i < n
        invariant 0 <= i && (i <= n || i == 0) && m == 12 * i
        invariant Valid()
        invariant bus.peer == p.(read := p.read + m)
        invariant bus.log == log0 + Repeat(ReadFrame(FIFO_R_W), m)
        invariant data == FifoPoints(p.fifo, p.read, i, mpuId, accelRangeCached, gyroRangeCached)
      {
        var accel := ReadTriple(accelScaleModifier, log0, m);
        var gyro := ReadTriple(gyroScaleModifier, log0, m + 6);
        SlotPoint(p.fifo, p.read, i, mpuId, accelRangeCached, gyroRangeCached);
        data := data + [MpuDataPoint(mpuId, accel, gyro)];
        i := i + 1;
        m := m + 6 + 6;
      }
    }

    /** Three read_word_data calls on FIFO_R_W, each word divided by the
        scale modifier: the x, y and z of one sensor in the base drain's
        loop, the three words at the cursor. The log is stated after a run
        of n single reads of FIFO_R_W. */
    method ReadTriple(modifier: real, ghost log0: seq<BusEvent>, ghost n: nat) returns (v: Vec3)
      requires Valid() && modifier > 0.0
      requires bus.log == log0 + Repeat(ReadFrame(FIFO_R_W), n)
      modifies bus
      ensures Valid()
      ensures var f := old(bus.peer).fifo;
        var r := old(bus.peer).read;
        v == Vec3(FifoWord(f, r) as real / modifier, FifoWord(f, r + 2) as real / modifier,
                  FifoWord(f, r + 4) as real / modifier)
      ensures bus.peer == old(bus.peer).(read := old(bus.peer).read + 6)
      ensures bus.log == log0 + Repeat(ReadFrame(FIFO_R_W), n + 6)
    {
      LogTwice(log0, ReadFrame(FIFO_R_W), n);
      var x := ReadWordData(FIFO_R_W, FIFO_R_W);
      LogTwice(log0, ReadFrame(FIFO_R_W), n + 2);
      var y := ReadWordData(FIFO_R_W, FIFO_R_W);
      LogTwice(log0, ReadFrame(FIFO_R_W), n + 4);
      var z := ReadWordData(FIFO_R_W, FIFO_R_W);
      v := Vec3(x as real / modifier, y as real / modifier, z as real / modifier);
    }

    /** set_accel_range: ACCEL_CONFIG = 0, then the range message, then the
        cached setting. A negative value fails in building the message, a
        value above 3 in AFS_SEL(), after the second write. */
    method SetAccelRange(accelRange: int) returns (r: Result<()>)
      requires Valid()
      modifies this, bus
      ensures Valid()
      ensures accelRange < 0 ==>
        bus.peer == WriteOn(old(bus.peer), ACCEL_CONFIG, 0) &&
        bus.log == old(bus.log) + Transaction(WriteFrame(ACCEL_CONFIG, 0))
      ensures accelRange >= 0 ==>
        bus.peer == WriteOn(WriteOn(old(bus.peer), ACCEL_CONFIG, 0), ACCEL_CONFIG, WireByte(8 * accelRange)) &&
        bus.log == old(bus.log) + Transaction(WriteFrame(ACCEL_CONFIG, 0))
          + Transaction(WriteFrame(ACCEL_CONFIG, WireByte(8 * accelRange)))
      ensures r.Ok? <==> 0 <= accelRange <= 3
      ensures r.Ok? ==> accelRangeCached.Value() == accelRange
      ensures r.Err? ==> r.fault == ValueError && accelRangeCached == old(accelRangeCached)
      ensures gyroRangeCached == old(gyroRangeCached) && sampleFrequencyCached == old(sampleFrequencyCached)
    {
      WriteByteData(ACCEL_CONFIG, 0x00);
      var hexMssg := RangeMessage(accelRange);
      if hexMssg.Err? {
        return Err(hexMssg.fault);
      }
      WriteByteData(ACCEL_CONFIG, hexMssg.value);
      var setting := AfsSel.FromValue(accelRange);
      if setting.None? {
        return Err(ValueError);
      }
      accelRangeCached := setting.value;
      r := Ok(());
    }

    /** read_accel_range: reads ACCEL_CONFIG and refreshes the cached
        setting from bits 3-4. */
    method ReadAccelRange(raw: bool) returns (r: Reading<AfsSel>)
      requires Valid()
      modifies this, bus
      ensures Valid()
      ensures bus.peer == old(bus.peer) && bus.log == old(bus.log) + Transaction(ReadFrame(ACCEL_CONFIG))
      ensures accelRangeCached == AfsFromConfig(old(bus.peer).regs[Address(ACCEL_CONFIG)])
      ensures r == if raw then RawByte(old(bus.peer).regs[Address(ACCEL_CONFIG)]) else Setting(accelRangeCached)
      ensures gyroRangeCached == old(gyroRangeCached) && sampleFrequencyCached == old(sampleFrequencyCached)
    {
      var rawData := ReadByteData(ACCEL_CONFIG);
      accelRangeCached := AfsFromConfig(rawData);
      if raw {
        r := RawByte(rawData);
      } else {
        r := Setting(accelRangeCached);
      }
    }

    /** set_gyro_range: as set_accel_range, on GYRO_CONFIG and FS_SEL. */
    method SetGyroRange(gyroRange: int) returns (r: Result<()>)
      requires Valid()
      modifies this, bus
      ensures Valid()
      ensures gyroRange < 0 ==>
        bus.peer == WriteOn(old(bus.peer), GYRO_CONFIG, 0) &&
        bus.log == old(bus.log) + Transaction(WriteFrame(GYRO_CONFIG, 0))
      ensures gyroRange >= 0 ==>
        bus.peer == WriteOn(WriteOn(old(bus.peer), GYRO_CONFIG, 0), GYRO_CONFIG, WireByte(8 * gyroRange)) &&
        bus.log == old(bus.log) + Transaction(WriteFrame(GYRO_CONFIG, 0))
          + Transaction(WriteFrame(GYRO_CONFIG, WireByte(8 * gyroRange)))
      ensures r.Ok? <==> 0 <= gyroRange <= 3
      ensures r.Ok? ==> gyroRangeCached.Value() == gyroRange
      ensures r.Err? ==> r.fault == ValueError && gyroRangeCached == old(gyroRangeCached)
      ensures accelRangeCached == old(accelRangeCached) && sampleFrequencyCached == old(sampleFrequencyCached)
    {
      WriteByteData(GYRO_CONFIG, 0x00);
      var hexMssg := RangeMessage(gyroRange);
      if hexMssg.Err? {
        return Err(hexMssg.fault);
      }
      WriteByteData(GYRO_CONFIG, hexMssg.value);
      var setting := FsSel.FromValue(gyroRange);
      if setting.None? {
        return Err(ValueError);
      }
      gyroRangeCached := setting.value;
      r := Ok(());
    }

    /** read_gyro_range: reads GYRO_CONFIG but answers the cached setting,
        which it does not refresh. */
    method ReadGyroRange(raw: bool) returns (r: Reading<FsSel>)
      requires Valid()
      modifies bus
      ensures Valid()
      ensures bus.peer == old(bus.peer) && bus.log == old(bus.log) + Transaction(ReadFrame(GYRO_CONFIG))
      ensures r == if raw then RawByte(old(bus.peer).regs[Address(GYRO_CONFIG)]) else Setting(gyroRangeCached)
    {
      var rawData := ReadByteData(GYRO_CONFIG);
      if raw {
        r := RawByte(rawData);
      } else {
        r := Setting(gyroRangeCached);
      }
    }

    /** set_sample_frequency: the divider is computed first (a zero
        frequency raises before any write), then SMPLRT_DIV = 0 and
        SMPLRT_DIV = divider, then the cache. */
    method SetSampleFrequency(sampFreq: real) returns (r: Result<()>)
      requires Valid()
      modifies this, bus
      ensures Valid()
      ensures sampFreq == 0.0 ==>
        r == Err(ZeroDivisionError) && bus.peer == old(bus.peer) && bus.log == old(bus.log) &&
        sampleFrequencyCached == old(sampleFrequencyCached)
      ensures sampFreq != 0.0 ==>
        r == Ok(()) && sampleFrequencyCached == sampFreq &&
        bus.peer == WriteOn(WriteOn(old(bus.peer), SMPLRT_DIV, 0), SMPLRT_DIV, WireByte(DividerFor(sampFreq))) &&
        bus.log == old(bus.log) + Transaction(WriteFrame(SMPLRT_DIV, 0))
          + Transaction(WriteFrame(SMPLRT_DIV, WireByte(DividerFor(sampFreq))))
      ensures gyroRangeCached == old(gyroRangeCached) && accelRangeCached == old(accelRangeCached)
    {
      if sampFreq == 0.0 {
        return Err(ZeroDivisionError);
      }
      var smplrtDiv := Trunc(INTERNAL_SAMPLE_FREQ / sampFreq - 1.0);
      WriteByteData(SMPLRT_DIV, 0x00);
      WriteByteData(SMPLRT_DIV, smplrtDiv);
      sampleFrequencyCached := sampFreq;
      r := Ok(());
    }

    /** read_sample_frequency: the rate the SMPLRT_DIV register gives; `raw`
        is accepted and ignored. */
    method ReadSampleFrequency(raw: bool) returns (sampleRate: real)
      requires Valid()
      modifies bus
      ensures Valid()
      ensures sampleRate == RateOf(old(bus.peer).regs[Address(SMPLRT_DIV)])
      ensures bus.peer == old(bus.peer) && bus.log == old(bus.log) + Transaction(ReadFrame(SMPLRT_DIV))
    {
      var smplrtDiv := ReadByteData(SMPLRT_DIV);
      sampleRate := INTERNAL_SAMPLE_FREQ / (smplrtDiv as int + 1) as real;
    }

    /** set_fifo_enable: accelerometer and the three gyroscope axes into
        the FIFO. */
    method SetFifoEnable()
      requires Valid()
      modifies bus
      ensures Valid()
      ensures bus.peer == WriteOn(old(bus.peer), FIFO_EN, 0x78)
      ensures bus.log == old(bus.log) + Transaction(WriteFrame(FIFO_EN, 0x78))
    {
      WriteByteData(FIFO_EN, SensorFifoMask());
    }

    /** enable_fifo. */
    method EnableFifo()
      requires Valid()
      modifies bus
      ensures Valid()
      ensures bus.peer == EnableFifoOn(old(bus.peer))
      ensures bus.log == old(bus.log) + EnableFifoEvents(old(bus.peer).regs[Address(USER_CTRL)])
    {
      var current := ReadByteData(USER_CTRL);
      WriteByteData(USER_CTRL, Or(current, Pow2(2)));
      WriteByteData(USER_CTRL, Or(current, Pow2(6)));
    }
  }
}
