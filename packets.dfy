/** The wire packet of the network senders (MpuDataPoint.serialize and
    MpuDataPacket.serialize): a big-endian signed 32-bit point count, then
    per point a big-endian signed 32-bit id and six big-endian binary64
    values, accelerometer x,y,z then gyroscope x,y,z.

    The IEEE-754 encoding of a float (struct.pack's 'd') is a parameter,
    `enc`, of which only its width of eight bytes is known; what is proved
    is the layout around it. */
module Packets {
  import opened Common
  import opened Samples

  type Bytes8 = s: seq<byte> | |s| == 8 witness [0, 0, 0, 0, 0, 0, 0, 0]

  predicate InInt32(n: int)
  {
    -0x8000_0000 <= n < 0x8000_0000
  }

  /** `struct.pack('!i', n)`: four bytes, two's complement, most significant
      first; struct.error outside the 32-bit range. */
  function PackInt32(n: int): (r: Result<seq<byte>>)
    ensures r.Ok? <==> InInt32(n)
    ensures r.Ok? ==> |r.value| == 4 && (r.value[0] >= 0x80 <==> n < 0)
    ensures r.Err? ==> r.fault == StructError
  {
    if !InInt32(n) then Err(StructError)
    else
      var u := if n < 0 then n + 0x1_0000_0000 else n;
      var r1 := u / 0x100;
      var r2 := r1 / 0x100;
      Ok([r2 / 0x100, r2 % 0x100, r1 % 0x100, u % 0x100])
  }

  /** `struct.unpack('!i', b)`. */
  function UnpackInt32(b: seq<byte>): (n: int)
    requires |b| == 4
    ensures InInt32(n)
  {
    var u := (((b[0] as int) * 0x100 + b[1] as int) * 0x100 + b[2] as int) * 0x100 + b[3] as int;
    if u >= 0x8000_0000 then u - 0x1_0000_0000 else u
  }

  /** Euclidean division by 256 of q*256 + r, for a byte r. */
  lemma DivMod256(q: int, r: int)
    requires 0 <= r < 0x100
    ensures (q * 0x100 + r) / 0x100 == q && (q * 0x100 + r) % 0x100 == r
  {
  }

  lemma Int32RoundTrip(n: int)
    requires InInt32(n)
    ensures UnpackInt32(PackInt32(n).value) == n
  {
    var u := if n < 0 then n + 0x1_0000_0000 else n;
    var r1 := u / 0x100;
    var r2 := r1 / 0x100;
    assert r2 == (r2 / 0x100) * 0x100 + r2 % 0x100;
    assert r1 == r2 * 0x100 + r1 % 0x100;
    assert u == r1 * 0x100 + u % 0x100;
  }

  lemma Int32BytesRoundTrip(b: seq<byte>)
    requires |b| == 4
    ensures PackInt32(UnpackInt32(b)) == Ok(b)
  {
    var h2 := (b[0] as int) * 0x100 + b[1] as int;
    var h3 := h2 * 0x100 + b[2] as int;
    var u := h3 * 0x100 + b[3] as int;
    DivMod256(h3, b[3] as int);
    DivMod256(h2, b[2] as int);
    DivMod256(b[0] as int, b[1] as int);
    var n := UnpackInt32(b);
    assert (if n < 0 then n + 0x1_0000_0000 else n) == u;
    assert PackInt32(UnpackInt32(b)).value == [b[0], b[1], b[2], b[3]] == b;
  }

  /** `struct.pack('!ddd', x, y, z)` (AccelerometerData.serialize and
      GyroData.serialize). */
  function PackDoubles(v: Vec3, enc: real -> Bytes8): (r: seq<byte>)
    ensures |r| == 24
  {
    enc(v.x) + enc(v.y) + enc(v.z)
  }

  /** `MpuDataPoint.serialize`: id, then the accelerometer triple, then the
      gyroscope triple. */
  function PointBytes(p: MpuDataPoint, enc: real -> Bytes8): (r: Result<seq<byte>>)
    ensures r.Ok? <==> InInt32(p.mpuId)
    ensures r.Ok? ==> |r.value| == 52
    ensures r.Err? ==> r.fault == StructError
  {
    match PackInt32(p.mpuId)
    case Err(f) => Err(f)
    case Ok(id) => Ok(id + PackDoubles(p.accel, enc) + PackDoubles(p.gyro, enc))
  }

  /** What a receiver sees of a point: the id and the six eight-byte floats
      in wire order (accelerometer x,y,z, gyroscope x,y,z). */
  datatype WirePoint = WirePoint(mpuId: int, doubles: seq<Bytes8>)

  function Encode(p: MpuDataPoint, enc: real -> Bytes8): (w: WirePoint)
    ensures |w.doubles| == 6
  {
    WirePoint(p.mpuId, [enc(p.accel.x), enc(p.accel.y), enc(p.accel.z),
                        enc(p.gyro.x), enc(p.gyro.y), enc(p.gyro.z)])
  }

  function EncodeAll(ps: seq<MpuDataPoint>, enc: real -> Bytes8): (ws: seq<WirePoint>)
    ensures |ws| == |ps|
  {
    seq(|ps|, i requires 0 <= i < |ps| => Encode(ps[i], enc))
  }

  /** Reads one 52-byte point record. */
  function ParsePoint(b: seq<byte>): (w: WirePoint)
    requires |b| == 52
    ensures |w.doubles| == 6
  {
    WirePoint(UnpackInt32(b[..4]), seq(6, t requires 0 <= t < 6 => b[4 + 8 * t .. 12 + 8 * t]))
  }

  /** A point record reads back as the point's id and encoded floats ... */
  lemma PointRoundTrip(p: MpuDataPoint, enc: real -> Bytes8)
    requires InInt32(p.mpuId)
    ensures ParsePoint(PointBytes(p, enc).value) == Encode(p, enc)
  {
    var b := PointBytes(p, enc).value;
    assert b[..4] == PackInt32(p.mpuId).value;
    Int32RoundTrip(p.mpuId);
    var w := ParsePoint(b).doubles;
    var e := Encode(p, enc).doubles;
    forall t | 0 <= t < 6 ensures w[t] == e[t] {
      assert b[4..] == PackDoubles(p.accel, enc) + PackDoubles(p.gyro, enc);
    }
  }

  /** ... and a record that reads as a point's encoding is that point's
      record. */
  lemma PointBytesOfParse(b: seq<byte>, p: MpuDataPoint, enc: real -> Bytes8)
    requires |b| == 52 && ParsePoint(b) == Encode(p, enc)
    ensures PointBytes(p, enc) == Ok(b)
  {
    Int32BytesRoundTrip(b[..4]);
    var w := ParsePoint(b).doubles;
    var e := Encode(p, enc).doubles;
    assert w == e;
    assert w[0] == b[4..12] && w[1] == b[12..20] && w[2] == b[20..28];
    assert w[3] == b[28..36] && w[4] == b[36..44] && w[5] == b[44..52];
    assert PackDoubles(p.accel, enc) == b[4..12] + b[12..20] + b[20..28];
    assert PackDoubles(p.gyro, enc) == b[28..36] + b[36..44] + b[44..52];
    assert PackInt32(p.mpuId) == Ok(b[..4]);
    assert b == b[..4] + (b[4..12] + b[12..20] + b[20..28]) + (b[28..36] + b[36..44] + b[44..52]);
  }

  /** Appending a record after n records keeps the first n where they were. */
  lemma RecordsAppend(fb: seq<byte>, lb: seq<byte>, n: nat)
    requires |fb| == 52 * n && |lb| == 52
    ensures forall i :: 0 <= i < n ==> (fb + lb)[52 * i .. 52 * i + 52] == fb[52 * i .. 52 * i + 52]
    ensures (fb + lb)[52 * n .. 52 * n + 52] == lb
  {
  }

  /** The serialised points in list order; struct.error if any id is out of
      range. */
  function PointsBytes(ps: seq<MpuDataPoint>, enc: real -> Bytes8): (r: Result<seq<byte>>)
    ensures r.Ok? <==> forall i :: 0 <= i < |ps| ==> InInt32(ps[i].mpuId)
    ensures r.Err? ==> r.fault == StructError
    ensures r.Ok? ==> |r.value| == 52 * |ps|
  {
    if ps == [] then Ok([])
    else
      var front := ps[..|ps| - 1];
      assert forall i :: 0 <= i < |front| ==> front[i] == ps[i];
      match PointsBytes(front, enc)
      case Err(f) => Err(f)
      case Ok(fb) =>
        match PointBytes(ps[|ps| - 1], enc)
        case Err(f) => Err(f)
        case Ok(lb) => Ok(fb + lb)
  }

  /** Record i of the serialised points is point i's serialisation. */
  lemma {:induction false} PointsBytesRecords(ps: seq<MpuDataPoint>, enc: real -> Bytes8)
    requires PointsBytes(ps, enc).Ok?
    ensures forall i :: 0 <= i < |ps| ==>
      PointsBytes(ps, enc).value[52 * i .. 52 * i + 52] == PointBytes(ps[i], enc).value
  {
    if ps != [] {
      var front := ps[..|ps| - 1];
      assert forall i :: 0 <= i < |front| ==> front[i] == ps[i];
      PointsBytesRecords(front, enc);
      RecordsAppend(PointsBytes(front, enc).value, PointBytes(ps[|ps| - 1], enc).value, |front|);
    }
  }

  /** `MpuDataPacket(data).serialize()`: the point count, then the points. */
  function PacketBytes(ps: seq<MpuDataPoint>, enc: real -> Bytes8): (r: Result<seq<byte>>)
    ensures r.Ok? <==> InInt32(|ps|) && forall i :: 0 <= i < |ps| ==> InInt32(ps[i].mpuId)
    ensures r.Err? ==> r.fault == StructError
    ensures r.Ok? ==> |r.value| == 4 + 52 * |ps|
  {
    match PointsBytes(ps, enc)
    case Err(f) => Err(f)
    case Ok(body) =>
      match PackInt32(|ps|)
      case Err(f) => Err(f)
      case Ok(count) => Ok(count + body)
  }

  /** A receiver's reading of a packet: None unless the count is
      non-negative and exactly that many records follow. */
  function ParsePacket(b: seq<byte>): (r: Option<seq<WirePoint>>)
  {
    if |b| < 4 then None
    else
      var n := UnpackInt32(b[..4]);
      if n < 0 || |b| != 4 + 52 * n then None
      else Some(seq(n, i requires 0 <= i < n => ParsePoint(b[4 + 52 * i .. 4 + 52 * i + 52])))
  }

  /** Serialising then parsing gives back every point, in order. */
  lemma {:induction false} PacketRoundTrip(ps: seq<MpuDataPoint>, enc: real -> Bytes8)
    requires PacketBytes(ps, enc).Ok?
    ensures ParsePacket(PacketBytes(ps, enc).value) == Some(EncodeAll(ps, enc))
  {
    var b := PacketBytes(ps, enc).value;
    var body := PointsBytes(ps, enc).value;
    PointsBytesRecords(ps, enc);
    assert b == PackInt32(|ps|).value + body;
    assert b[..4] == PackInt32(|ps|).value;
    Int32RoundTrip(|ps|);
    assert b[4..] == body;
    var parsed := ParsePacket(b).value;
    forall i | 0 <= i < |ps| ensures parsed[i] == Encode(ps[i], enc) {
      assert b[4 + 52 * i .. 4 + 52 * i + 52] == b[4..][52 * i .. 52 * i + 52];
      PointRoundTrip(ps[i], enc);
    }
    assert parsed == EncodeAll(ps, enc);
  }

  /** Parsing then serialising gives back the bytes: a byte string that
      parses as the encoding of some points is exactly their packet. */
  lemma {:induction false} PacketOfParse(b: seq<byte>, ps: seq<MpuDataPoint>, enc: real -> Bytes8)
    requires ParsePacket(b) == Some(EncodeAll(ps, enc))
    ensures PacketBytes(ps, enc) == Ok(b)
  {
    var n := |ps|;
    Int32BytesRoundTrip(b[..4]);
    assert UnpackInt32(b[..4]) == n;
    var parsed := ParsePacket(b).value;
    forall i | 0 <= i < n
      ensures InInt32(ps[i].mpuId)
      ensures PointBytes(ps[i], enc) == Ok(b[4 + 52 * i .. 4 + 52 * i + 52])
    {
      assert parsed[i] == Encode(ps[i], enc);
      PointBytesOfParse(b[4 + 52 * i .. 4 + 52 * i + 52], ps[i], enc);
    }
    var body := PointsBytes(ps, enc).value;
    PointsBytesRecords(ps, enc);
    forall i | 0 <= i < n ensures body[52 * i .. 52 * i + 52] == b[4..][52 * i .. 52 * i + 52] {
      assert body[52 * i .. 52 * i + 52] == PointBytes(ps[i], enc).value;
      assert b[4..][52 * i .. 52 * i + 52] == b[4 + 52 * i .. 4 + 52 * i + 52];
    }
    RecordsEqual(body, b[4..], n);
    assert b == b[..4] + b[4..];
  }

  /** Two byte strings of n records agree when every record does. */
  lemma RecordsEqual(x: seq<byte>, y: seq<byte>, n: nat)
    requires |x| == 52 * n && |y| == 52 * n
    requires forall i :: 0 <= i < n ==> x[52 * i .. 52 * i + 52] == y[52 * i .. 52 * i + 52]
    ensures x == y
  {
    forall j | 0 <= j < |x| ensures x[j] == y[j] {
      var i := j / 52;
      assert 0 <= i < n && 52 * i <= j < 52 * i + 52;
      assert x[j] == x[52 * i .. 52 * i + 52][j - 52 * i];
      assert y[j] == y[52 * i .. 52 * i + 52][j - 52 * i];
    }
  }

  /** MpuDataPacket.serialize as the source writes it: grow a buffer point by
      point, then put the count in front. */
  method SerializePacket(data: seq<MpuDataPoint>, enc: real -> Bytes8) returns (r: Result<seq<byte>>)
    ensures r == PacketBytes(data, enc)
    ensures r.Ok? ==> |r.value| == 4 + 52 * |data|
  {
    var serialized: seq<byte> := [];
    for i := 0 to |data|
      invariant PointsBytes(data[..i], enc) == Ok(serialized)
    {
      var point := PointBytes(data[i], enc);
      if point.Err? {
        assert !InInt32(data[i].mpuId);
        return Err(point.fault);
      }
      assert data[..i + 1][..i] == data[..i];
      serialized := serialized + point.value;
    }
    assert data[..|data|] == data;
    var count := PackInt32(|data|);
    if count.Err? {
      return Err(count.fault);
    }
    r := Ok(count.value + serialized);
  }
}
