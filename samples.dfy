/** Measurement points and the decoding of raw sensor bytes into them: the
    16-bit two's-complement words of read_word_data and _transform_raw_data,
    and the scaling by the cached full-scale sensitivities.

    Python floats are modelled as reals: the scaled values are the exact
    quotients, without binary64 rounding. */
module Samples {
  import opened Common
  import opened Icm20689Regs

  /** AccelerometerData and GyroData: three axis values. */
  datatype Vec3 = Vec3(x: real, y: real, z: real)

  /** One FIFO slot of one chip: its id and the scaled accelerometer and
      gyroscope readings. */
  datatype MpuDataPoint = MpuDataPoint(mpuId: int, accel: Vec3, gyro: Vec3)

  /** Icm20689.GRAVITIY_MS2. */
  const GRAVITY_MS2: real := 9.80665

  /** The signed value of a big-endian high/low byte pair:
      `value = (high << 8) + low`, then `-((65535 - value) + 1)` when the sign
      bit is set. The result is the one 16-bit signed integer whose bit
      pattern is the pair. */
  function Decode16(high: byte, low: byte): (v: int)
    ensures -32768 <= v <= 32767
    ensures v < 0 <==> high >= 0x80
  {
    var value := (high as int) * 256 + low as int;
    if value >= 0x8000 then -((65535 - value) + 1) else value
  }

  /** The decoded value has the pair's bit pattern: it equals
      `(high << 8) + low` modulo 2^16, and is that value itself when the sign
      bit is clear or that value minus 65536 when it is set. */
  lemma Decode16Pattern(high: byte, low: byte)
    ensures (Decode16(high, low) + 65536) % 65536 == high * 256 + low
    ensures Decode16(high, low) == if high * 256 + low < 0x8000 then high * 256 + low else high * 256 + low - 65536
  {
  }

  /** The high and low byte of a signed 16-bit value. */
  function Split16(v: int): (hl: (byte, byte))
    requires -32768 <= v <= 32767
  {
    var u := (v + 65536) % 65536;
    (u / 256, u % 256)
  }

  /** Decoding undoes splitting ... */
  lemma Decode16OfSplit(v: int)
    requires -32768 <= v <= 32767
    ensures Decode16(Split16(v).0, Split16(v).1) == v
  {
  }

  /** ... and splitting undoes decoding: the decode loses nothing. */
  lemma Split16OfDecode(high: byte, low: byte)
    ensures Split16(Decode16(high, low)) == (high, low)
  {
  }

  /** The values _transform_raw_data makes of the bytes: value i from bytes
      2i (high) and 2i+1 (low), one per complete pair. */
  function DecodeWords(raw: seq<byte>): (vs: seq<int>)
    ensures |vs| == |raw| / 2
  {
    seq(|raw| / 2, i requires 0 <= i < |raw| / 2 => Decode16(raw[2 * i], raw[2 * i + 1]))
  }

  /** `_transform_raw_data`: walk the bytes two at a time, appending each
      decoded word. Only ever called with an even count of bytes (an odd one
      makes the last `raw_data[i+1]` raise IndexError). */
  method TransformRawData(raw: seq<byte>) returns (dataPoints: seq<int>)
    requires |raw| % 2 == 0
    ensures |dataPoints| == |raw| / 2
    ensures forall i :: 0 <= i < |dataPoints| ==>
      dataPoints[i] == Decode16(raw[2 * i], raw[2 * i + 1])
    ensures dataPoints == DecodeWords(raw)
  {
    dataPoints := [];
    var i := 0;
    while i < |raw|
      invariant 0 <= i <= |raw| && i % 2 == 0
      invariant |dataPoints| == i / 2
      invariant forall j :: 0 <= j < i / 2 ==> dataPoints[j] == Decode16(raw[2 * j], raw[2 * j + 1])
    {
      var value := (raw[i] as int) * 256 + raw[i + 1] as int;
      if value >= 0x8000 {
        dataPoints := dataPoints + [-((65535 - value) + 1)];
      } else {
        dataPoints := dataPoints + [value];
      }
      i := i + 2;
    }
  }

  /** `accel_scale_modifier`: LSB per m/s^2 at the cached accelerometer
      range. */
  function AccelModifier(a: AfsSel): (m: real)
    ensures m > 0.0
  {
    a.GetLsbSensitivity() / GRAVITY_MS2
  }

  /** The point read_fifo_data builds from six consecutive decoded words:
      words 0..2 are accelerometer x,y,z, words 3..5 gyroscope x,y,z, each
      divided by its cached scale modifier. Accelerometer words become m/s^2
      (word * g / LSB-per-g) and gyroscope words deg/s (word / LSB-per-deg/s). */
  function ScaledPoint(id: int, a: AfsSel, g: FsSel, w: seq<int>): (p: MpuDataPoint)
    requires |w| == 6
    ensures p.mpuId == id
    ensures p.accel == Vec3(w[0] as real * GRAVITY_MS2 / a.GetLsbSensitivity(),
                            w[1] as real * GRAVITY_MS2 / a.GetLsbSensitivity(),
                            w[2] as real * GRAVITY_MS2 / a.GetLsbSensitivity())
    ensures p.gyro.x * g.GetLsbSensitivity() == w[3] as real
    ensures p.gyro.y * g.GetLsbSensitivity() == w[4] as real
    ensures p.gyro.z * g.GetLsbSensitivity() == w[5] as real
  {
    var gm := g.GetLsbSensitivity();
    var am := AccelModifier(a);
    MpuDataPoint(id,
      Vec3(w[0] as real / am, w[1] as real / am, w[2] as real / am),
      Vec3(w[3] as real / gm, w[4] as real / gm, w[5] as real / gm))
  }

  /** The SPI read_fifo_data regrouping: every complete run of six values,
      in order, makes one point. */
  function GroupPoints(vs: seq<int>, id: int, a: AfsSel, g: FsSel): (ps: seq<MpuDataPoint>)
    ensures |ps| == |vs| / 6
  {
    seq(|vs| / 6, k requires 0 <= k < |vs| / 6 => ScaledPoint(id, a, g, vs[6 * k .. 6 * k + 6]))
  }

  /** The scaling loop of Icm20689SPI.read_fifo_data: for each run of six
      words, gyroscope x,y,z from words 3..5 and accelerometer x,y,z from
      words 0..2, each divided by its scale modifier, appended as one point. */
  method ScaleWords(id: int, a: AfsSel, g: FsSel, dataPoints: seq<int>) returns (data: seq<MpuDataPoint>)
    requires |dataPoints| % 6 == 0
    ensures data == GroupPoints(dataPoints, id, a, g)
  {
    data := [];
    var gyroScaleModifier := g.GetLsbSensitivity();
    var accelScaleModifier := a.GetLsbSensitivity() / GRAVITY_MS2;
    ghost var n := |dataPoints| / 6;
    ghost var k := 0;
    var i := 0;
    while i < |dataPoints|
      invariant i == 6 * k && k <= n && |dataPoints| == 6 * n
      invariant |data| == k
      invariant forall j :: 0 <= j < k ==> data[j] == ScaledPoint(id, a, g, dataPoints[6 * j .. 6 * j + 6])
    {
      var gX := dataPoints[i + 3] as real / gyroScaleModifier;
      var gY := dataPoints[i + 4] as real / gyroScaleModifier;
      var gZ := dataPoints[i + 5] as real / gyroScaleModifier;
      var x := dataPoints[i + 0] as real / accelScaleModifier;
      var y := dataPoints[i + 1] as real / accelScaleModifier;
      var z := dataPoints[i + 2] as real / accelScaleModifier;
      data := data + [MpuDataPoint(id, Vec3(x, y, z), Vec3(gX, gY, gZ))];
      i := i + 6;
      k := k + 1;
    }
  }
}
