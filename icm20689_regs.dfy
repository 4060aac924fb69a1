/** The ICM-20689 register map of icm20689_regs.py: register addresses, the
    two full-scale selectors with their sensitivity tables, and the FIFO and
    interrupt bit flags. */
module Icm20689Regs {
  import opened Common

  /** The addresses the ICM20689Regs enum gives a name to. */
  predicate IsRegister(a: int)
  {
    a == 0x00
    || a == 0x01
    || a == 0x02
    || a == 0x0D
    || a == 0x0E
    || a == 0x0F
    || a == 0x13
    || a == 0x14
    || a == 0x15
    || a == 0x16
    || a == 0x17
    || a == 0x18
    || a == 0x19
    || a == 0x1A
    || a == 0x1B
    || a == 0x1C
    || a == 0x1D
    || a == 0x1E
    || a == 0x1F
    || a == 0x23
    || a == 0x36
    || a == 0x37
    || a == 0x38
    || a == 0x39
    || a == 0x3A
    || a == 0x3B
    || a == 0x3C
    || a == 0x3D
    || a == 0x3E
    || a == 0x3F
    || a == 0x40
    || a == 0x41
    || a == 0x42
    || a == 0x43
    || a == 0x44
    || a == 0x45
    || a == 0x46
    || a == 0x47
    || a == 0x48
    || a == 0x68
    || a == 0x69
    || a == 0x6A
    || a == 0x6B
    || a == 0x6C
    || a == 0x72
    || a == 0x73
    || a == 0x74
    || a == 0x75
    || a == 0x77
    || a == 0x78
    || a == 0x7A
    || a == 0x7B
    || a == 0x7D
    || a == 0x7E
  }

  /** A register of the ICM20689Regs enum, identified with its value: the
      enum has no two names for one value (see RegistersAscending), so a
      member is determined by its address. */
  type Reg = a: byte | IsRegister(a) witness 0x00

  const SELF_TEST_X_GYRO: Reg := 0x00
  const SELF_TEST_Y_GYRO: Reg := 0x01
  const SELF_TEST_Z_GYRO: Reg := 0x02
  const SELF_TEST_X_ACCEL: Reg := 0x0D
  const SELF_TEST_Y_ACCEL: Reg := 0x0E
  const SELF_TEST_Z_ACCEL: Reg := 0x0F
  const XG_OFFS_USRH: Reg := 0x13
  const XG_OFFS_USRL: Reg := 0x14
  const YG_OFFS_USRH: Reg := 0x15
  const YG_OFFS_USRL: Reg := 0x16
  const ZG_OFFS_USRH: Reg := 0x17
  const ZG_OFFS_USRL: Reg := 0x18
  const SMPLRT_DIV: Reg := 0x19
  const CONFIG: Reg := 0x1A
  const GYRO_CONFIG: Reg := 0x1B
  const ACCEL_CONFIG: Reg := 0x1C
  const ACCEL_CONFIG_2: Reg := 0x1D
  const LP_MODE_CFG: Reg := 0x1E
  const ACCEL_WOM_THR: Reg := 0x1F
  const FIFO_EN: Reg := 0x23
  const FSYNC_INT: Reg := 0x36
  const INT_PIN_CFG: Reg := 0x37
  const INT_ENABLE: Reg := 0x38
  const DMP_INT_STATUS: Reg := 0x39
  const INT_STATUS: Reg := 0x3A
  const ACCEL_XOUT_H: Reg := 0x3B
  const ACCEL_XOUT_L: Reg := 0x3C
  const ACCEL_YOUT_H: Reg := 0x3D
  const ACCEL_YOUT_L: Reg := 0x3E
  const ACCEL_ZOUT_H: Reg := 0x3F
  const ACCEL_ZOUT_L: Reg := 0x40
  const TEMP_OUT_H: Reg := 0x41
  const TEMP_OUT_L: Reg := 0x42
  const GYRO_XOUT_H: Reg := 0x43
  const GYRO_XOUT_L: Reg := 0x44
  const GYRO_YOUT_H: Reg := 0x45
  const GYRO_YOUT_L: Reg := 0x46
  const GYRO_ZOUT_H: Reg := 0x47
  const GYRO_ZOUT_L: Reg := 0x48
  const SIGNAL_PATH_RESET: Reg := 0x68
  const ACCEL_INTEL_CTRL: Reg := 0x69
  const USER_CTRL: Reg := 0x6A
  const PWR_MGMT_1: Reg := 0x6B
  const PWR_MGMT_2: Reg := 0x6C
  const FIFO_COUNTH: Reg := 0x72
  const FIFO_COUNTL: Reg := 0x73
  const FIFO_R_W: Reg := 0x74
  const WHO_AM_I: Reg := 0x75
  const XA_OFFSET_H: Reg := 0x77
  const XA_OFFSET_L: Reg := 0x78
  const YA_OFFSET_H: Reg := 0x7A
  const YA_OFFSET_L: Reg := 0x7B
  const ZA_OFFSET_H: Reg := 0x7D
  const ZA_OFFSET_L: Reg := 0x7E

  /** The register's address, `register.value`. Every address is below
      0x80, so setting bit 7 (the SPI read flag) never collides with an
      address bit. */
  function Address(r: Reg): (a: byte)
    ensures a < 0x80
  {
    assert IsRegister(r);
    r
  }

  /** The enum lists its members in strictly increasing address order, so
      no two of its 54 names share an address (none is an alias of another). */
  lemma RegistersAscending()
    ensures SELF_TEST_X_GYRO < SELF_TEST_Y_GYRO < SELF_TEST_Z_GYRO < SELF_TEST_X_ACCEL <
      SELF_TEST_Y_ACCEL < SELF_TEST_Z_ACCEL < XG_OFFS_USRH < XG_OFFS_USRL <
      YG_OFFS_USRH < YG_OFFS_USRL < ZG_OFFS_USRH < ZG_OFFS_USRL <
      SMPLRT_DIV < CONFIG < GYRO_CONFIG < ACCEL_CONFIG <
      ACCEL_CONFIG_2 < LP_MODE_CFG < ACCEL_WOM_THR < FIFO_EN <
      FSYNC_INT < INT_PIN_CFG < INT_ENABLE < DMP_INT_STATUS <
      INT_STATUS < ACCEL_XOUT_H < ACCEL_XOUT_L < ACCEL_YOUT_H <
      ACCEL_YOUT_L < ACCEL_ZOUT_H < ACCEL_ZOUT_L < TEMP_OUT_H <
      TEMP_OUT_L < GYRO_XOUT_H < GYRO_XOUT_L < GYRO_YOUT_H <
      GYRO_YOUT_L < GYRO_ZOUT_H < GYRO_ZOUT_L < SIGNAL_PATH_RESET <
      ACCEL_INTEL_CTRL < USER_CTRL < PWR_MGMT_1 < PWR_MGMT_2 <
      FIFO_COUNTH < FIFO_COUNTL < FIFO_R_W < WHO_AM_I <
      XA_OFFSET_H < XA_OFFSET_L < YA_OFFSET_H < YA_OFFSET_L <
      ZA_OFFSET_H < ZA_OFFSET_L
  {
  }

  /** The big-endian output pairs are adjacent: each low-byte register sits
      right after its high-byte register (accelerometer, temperature,
      gyroscope, and the FIFO byte count). */
  lemma OutputPairsAdjacent()
    ensures Address(ACCEL_XOUT_L) == Address(ACCEL_XOUT_H) + 1
    ensures Address(ACCEL_YOUT_L) == Address(ACCEL_YOUT_H) + 1
    ensures Address(ACCEL_ZOUT_L) == Address(ACCEL_ZOUT_H) + 1
    ensures Address(TEMP_OUT_L) == Address(TEMP_OUT_H) + 1
    ensures Address(GYRO_XOUT_L) == Address(GYRO_XOUT_H) + 1
    ensures Address(GYRO_YOUT_L) == Address(GYRO_YOUT_H) + 1
    ensures Address(GYRO_ZOUT_L) == Address(GYRO_ZOUT_H) + 1
    ensures Address(FIFO_COUNTL) == Address(FIFO_COUNTH) + 1
  {
  }

  /** Gyroscope full-scale selector (FS_SEL), in degrees per second. */
  datatype FsSel = FS_DEG_250 | FS_DEG_500 | FS_DEG_1000 | FS_DEG_2000
  {
    /** The selector's value, the code written into GYRO_CONFIG bits 4:3. */
    function Value(): (v: nat)
      ensures v <= 3
    {
      match this
      case FS_DEG_250 => 0x0
      case FS_DEG_500 => 0x1
      case FS_DEG_1000 => 0x2
      case FS_DEG_2000 => 0x3
    }

    /** `FS_SEL(v)`: the selector with value v, or None where Python raises
        ValueError. */
    static function FromValue(v: int): (r: Option<FsSel>)
      ensures r.Some? <==> 0 <= v <= 3
      ensures r.Some? ==> r.value.Value() == v
    {
      if v == 0x0 then Some(FS_DEG_250)
      else if v == 0x1 then Some(FS_DEG_500)
      else if v == 0x2 then Some(FS_DEG_1000)
      else if v == 0x3 then Some(FS_DEG_2000)
      else None
    }

    /** The measuring range the selector's name gives: 250 * 2^v deg/s. */
    function FullScale(): (dps: nat)
      ensures dps == 250 * Pow2(Value())
    {
      match this
      case FS_DEG_250 => 250
      case FS_DEG_500 => 500
      case FS_DEG_1000 => 1000
      case FS_DEG_2000 => 2000
    }

    /** LSB per deg/s: the signed 16-bit span 2^15 over the range, as the
        datasheet rounds it (within 0.1 of the exact quotient). */
    function GetLsbSensitivity(): (s: real)
      ensures s > 0.0
    {
      match this
      case FS_DEG_250 => 131.0
      case FS_DEG_500 => 65.5
      case FS_DEG_1000 => 32.8
      case FS_DEG_2000 => 16.4
    }
  }

  /** The gyroscope table is 2^15 over the range, to within 0.1, and exact
      in tenths: 1310, 655, 328, 164. */
  lemma GyroSensitivityScale(s: FsSel)
    ensures -0.1 < s.GetLsbSensitivity() - 32768.0 / s.FullScale() as real < 0.1
    ensures s.GetLsbSensitivity() * 10.0 == [1310.0, 655.0, 328.0, 164.0][s.Value()]
  {
  }

  lemma {:induction false} FsSelRoundTrip(s: FsSel)
    ensures FsSel.FromValue(s.Value()) == Some(s)
  {
    match s
    case FS_DEG_250 =>
    case FS_DEG_500 =>
    case FS_DEG_1000 =>
    case FS_DEG_2000 =>
  }

  /** A wider gyroscope range means fewer LSB per deg/s. */
  lemma GyroSensitivityDecreasing(a: FsSel, b: FsSel)
    ensures a.Value() < b.Value() <==> b.GetLsbSensitivity() < a.GetLsbSensitivity()
  {
  }

  /** Accelerometer full-scale selector (AFS_SEL), in g. */
  datatype AfsSel = FS_2G | FS_4G | FS_8G | FS_16G
  {
    /** The selector's value, the code written into ACCEL_CONFIG bits 4:3. */
    function Value(): (v: nat)
      ensures v <= 3
    {
      match this
      case FS_2G => 0x0
      case FS_4G => 0x1
      case FS_8G => 0x2
      case FS_16G => 0x3
    }

    /** `AFS_SEL(v)`: the selector with value v, or None where Python raises
        ValueError. */
    static function FromValue(v: int): (r: Option<AfsSel>)
      ensures r.Some? <==> 0 <= v <= 3
      ensures r.Some? ==> r.value.Value() == v
    {
      if v == 0x0 then Some(FS_2G)
      else if v == 0x1 then Some(FS_4G)
      else if v == 0x2 then Some(FS_8G)
      else if v == 0x3 then Some(FS_16G)
      else None
    }

    /** The measuring range the selector's name gives: 2 * 2^v g. */
    function FullScale(): (g: nat)
      ensures g == 2 * Pow2(Value())
    {
      match this
      case FS_2G => 2
      case FS_4G => 4
      case FS_8G => 8
      case FS_16G => 16
    }

    /** LSB per g: exactly 16384 / 2^v, i.e. 2^15 over the range. */
    function GetLsbSensitivity(): (s: real)
      ensures s > 0.0
    {
      match this
      case FS_2G => 16384.0
      case FS_4G => 8192.0
      case FS_8G => 4096.0
      case FS_16G => 2048.0
    }
  }

  /** The accelerometer table is exactly 16384 / 2^v, i.e. 2^15 over the
      range. */
  lemma AccelSensitivityScale(s: AfsSel)
    ensures s.GetLsbSensitivity() == 16384.0 / Pow2(s.Value()) as real
    ensures s.GetLsbSensitivity() == 32768.0 / s.FullScale() as real
  {
  }

  lemma {:induction false} AfsSelRoundTrip(s: AfsSel)
    ensures AfsSel.FromValue(s.Value()) == Some(s)
  {
    match s
    case FS_2G =>
    case FS_4G =>
    case FS_8G =>
    case FS_16G =>
  }

  /** The FIFO_EN register's bits (IntEnum FIFO_EN). */
  datatype FifoEn =
    | SLV0_FIFO_EN | SLV1_FIFO_EN | SLV2_FIFO_EN | ACCEL_FIFO_EN
    | ZG_FIFO_EN | YG_FIFO_EN | XG_FIFO_EN | TEMP_FIFO_EN
  {
    /** k in the flag's `1 << k`: a bit of the 8-bit register. */
    function Shift(): (k: nat)
      ensures k < 8
    {
      match this
      case SLV0_FIFO_EN => 0
      case SLV1_FIFO_EN => 1
      case SLV2_FIFO_EN => 2
      case ACCEL_FIFO_EN => 3
      case ZG_FIFO_EN => 4
      case YG_FIFO_EN => 5
      case XG_FIFO_EN => 6
      case TEMP_FIFO_EN => 7
    }

    /** The flag's value `1 << k`: a byte with bit k and no other. */
    function Value(): (v: nat)
      ensures v < 256 && forall j :: Bit(v, j) <==> j == Shift()
    {
      SingleBit(Shift())
    }
  }

  /** Different flags sit at different bit positions. */
  lemma ShiftInjective(f: FifoEn, g: FifoEn)
    ensures f.Shift() == g.Shift() <==> f == g
  {
  }

  /** Each FIFO_EN flag is one bit of a byte, and different flags are
      different bits. */
  lemma {:induction false} FifoEnSingleBits(f: FifoEn, g: FifoEn)
    ensures f.Value() < 256
    ensures Bit(f.Value(), g.Shift()) <==> f == g
  {
    Pow2Bit(f.Shift(), g.Shift());
    ShiftInjective(f, g);
    assert Pow2(7) == 128;
    Pow2Monotone(f.Shift(), 7);
  }

  /** The mask set_fifo_enable writes: accelerometer and the three gyroscope
      axes, `ACCEL | XG | YG | ZG`. */
  function SensorFifoMask(): (m: nat)
    ensures m == 0x78
  {
    assert ACCEL_FIFO_EN.Value() == 8 && XG_FIFO_EN.Value() == 64;
    assert YG_FIFO_EN.Value() == 32 && ZG_FIFO_EN.Value() == 16;
    assert Or(1, 8) == 9;
    assert Or(2, 16) == 18;
    assert Or(4, 32) == 36;
    assert Or(8, 64) == 72;
    assert Or(9, 4) == 13;
    assert Or(18, 8) == 26;
    assert Or(36, 16) == 52;
    assert Or(72, 32) == 104;
    assert Or(13, 2) == 15;
    assert Or(26, 4) == 30;
    assert Or(52, 8) == 60;
    assert Or(104, 16) == 120;
    Or(Or(Or(ACCEL_FIFO_EN.Value(), XG_FIFO_EN.Value()), YG_FIFO_EN.Value()), ZG_FIFO_EN.Value())
  }

  /** The INT_ENABLE register's bits (IntEnum INT_ENABLE). */
  datatype IntEnable = DATA_RDY_EN | I2C_MST_INT_EN | FIFO_OFLOW_EN
  {
    /** k in the flag's `1 << k`: a bit of the 8-bit register. */
    function Shift(): (k: nat)
      ensures k < 8
    {
      match this
      case DATA_RDY_EN => 0
      case I2C_MST_INT_EN => 3
      case FIFO_OFLOW_EN => 4
    }

    /** The flag's value `1 << k`: a byte with bit k and no other. */
    function Value(): (v: nat)
      ensures v < 256 && forall j :: Bit(v, j) <==> j == Shift()
    {
      SingleBit(Shift())
    }
  }

  /** The INT_STATUS register's bits (IntEnum INT_STATUS). The enum declares
      FIFO_OFLOW_INT with the value of I2C_MST_INT_INT, so Python makes it an
      alias of that member: there are only two members. */
  datatype IntStatus = DATA_RDY_INT | I2C_MST_INT_INT
  {
    /** k in the flag's `1 << k`: a bit of the 8-bit register. */
    function Shift(): (k: nat)
      ensures k < 8
    {
      match this
      case DATA_RDY_INT => 0
      case I2C_MST_INT_INT => 3
    }

    /** The flag's value `1 << k`: a byte with bit k and no other. */
    function Value(): (v: nat)
      ensures v < 256 && forall j :: Bit(v, j) <==> j == Shift()
    {
      SingleBit(Shift())
    }
  }

  const FIFO_OFLOW_INT: IntStatus := I2C_MST_INT_INT

  /** The overflow status bit is the I2C-master bit (1 << 3), while the
      overflow enable bit is 1 << 4. */
  lemma OverflowBitsDiffer()
    ensures FIFO_OFLOW_INT == I2C_MST_INT_INT && FIFO_OFLOW_INT.Value() == 8
    ensures FIFO_OFLOW_EN.Value() == 16 && FIFO_OFLOW_INT.Value() != FIFO_OFLOW_EN.Value()
  {
  }
}
