# ICM-20689 driver core, modelled in Dafny

This project models the core of a Raspberry Pi data logger for ICM-20689
inertial sensors (InvenSense six-axis accelerometer and gyroscope), and proves
properties of that model. It covers:

- the register map and its selector and flag enums (`icm20689_regs.py`);
- the `Icm20689`/`Icm20689SPI` driver:
  - register reads and writes as SPI transactions;
  - the configuration write sequences and the cached settings;
  - range and rate readback;
  - both FIFO drains;
- the `MpuDataPoint`/`MpuDataPacket` wire format;
- one pass of each thread of the main script: the UDP sender, the data
  collector and the file writer.

The modules follow the program's structure:

| file | module | what it holds |
|---|---|---|
| common.dfy | `Common` | `Option`, `Result` and `Fault` (the Python exceptions the core raises); `int()` truncation; `1 << k`; bitwise or on naturals |
| icm20689_regs.dfy | `Icm20689Regs` | the `ICM20689Regs` address table; `FS_SEL`/`AFS_SEL` with their sensitivity tables; the `FIFO_EN`, `INT_ENABLE` and `INT_STATUS` flags |
| spi.dfy | `Spi` | the SPI bus: a log of chip-select edges and `xfer` frames, with an abstract sensor on the other end |
| samples.dfy | `Samples` | measurement points; the 16-bit two's-complement decode; `_transform_raw_data`; the scaling loop of the SPI drain |
| packets.dfy | `Packets` | `struct.pack('!i')`; the 52-byte point record; the packet; a receiver's parse and the round trips |
| device.dfy | `Device` | class `Icm20689`, its methods, and the pure functions of the peer that specify them |
| pipeline.dfy | `Pipeline` | the shared queue; the coalescing loop; one pass of the sender, the file writer and the collector |

Every driver method is proved against a pure function of the sensor state it
starts from. For example, `ReadFifoData` is proved to return exactly
`SpiDrain(peer)`. The driver's promises are then lemmas about those
functions:

- how many points a drain yields;
- which FIFO bytes the drain consumes;
- how each point is decoded;
- that, for a FIFO count between 0 and 4096, the base drain returns the SPI
  drain's points less the last one.

The packet serialiser is proved equal to a layout function. That layout is
then shown to be inverted by a receiver's parse, in both directions.

### Assumptions of the model

- **The sensor** is a plain file of 128 one-byte registers plus its FIFO, a
  byte sequence with a read cursor.
  - A read of FIFO_R_W answers the byte at the cursor and advances the
    cursor. A FIFO that has run dry reads as zero.
  - Any other read answers the register.
  - A write frame stores its second byte in the addressed register.
  - No other silicon behaviour is modelled, such as self-clearing reset bits
    or the count registers tracking the FIFO's fill level. A lemma
    (`SpiDrainOfConsistentPeer`) shows what the SPI drain reads when the
    count registers do match the FIFO.
- **spidev** sends the low eight bits of each integer in an `xfer` list, so
  the model puts `v % 256` on the wire.
- **Floats.** Python floats are reals: the scaled readings are exact
  quotients.
  - The IEEE-754 bytes that `struct.pack('!d')` produces come from a
    parameter `enc: real -> 8 bytes`. Only the packet layout is proved, not
    the float encoding.
- **Registers.** A register is its address. `Reg` is the subset of bytes the
  `ICM20689Regs` table names, and `Address` is the identity on it.
- **Parsing `int(..., 2)`.** `ParseBase2` models this call only on the
  digit strings the range setters build. On those strings it gives
  ValueError for a character that is not a binary digit, so `bin()` of a
  negative value fails as in Python.
- **Exceptions** that the core raises become `Err(...)` results:
  - IndexError: a negative bulk size, a negative FIFO count;
  - ValueError: `FS_SEL(v)`/`AFS_SEL(v)` outside 0..3, and `int('-…', 2)`;
  - ZeroDivisionError: a sample frequency of 0;
  - struct.error: an id or count outside 32 bits.
- **Threads.** Each thread pass is one sequential step against the queue.
  The time a file-writer pass reads is a parameter.

### Code behaviour the model follows

The model keeps each of these behaviours of the code as written:

- The base `Icm20689.read_fifo_data` loops over `range(0, floor(c/6) - 1)`,
  so it reads one complete sample slot fewer than the count announces
  (none at all when the count is below 12). For a count between 0 and 4096,
  `BaseDropsLastSlot` proves that the result is the SPI drain's result with
  its last point removed; both are empty for a count below 6. Above 4096 the
  two drains part ways: the SPI drain clamps the count to 4096 and returns
  at most 682 points, while the base drain does not clamp and returns
  ⌊c/6⌋ − 1 points (999 for a count of 6000).
- `read_gyro_range` reads GYRO_CONFIG but answers the cached setting: the
  line that would refresh the cache is commented out (icm20689.py:250).
  `read_accel_range` does refresh its cache.
- `set_sample_frequency` truncates `1000/f - 1` with `int()`; it does not
  round. The rate then reads back as at least `f`, and exactly `f` only
  when `1000/f` is a whole number (`SampleFrequencyReadBack`).
- On a setter, an out-of-range selector value (`AFS_SEL(v)` for v > 3)
  raises only after both writes have gone out. A negative value raises
  after the first write, inside `int(bin(v)[2:] + '000', 2)`.
- `INT_STATUS.FIFO_OFLOW_INT` has the value of `I2C_MST_INT_INT`. Python
  therefore makes it an alias: there is no distinct overflow member.
- The file writer formats the scaled readings with `%d`, which drops their
  fraction.
- The collector queues the empty list of an empty FIFO like any other batch.

## Model

| member | source | states |
|---|---|---|
| Common.Trunc | icm20689.py:171 | Python's `int()` of a float: `TruncatedTo`, the integer next to x toward zero (within one, on the side of zero) |
| Common.Pow2 | icm20689.py:294-297 | `1 << k` is positive and has bit k set |
| Common.Bit | icm20689_regs.py:102-120 | a value with any bit set is positive |
| Common.Or | icm20689.py:294-297 | `a \| b` is at least a and at least b, and at most a + b |
| Common.SingleBit | icm20689_regs.py:102-120 | `1 << k` for k below 8 is a byte whose only set bit is bit k |
| Icm20689Regs.Address | icm20689_regs.py:3-58 | every address in the table is below 0x80, so `register.value \| 0x80` sets a bit the address does not use |
| Icm20689Regs.RegistersAscending | icm20689_regs.py:3-58 | the table's addresses strictly increase in declaration order, so no two registers share an address |
| Icm20689Regs.OutputPairsAdjacent | icm20689_regs.py:30-50 | each accelerometer, temperature and gyroscope output pair, and FIFO_COUNTH/FIFO_COUNTL, has its low register right after its high one |
| Icm20689Regs.FsSel.Value | icm20689_regs.py:70-74 | FS_SEL values lie in 0..3 |
| Icm20689Regs.FsSel.FromValue | icm20689_regs.py:70-74 | `FS_SEL(v)` succeeds exactly for 0..3 and gives the member with that value; otherwise ValueError |
| Icm20689Regs.FsSel.FullScale | icm20689_regs.py:70-74 | the member's range is 250·2^v deg/s |
| Icm20689Regs.FsSel.GetLsbSensitivity | icm20689_regs.py:76-84 | the gyroscope lookup is total on the four members and positive |
| Icm20689Regs.GyroSensitivityScale | icm20689_regs.py:76-84 | the table is 32768 over the range to within 0.1, and exact in tenths: 1310, 655, 328, 164 |
| Icm20689Regs.FsSelRoundTrip | icm20689_regs.py:70-74 | `FS_SEL(s.value)` is s |
| Icm20689Regs.GyroSensitivityDecreasing | icm20689_regs.py:76-84 | a larger selector value has strictly fewer LSB per deg/s, and conversely |
| Icm20689Regs.AfsSel.Value | icm20689_regs.py:86-90 | AFS_SEL values lie in 0..3 |
| Icm20689Regs.AfsSel.FromValue | icm20689_regs.py:86-90 | `AFS_SEL(v)` succeeds exactly for 0..3 and gives the member with that value; otherwise ValueError |
| Icm20689Regs.AfsSel.FullScale | icm20689_regs.py:86-90 | the member's range is 2·2^v g |
| Icm20689Regs.AfsSel.GetLsbSensitivity | icm20689_regs.py:92-100 | the accelerometer lookup is total on the four members and positive |
| Icm20689Regs.AccelSensitivityScale | icm20689_regs.py:92-100 | the table is 16384/2^v, which is 32768 over the range in g |
| Icm20689Regs.AfsSelRoundTrip | icm20689_regs.py:86-90 | `AFS_SEL(s.value)` is s |
| Icm20689Regs.ShiftInjective | icm20689_regs.py:102-110 | different FIFO_EN flags have different bit positions |
| Icm20689Regs.FifoEnSingleBits | icm20689_regs.py:102-110 | each FIFO_EN flag is a single bit below 256, and flag f has bit g set exactly when f is g |
| Icm20689Regs.FifoEn.Value | icm20689_regs.py:102-110 | each FIFO_EN value `1 << k` is a byte whose only set bit is bit k |
| Icm20689Regs.SensorFifoMask | icm20689.py:288-289 | ACCEL \| XG \| YG \| ZG, computed with the modelled `\|`, is 0x78 |
| Icm20689Regs.OverflowBitsDiffer | icm20689_regs.py:112-120 | FIFO_OFLOW_INT is the alias I2C_MST_INT_INT with value 1 << 3, whereas FIFO_OFLOW_EN is 1 << 4 |
| Icm20689Regs.IntEnable.Value | icm20689_regs.py:112-115 | each INT_ENABLE value is a byte whose only set bit is bit 0, 3 or 4 |
| Icm20689Regs.IntStatus.Value | icm20689_regs.py:117-120 | each INT_STATUS value is a byte whose only set bit is bit 0 or 3 |
| Spi.FifoTake | icm20689.py:389-397 | a FIFO read of n bytes yields exactly n bytes |
| Spi.WireByte | icm20689.py:381-387 | the byte on the wire is the Python integer modulo 256 |
| Spi.ReadCommand | icm20689.py:369-379 | the read command has the top bit set |
| Spi.ReadCommandIsOr | icm20689.py:376 | the read command is `register.value \| 0x80`, and removing 0x80 gives back the address |
| Spi.ReadFrame | icm20689.py:376 | the read frame is two bytes: the address with the top bit set, then 0 |
| Spi.WriteFrame | icm20689.py:385 | the write frame is two bytes: the address, whose top bit is clear, then the value |
| Spi.BulkFrame | icm20689.py:389-397 | `_bulk_transfer` sends size+1 bytes: the read command, then zeros |
| Spi.Repeat | icm20689.py:369-379 | n single reads make 3n bus events: chip-select low, the frame, chip-select high |
| Spi.Miso | icm20689.py:376 | the sensor answers one byte per byte sent |
| Spi.After | icm20689.py:384 | the sensor stays well formed after any frame |
| Spi.ReadOn | icm20689.py:369-379 | a register read leaves the sensor well formed |
| Spi.ReadOnIsFrame | icm20689.py:369-379 | read_byte_data returns byte 1 of the answer to `[reg \| 0x80, 0]`; the sensor ends as the frame leaves it |
| Spi.WriteOn | icm20689.py:381-387 | a write sets the addressed register to v and changes no other register and not the FIFO |
| Spi.WriteOnIsFrame | icm20689.py:381-387 | write_byte_data's effect is that of the frame `[reg, value]` |
| Spi.BulkOn | icm20689.py:389-397 | a bulk FIFO read leaves the sensor well formed |
| Spi.BulkOnIsFrame | icm20689.py:389-397 | `_bulk_transfer` returns the answer after its first byte (size FIFO bytes from the cursor), and the cursor moves past them |
| Spi.SpiBus.Output | icm20689.py:374 | `GPIO.output(cs, level)` logs the edge and leaves the sensor as it was |
| Spi.SpiBus.Transfer | icm20689.py:376 | `xfer` answers the sensor's reply and logs the frame |
| Samples.Decode16 | icm20689.py:100-115 | the decoded word lies in [-32768, 32767], and is negative exactly when the high byte has its top bit set |
| Samples.Decode16Pattern | icm20689.py:110-115 | the word is `(high << 8) + low` below 0x8000 and that value minus 65536 from 0x8000 on; its bit pattern is the byte pair |
| Samples.Decode16OfSplit | icm20689.py:110-115 | decoding undoes splitting a 16-bit signed value into its bytes |
| Samples.Split16OfDecode | icm20689.py:110-115 | splitting undoes decoding: the decode loses nothing |
| Samples.DecodeWords | icm20689.py:399-409 | one value per complete byte pair |
| Samples.TransformRawData | icm20689.py:399-409 | on 2n bytes, n values, value i decoded from byte 2i (high) and 2i+1 (low) |
| Samples.AccelModifier | icm20689.py:432 | the accelerometer scale modifier is positive |
| Samples.ScaledPoint | icm20689.py:307-312 | a point is tagged with the chip id; its accelerometer values are word·g/LSB-per-g and its gyroscope values are word/LSB-per-deg/s |
| Samples.GroupPoints | icm20689.py:434-442 | each complete run of six values makes one point |
| Samples.ScaleWords | icm20689.py:434-442 | the scaling loop returns point k made of values 6k..6k+2 (accelerometer) and 6k+3..6k+5 (gyroscope) |
| Packets.PackInt32 | icm20689.py:57 | `struct.pack('!i', n)` gives 4 bytes, with the sign in the top bit, for n in 32 bits; otherwise struct.error |
| Packets.UnpackInt32 | icm20689.py:57 | the big-endian reading of 4 bytes lies in 32 bits |
| Packets.Int32RoundTrip | icm20689.py:57 | unpacking undoes `!i` packing |
| Packets.Int32BytesRoundTrip | icm20689.py:57 | packing undoes unpacking: every 4-byte string is a packed value |
| Packets.PackDoubles | icm20689.py:31-32 | `!ddd` is 24 bytes |
| Packets.PointBytes | icm20689.py:56-59 | a point record is 52 bytes when the id fits 32 bits, otherwise struct.error |
| Packets.Encode | icm20689.py:56-59 | a point carries six doubles on the wire |
| Packets.EncodeAll | icm20689.py:69-74 | one wire point per point |
| Packets.ParsePoint | icm20689.py:56-59 | a 52-byte record gives six doubles |
| Packets.PointRoundTrip | icm20689.py:56-59 | parsing a record gives back the id and the six doubles, accelerometer then gyroscope |
| Packets.PointBytesOfParse | icm20689.py:56-59 | a 52-byte record is the serialisation of any point it parses to |
| Packets.RecordsAppend | icm20689.py:71-72 | appending a record leaves the earlier records in place |
| Packets.PointsBytes | icm20689.py:71-72 | the records succeed exactly when every id fits 32 bits, and are 52 bytes per point |
| Packets.PointsBytesRecords | icm20689.py:71-72 | record i of the body is the serialisation of point i |
| Packets.PacketBytes | icm20689.py:69-74 | the packet succeeds exactly when the count and every id fit 32 bits; it is 4 + 52n bytes; a failure is struct.error |
| Packets.PacketRoundTrip | icm20689.py:69-74 | a receiver parses the packet back into the count and every point, in list order |
| Packets.PacketOfParse | icm20689.py:69-74 | a byte string that parses to a point list is that list's packet |
| Packets.RecordsEqual | icm20689.py:69-74 | two bodies with the same records are equal |
| Packets.SerializePacket | icm20689.py:69-74 | the serialiser loop computes the packet layout, including its struct.error cases |
| Device.Digits | icm20689.py:143 | `bin()` prints at least one digit, and only the digits 0 and 1 |
| Device.PyBin | icm20689.py:143 | `bin(v)` starts "0b" and a binary digit for v ≥ 0, and "-0b" for v < 0 |
| Device.ParseDigits | icm20689.py:143 | a string has a binary value exactly when every character is 0 or 1 |
| Device.ParseBase2 | icm20689.py:143 | `int(s, 2)` succeeds exactly on a non-empty string of binary digits, and otherwise raises ValueError |
| Device.RangeMessage | icm20689.py:143 | the range message `int(bin(v)[2:] + '000', 2)` is 8v for v ≥ 0 and raises ValueError for v < 0 |
| Device.ParseDigitsOfDigits | icm20689.py:143 | reading back the binary digits of v gives v |
| Device.ParseDigitsZero | icm20689.py:143 | appending a '0' digit doubles the value |
| Device.ParseDigitsRejects | icm20689.py:143 | a digit string that starts with another character is rejected |
| Device.ParseDigitsThreeZeros | icm20689.py:143 | appending '000' multiplies by 8 |
| Device.RangeMessageOfNat | icm20689.py:143 | for v ≥ 0, `int(bin(v)[2:] + '000', 2)` is 8v, that is `v << 3` |
| Device.RangeMessageOfNegative | icm20689.py:143 | for v < 0 it raises ValueError, because the digits start with 'b' |
| Device.CountFromWord | icm20689.py:285-286 | the FIFO count is `int(word / 2)`: the signed word halved and truncated toward zero |
| Device.CountOf | icm20689.py:285-286 | get_fifo_count on a sensor lies in [-16384, 16383], half the signed 16-bit range |
| Device.FifoGroup | icm20689.py:306-314 | a FIFO slot is six words |
| Device.FifoPoints | icm20689.py:306-314 | k slots make k points |
| Device.ClampedCount | icm20689.py:420 | `min(count, FIFO_MAX)`: at most the count and at most 4096, and equal to one of them |
| Device.SpiDrain | icm20689.py:416-445 | the SPI drain keeps the sensor well formed |
| Device.BaseDrain | icm20689.py:299-317 | the base drain keeps the sensor well formed |
| Device.LogTwice | icm20689.py:100-108 | two more single reads extend the log by two transactions |
| Device.SlotPoint | icm20689.py:306-314 | slot j is twelve FIFO bytes from at + 12j, read in the order ax, ay, az, gx, gy, gz |
| Device.DecodeWordsOfTake | icm20689.py:411-414 | value m of `_get_fifo_data(n)` is the FIFO word at cursor + 2m |
| Device.GroupOfWords | icm20689.py:434-442 | grouping the FIFO words by six gives the FIFO slots |
| Device.GroupOfTake | icm20689.py:428-442 | the bulk read of 12k bytes, decoded and grouped, gives the first k slots |
| Device.FifoPointsPrefix | icm20689.py:306-314 | the first j of k slots are the first j slots |
| Device.BaseDropsLastSlot | icm20689.py:299-317 | with a count in 0..4096 both drains succeed, and the base drain returns the SPI drain's points without the last one (both are empty below 6); counts above 4096 are excluded because only the SPI drain clamps |
| Device.SpiDrainBounds | icm20689.py:416-445 | the SPI drain returns at most 4096/6 points and moves the cursor 12 bytes per point; it fails exactly when the count is negative |
| Device.FifoPointsOfPrefix | icm20689.py:428-442 | slots read only the FIFO bytes they cover |
| Device.SpiDrainOfConsistentPeer | icm20689.py:416-445 | when the count registers hold the number of unread bytes, the drain returns the first ⌊min(n/2, 4096)/6⌋ slots of the unread bytes and reads no byte past them |
| Device.SetBit | icm20689.py:294-297 | `current \| 1<<k` is a byte that has bit k set and every other bit as in current |
| Device.EnableFifoOn | icm20689.py:291-297 | after enable_fifo, USER_CTRL is the old value with bit 6 set; every other register and the FIFO are unchanged |
| Device.EnableFifoBits | icm20689.py:291-297 | the reset write carries bit 2 and the enable write carries bit 6; the enable write carries bit 2 only if USER_CTRL already had it |
| Device.AfsFromConfig | icm20689.py:157 | the accelerometer setting read back is `(raw >> 3) & 3` |
| Device.AccelRangeReadBack | icm20689.py:132-161 | on the register file, setting accelerometer range v in 0..3 and reading it back gives 8v and selector v |
| Device.GyroRangeReadBack | icm20689.py:223-254 | setting gyroscope range v writes 8v, and decoding GYRO_CONFIG gives v (read_gyro_range itself only answers the cache) |
| Device.DividerFor | icm20689.py:170-171 | the divider `int(1000/f - 1)` is non-negative for 0 < f ≤ 1000 |
| Device.RateOf | icm20689.py:190-194 | the rate read back `1000/(div + 1)` lies in (0, 1000] |
| Device.SampleFrequencyReadBack | icm20689.py:163-196 | for 4 ≤ f ≤ 1000 the divider fits in a byte, the rate read back is at least f, and it equals f exactly when 1000/f is whole |
| Device.QuotientAntitone | icm20689.py:190-194 | dividing by a larger divider gives a smaller rate |
| Device.HundredHertz | icm20689.py:585 | 100 Hz becomes divider 9 and reads back as 100 Hz |
| Device.Icm20689.constructor | icm20689.py:351-366 | the caches start at ±250 deg/s, ±2 g and 1000 Hz; chip select goes high; then PWR_MGMT_1 = 0 and USER_CTRL = 0x10 |
| Device.Icm20689.ReadByteData | icm20689.py:369-379 | the byte read and the sensor after it are ReadOn; one bracketed read transaction is logged |
| Device.Icm20689.WriteByteData | icm20689.py:381-387 | the register holds value modulo 256; one bracketed write transaction is logged |
| Device.Icm20689.ReadWordData | icm20689.py:100-115 | reads the high register, then the low one, and returns their signed decode |
| Device.Icm20689.BulkTransfer | icm20689.py:389-397 | a negative size raises IndexError before any traffic; otherwise one transaction of size+1 bytes, answering the FIFO bytes at the cursor |
| Device.Icm20689.GetFifoCount | icm20689.py:285-286 | reads FIFO_COUNTH, then FIFO_COUNTL, and returns the truncated half of their signed word |
| Device.Icm20689.GetFifoData | icm20689.py:411-414 | `_get_fifo_data(n)` is one bulk read of 2n bytes, decoded into n words; a negative n raises IndexError |
| Device.Icm20689.ReadFifoData | icm20689.py:416-445 | the SPI drain: the count clamped to 4096; no bulk read when the count is 0; IndexError when it is negative; otherwise ⌊c/6⌋ points from one bulk read of 12⌊c/6⌋ bytes |
| Device.Icm20689.ReadFifoDataBase | icm20689.py:299-317 | the base drain: max(0, ⌊c/6⌋ − 1) points, each from twelve single reads of FIFO_R_W |
| Device.Icm20689.ReadSlots | icm20689.py:306-317 | the loop of the base drain: n slots, the cursor moved 12n bytes, 12n single-read transactions logged |
| Device.Icm20689.ReadTriple | icm20689.py:307-312 | three word reads make one scaled axis triple and consume six FIFO bytes |
| Device.Icm20689.SetAccelRange | icm20689.py:132-146 | writes 0, then the range message, to ACCEL_CONFIG; caches the new selector only for 0..3; ValueError otherwise, with neither cache changed |
| Device.Icm20689.ReadAccelRange | icm20689.py:148-161 | one read of ACCEL_CONFIG; the cache is refreshed from bits 4:3; answers the raw byte or the setting |
| Device.Icm20689.SetGyroRange | icm20689.py:223-238 | writes 0, then the range message, to GYRO_CONFIG; caches the new selector only for 0..3; ValueError otherwise |
| Device.Icm20689.ReadGyroRange | icm20689.py:240-254 | one read of GYRO_CONFIG; answers the raw byte or the cached setting, without refreshing the cache |
| Device.Icm20689.SetSampleFrequency | icm20689.py:163-179 | ZeroDivisionError with no traffic for f = 0; otherwise writes 0, then `int(1000/f - 1)` modulo 256, to SMPLRT_DIV, and caches f |
| Device.Icm20689.ReadSampleFrequency | icm20689.py:181-196 | one read of SMPLRT_DIV; answers `1000/(div + 1)` |
| Device.Icm20689.SetFifoEnable | icm20689.py:288-289 | one write of 0x78 to FIFO_EN |
| Device.Icm20689.EnableFifo | icm20689.py:291-297 | one read of USER_CTRL, then writes of the read value with bit 2, then with bit 6 |
| Pipeline.ConcatLength | icm20689.py:472-473 | coalescing keeps every point: the coalesced list is as long as the batches together |
| Pipeline.ConcatAppend | icm20689.py:472-473 | coalescing in two steps is coalescing at once |
| Pipeline.ConcatPosition | icm20689.py:472-473 | queue order is kept: point j of batch i follows the points of the batches before it |
| Pipeline.SampleQueue.constructor | icm20689.py:591 | `Queue()` starts empty |
| Pipeline.SampleQueue.Put | icm20689.py:525 | `put` appends the batch at the back |
| Pipeline.SampleQueue.Get | icm20689.py:469 | `get` takes the oldest batch, or gives Empty on an empty queue |
| Pipeline.SampleQueue.Empty | icm20689.py:472 | `empty()` holds exactly when nothing is queued |
| Pipeline.Coalesce | icm20689.py:472-473 | the inner loop appends every queued batch, oldest first, and leaves the queue empty |
| Pipeline.UdpNetworkSender.constructor | icm20689.py:459-463 | the sender holds the shared queue and has sent nothing |
| Pipeline.UdpNetworkSender.Step | icm20689.py:465-481 | one pass: on an empty queue nothing is sent; otherwise every queued batch goes out as one packet of their concatenation, and the pass answers the printed point count; struct.error ends the thread with nothing sent |
| Pipeline.SentPacketCount | icm20689.py:476-479 | the sent packet's count field is the total of the batch sizes, and the packet is 4 + 52 times that long |
| Pipeline.SentPacketOrder | icm20689.py:472-479 | the records of the sent packet are in queue order |
| Pipeline.LineOf | icm20689.py:552 | a line holds the sample number, the time, and the six readings with their fractions dropped |
| Pipeline.Lines | icm20689.py:550-552 | one line per point |
| Pipeline.LinesAppend | icm20689.py:550-552 | two batches written in a row number the second after the first |
| Pipeline.Write2File.constructor | icm20689.py:530-533 | the writer starts with the given sample number and an empty file |
| Pipeline.Write2File.Step | icm20689.py:540-554 | one pass appends one line per coalesced point, numbered consecutively after `_sampNum`; the numbering invariant is kept; nothing is written on an empty queue |
| Pipeline.DataCollector.constructor | icm20689.py:512-516 | the collector holds the shared queue and the chips, in the given order |
| Pipeline.DataCollector.Start | icm20689.py:519-520 | enable_fifo runs on every chip |
| Pipeline.DataCollector.Collect | icm20689.py:524-525 | one chip is drained, and its batch is queued when the drain succeeds |
| Pipeline.DataCollector.Cycle | icm20689.py:523-525 | one pass queues one batch per chip, in chip order, empty batches included; the first IndexError stops it, with the earlier chips drained and the later ones untouched |

## Left out

- The I2C transport (`Icm20689I2C`, icm20689.py:319-344) is not modelled. Like spidev for SPI, smbus is a hardware library. The SPI driver and the transport-independent base `read_fifo_data` are modelled.
- The spidev and GPIO setup in `Icm20689SPI.__init__` (`open`, `max_speed_hz`, `mode`, `GPIO.setmode`/`setup`) and the speed settings in `read_byte_data`/`write_byte_data` are not modelled, because they configure hardware. The model keeps the chip-select edge and the two register writes that follow it: PWR_MGMT_1 = 0, which wakes the chip, and USER_CTRL = 1 << 4, which disables its I2C interface.
- `get_temp`, `get_accel_data`, `get_gyro_data` and `get_all_data` are not modelled. They are direct-register readers outside the FIFO path, and their float formula for temperature is out of scope.
- The `count > 128` diagnostics and the other `print` calls are left out, because they are console output.
- Sockets are left out, because they are network I/O. The sender records the datagrams it would hand to `sendto`.
- `TcpNetworkSenderThread` is not modelled separately. Its loop is the UDP sender's code over a stream socket.
- Threads, stop events, the signal handler, `THREAD_SET` and `__main__` are left out, because they are concurrency and process lifecycle. Each thread pass is one sequential step.
- Sleeps, the queue's one-second timeout and the clock are left out, because they depend on timing. A timed-out `get` is the empty-queue case, and the writer's elapsed time is a parameter.
- `Write2FileThread`'s 3600-second loop bound and its closing summary line are left out, because the bound is clock-driven and the line is file I/O. The `%0.4f` rendering of the time is also left out. Lines are records, not text.
- Pipeline.LineOf: `%d` of a float is modelled only as truncation toward zero; the digits it prints are not modelled.
- IEEE-754 double encoding is left out, because it is floating point. It is the parameter `enc`, and scaled values are exact reals.
- `EXT_SYNC_SET` (icm20689_regs.py:60-68) is not modelled, because no core operation uses it.
- The visualisation, recording and debugging scripts are not modelled, because they are plotting, file I/O and socket I/O.
- Packets.ParsePacket: the receiver is not part of the source. It is a reference reader against which the packet layout is proved.
