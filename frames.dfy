/** The command frames `PranaCoordinator.Cmd` and the status-frame decoder `__parse_state`. */
module Frames {
  import opened Wrappers
  import Const

  type Byte = x: int | 0 <= x < 256

  /** `STATE_MSG_PREFIX`: every status notification starts with these two bytes. */
  const StateMsgPrefix: seq<Byte> := [0xBE, 0xEF]

  /** `MAX_BRIGHTNESS`. */
  const MaxBrightness := 6

  /** The commands of the `Cmd` table. */
  datatype Cmd =
    | EnableHighSpeed | EnableNightMode | ToggleFlowLock | ToggleHeating | ToggleWinterMode
    | SpeedUp | SpeedDown | SpeedInUp | SpeedInDown | SpeedOutUp | SpeedOutDown
    | FlowInOff | FlowOutOff | Start | Stop | ReadState | ReadDeviceDetails
    | ChangeBrightness | AutoMode

  /** The fourth byte of a four-byte command frame `BE EF 04 xx`. */
  function ShortCode(c: Cmd): Byte
    requires c != ReadState && c != ReadDeviceDetails
  {
    match c
    case EnableHighSpeed => 0x07
    case EnableNightMode => 0x06
    case ToggleFlowLock => 0x09
    case ToggleHeating => 0x05
    case ToggleWinterMode => 0x16
    case SpeedUp => 0x0C
    case SpeedDown => 0x0B
    case SpeedInUp => 0x0E
    case SpeedInDown => 0x0F
    case SpeedOutUp => 0x11
    case SpeedOutDown => 0x12
    case FlowInOff => 0x0D
    case FlowOutOff => 0x10
    case Start => 0x0A
    case Stop => 0x01
    case ChangeBrightness => 0x02
    case AutoMode => 0x18
  }

  /** The bytes of each command: `BE EF 04 xx`, or the nine-byte read requests
      `BE EF 05 0n 00 00 00 00 5A`. Every frame carries the status prefix. */
  function Bytes(c: Cmd): (r: seq<Byte>)
    ensures |r| == 4 || |r| == 9
    ensures r[..2] == StateMsgPrefix
  {
    match c
    case ReadState => [0xBE, 0xEF, 0x05, 0x01, 0x00, 0x00, 0x00, 0x00, 0x5A]
    case ReadDeviceDetails => [0xBE, 0xEF, 0x05, 0x02, 0x00, 0x00, 0x00, 0x00, 0x5A]
    case _ => [0xBE, 0xEF, 0x04, ShortCode(c)]
  }

  /** Reads a frame back as the command it encodes, if any. */
  function CmdOfBytes(b: seq<int>): Option<Cmd> {
    if b == [0xBE, 0xEF, 0x05, 0x01, 0x00, 0x00, 0x00, 0x00, 0x5A] then Some(ReadState)
    else if b == [0xBE, 0xEF, 0x05, 0x02, 0x00, 0x00, 0x00, 0x00, 0x5A] then Some(ReadDeviceDetails)
    else if |b| != 4 || b[..3] != [0xBE, 0xEF, 0x04] then None
    else if b[3] == 0x07 then Some(EnableHighSpeed)
    else if b[3] == 0x06 then Some(EnableNightMode)
    else if b[3] == 0x09 then Some(ToggleFlowLock)
    else if b[3] == 0x05 then Some(ToggleHeating)
    else if b[3] == 0x16 then Some(ToggleWinterMode)
    else if b[3] == 0x0C then Some(SpeedUp)
    else if b[3] == 0x0B then Some(SpeedDown)
    else if b[3] == 0x0E then Some(SpeedInUp)
    else if b[3] == 0x0F then Some(SpeedInDown)
    else if b[3] == 0x11 then Some(SpeedOutUp)
    else if b[3] == 0x12 then Some(SpeedOutDown)
    else if b[3] == 0x0D then Some(FlowInOff)
    else if b[3] == 0x10 then Some(FlowOutOff)
    else if b[3] == 0x0A then Some(Start)
    else if b[3] == 0x01 then Some(Stop)
    else if b[3] == 0x02 then Some(ChangeBrightness)
    else if b[3] == 0x18 then Some(AutoMode)
    else None
  }

  /** Every command's frame reads back as that command, and only table frames read back. */
  lemma CmdRoundTrip(c: Cmd, b: seq<int>)
    ensures CmdOfBytes(Bytes(c)) == Some(c)
    ensures CmdOfBytes(b) == Some(c) ==> b == Bytes(c)
  {
    if CmdOfBytes(b) == Some(c) && |b| == 4 {
      assert b == b[..3] + [b[3]];
    }
  }

  /** The table has no two commands with the same bytes, so comparing frames compares commands. */
  lemma BytesInjective(c: Cmd, d: Cmd)
    ensures Bytes(c) == Bytes(d) <==> c == d
  {
    CmdRoundTrip(c, []);
    CmdRoundTrip(d, []);
  }

  function Pow2(k: nat): nat {
    if k == 0 then 1 else 2 * Pow2(k - 1)
  }

  lemma {:induction false} Pow2Monotone(j: nat, k: nat)
    requires j <= k
    ensures Pow2(j) <= Pow2(k)
  {
    if j < k {
      Pow2Monotone(j, k - 1);
    }
  }

  /** The integer part of `log2(b)`: the exponent of the highest power of two not above `b`. */
  function FloorLog2(b: int): (k: nat)
    requires b >= 1
    ensures Pow2(k) <= b < Pow2(k + 1)
  {
    if b < 2 then 0 else 1 + FloorLog2(b / 2)
  }

  /** `FloorLog2(b)` is the only `k` with `2^k <= b < 2^(k+1)`. */
  lemma FloorLog2Unique(b: int, k: nat)
    requires b >= 1 && Pow2(k) <= b < Pow2(k + 1)
    ensures FloorLog2(b) == k
  {
    var f := FloorLog2(b);
    if f < k {
      Pow2Monotone(f + 1, k);
    } else if k < f {
      Pow2Monotone(k + 1, f);
    }
  }

  /** `int(log2(b) + 1)`, the brightness of byte 12. */
  function BrightnessOf(b: Byte): (r: int)
    requires b >= 1
    ensures 1 <= r <= 8
  {
    assert Pow2(8) == 256;
    FloorLog2Below(b, 8);
    FloorLog2(b) + 1
  }

  lemma {:induction false} FloorLog2Below(b: int, n: nat)
    requires 1 <= b < Pow2(n)
    ensures FloorLog2(b) < n
  {
    if b >= 2 {
      FloorLog2Below(b / 2, n - 1);
    }
  }

  lemma BrightnessSamples()
    ensures BrightnessOf(1) == 1 && BrightnessOf(2) == 2 && BrightnessOf(4) == 3
    ensures BrightnessOf(64) == 7 && BrightnessOf(255) == 8
  {
    FloorLog2Unique(1, 0);
    FloorLog2Unique(2, 1);
    FloorLog2Unique(4, 2);
    FloorLog2Unique(64, 6);
    FloorLog2Unique(255, 7);
  }

  /** `struct.unpack_from(">h", data, i)[0]`: the big-endian signed 16-bit word `hi lo`. */
  function SignedWord(hi: Byte, lo: Byte): int {
    if hi >= 128 then hi * 256 + lo - 0x1_0000 else hi * 256 + lo
  }

  /** `x & 0b0011111111111111` on a Python int of either sign: its low fourteen bits. */
  function Mask14(x: int): int {
    x % 0x4000
  }

  /** The masked word: the two top bits of `hi` are dropped and the rest read unsigned. */
  lemma MaskedWord(hi: Byte, lo: Byte)
    ensures Mask14(SignedWord(hi, lo)) == (hi % 64) * 256 + lo
    ensures 0 <= Mask14(SignedWord(hi, lo)) <= 16383
  {
    var u := (hi % 64) * 256 + lo;
    assert hi * 256 + lo == u + (hi / 64) * 0x4000;
    assert SignedWord(hi, lo) == u + (hi / 64 - (if hi >= 128 then 4 else 0)) * 0x4000;
    assert 0 <= u < 0x4000;
  }

  /** The masked big-endian word at offset `i`. */
  function WordAt(data: seq<Byte>, i: nat): (r: int)
    requires i + 1 < |data|
    ensures 0 <= r <= 16383
  {
    MaskedWord(data[i], data[i + 1]);
    Mask14(SignedWord(data[i], data[i + 1]))
  }

  /** `data[:2] == STATE_MSG_PREFIX`. */
  predicate HasPrefix(data: seq<Byte>) {
    |data| >= 2 && data[..2] == StateMsgPrefix
  }

  /** What parsing a notification gives: not a status frame (`None`), a state, or the
      exception the parse raises. `flagsRead` says the frame was long enough for the
      flags, so the legacy speed write at coordinator.py lines 335-346 ran before the raise. */
  datatype Decoded = NoState | Parsed(state: Const.PranaState) | Failed(error: PyError, flagsRead: bool)

  /** The sensors block, attached only when the humidity is positive. Temperatures are the
      masked words at 51 and 54 while the CO2 word is in 1..9999, else bytes 49 and 55. */
  function SensorsOf(data: seq<Byte>): Option<Const.Sensors>
    requires |data| >= 79
  {
    var humidity := data[60] as int - 128;
    var pressure := 512 + data[78] as int;
    var co2 := WordAt(data, 61);
    var voc := WordAt(data, 63);
    var tIn := if 0 < co2 < 10000 then WordAt(data, 51) else data[49];
    var tOut := if 0 < co2 < 10000 then WordAt(data, 54) else data[55];
    if humidity > 0 then Some(Const.Sensors(tIn, tOut, humidity, pressure, voc, co2))
    else None
  }

  /** The state a complete status frame describes, stamped with the clock reading `now`. */
  function StateOf(data: seq<Byte>, now: int): Const.PranaState
    requires |data| >= 79 && data[12] >= 1
  {
    Const.PranaState(
      timestamp := now,
      brightness := BrightnessOf(data[12]),
      speedLocked := data[26] / 10, speedIn := data[30] / 10, speedOut := data[34] / 10,
      autoMode := data[20] != 0, nightMode := data[16] != 0,
      flowsLocked := data[22] != 0, isOn := data[10] != 0,
      miniHeatingEnabled := data[14] != 0, winterModeEnabled := data[42] != 0,
      isInputFanOn := data[28] != 0, isOutputFanOn := data[32] != 0,
      boostMode := None, autoModePlus := None, display := None, timerOn := None, timer := None,
      sensors := SensorsOf(data))
  }

  /** `__parse_state`. A frame without the prefix is not a state and nothing else of it is
      read. Otherwise the reads in source order decide the error: byte 12 missing is an
      IndexError, byte 12 zero makes `log2` raise ValueError, a frame that ends before byte 42
      or before byte 78 is an IndexError; a frame of 79 bytes or more is a state. */
  function Decode(data: seq<Byte>, now: int): (r: Decoded)
    ensures r.NoState? <==> !HasPrefix(data)
    ensures r.Parsed? <==> HasPrefix(data) && |data| >= 79 && data[12] != 0
    ensures r.Failed? && r.error == ValueError <==> HasPrefix(data) && |data| > 12 && data[12] == 0
    ensures r.Failed? ==> r.error == ValueError || r.error == IndexError
    ensures r.Failed? ==> (r.flagsRead <==> 42 < |data| && data[12] != 0)
  {
    if !HasPrefix(data) then NoState
    else if |data| <= 12 then Failed(IndexError, false)
    else if data[12] == 0 then Failed(ValueError, false)
    else if |data| <= 42 then Failed(IndexError, false)
    else if |data| <= 78 then Failed(IndexError, true)
    else Parsed(StateOf(data, now))
  }

  /** Where each field of a decoded state comes from: the flags are "byte is nonzero", the
      speeds are bytes 26, 30 and 34 divided by ten and rounded down, the brightness is the
      floor log2 of byte 12 plus one; sensors are attached exactly when byte 60 exceeds 128,
      with humidity b60 - 128, pressure 512 + b78, CO2 and VOC the masked words at 61 and 63,
      and the temperatures the masked words at 51 and 54 when 0 < CO2 < 10000, else bytes 49
      and 55. */
  lemma DecodeFields(data: seq<Byte>, now: int)
    requires Decode(data, now).Parsed?
    ensures var s := Decode(data, now).state;
      s.isOn == (data[10] != 0) && s.miniHeatingEnabled == (data[14] != 0)
      && s.nightMode == (data[16] != 0) && s.autoMode == (data[20] != 0)
      && s.flowsLocked == (data[22] != 0) && s.isInputFanOn == (data[28] != 0)
      && s.isOutputFanOn == (data[32] != 0) && s.winterModeEnabled == (data[42] != 0)
      && s.speedLocked == data[26] / 10 && s.speedIn == data[30] / 10 && s.speedOut == data[34] / 10
      && s.brightness == FloorLog2(data[12]) + 1
      && (s.sensors.Some? <==> data[60] > 128)
    ensures var x := Decode(data, now).state.sensors;
      x.Some? ==>
        x.value.humidity == data[60] as int - 128 && x.value.pressure == 512 + data[78] as int
        && x.value.co2 == Mask14(SignedWord(data[61], data[62]))
        && x.value.voc == Mask14(SignedWord(data[63], data[64]))
        && x.value.temperatureIn ==
          (if 0 < x.value.co2 < 10000 then Mask14(SignedWord(data[51], data[52])) else data[49])
        && x.value.temperatureOut ==
          (if 0 < x.value.co2 < 10000 then Mask14(SignedWord(data[54], data[55])) else data[55])
  {
  }

  /** The states the decoder can produce: speeds 0..25, brightness 1..8, the five fields it
      never decodes left `None`, and sensors with positive humidity, pressure 512..767, CO2 and
      VOC in 0..16383, and temperatures that fit the source the CO2 reading selects. */
  predicate WellFormed(s: Const.PranaState) {
    0 <= s.speedLocked <= 25 && 0 <= s.speedIn <= 25 && 0 <= s.speedOut <= 25
    && 1 <= s.brightness <= 8
    && s.boostMode.None? && s.autoModePlus.None? && s.display.None? && s.timerOn.None? && s.timer.None?
    && (s.sensors.Some? ==> SensorsWellFormed(s.sensors.value))
  }

  predicate SensorsWellFormed(x: Const.Sensors) {
    1 <= x.humidity <= 127 && 512 <= x.pressure <= 767
    && 0 <= x.co2 <= 16383 && 0 <= x.voc <= 16383
    && (if 0 < x.co2 < 10000 then 0 <= x.temperatureIn <= 16383 && 0 <= x.temperatureOut <= 16383
        else 0 <= x.temperatureIn <= 255 && 0 <= x.temperatureOut <= 255)
  }

  /** Every decoded state is well formed and carries the clock reading of its notification. */
  lemma DecodeWellFormed(data: seq<Byte>, now: int)
    requires Decode(data, now).Parsed?
    ensures WellFormed(Decode(data, now).state) && Decode(data, now).state.timestamp == now
  {
  }

  /** A status frame that decodes to `s`: the reference encoder, used to show that every
      well-formed state is decoded back exactly. */
  function Encode(s: Const.PranaState): (r: seq<Byte>)
    requires WellFormed(s)
    ensures |r| == 79
  {
    seq(79, i requires 0 <= i < 79 => EncodedByte(s, i))
  }

  function Flag(b: bool): Byte {
    if b then 1 else 0
  }

  function EncodedByte(s: Const.PranaState, i: nat): Byte
    requires WellFormed(s)
  {
    var x := s.sensors;
    var words := x.Some? && 0 < x.value.co2 < 10000;
    if i == 0 then 0xBE
    else if i == 1 then 0xEF
    else if i == 10 then Flag(s.isOn)
    else if i == 12 then BrightnessByte(s.brightness)
    else if i == 14 then Flag(s.miniHeatingEnabled)
    else if i == 16 then Flag(s.nightMode)
    else if i == 20 then Flag(s.autoMode)
    else if i == 22 then Flag(s.flowsLocked)
    else if i == 26 then 10 * s.speedLocked
    else if i == 28 then Flag(s.isInputFanOn)
    else if i == 30 then 10 * s.speedIn
    else if i == 32 then Flag(s.isOutputFanOn)
    else if i == 34 then 10 * s.speedOut
    else if i == 42 then Flag(s.winterModeEnabled)
    else if x.None? then (if i == 60 then 128 else 0)
    else if i == 49 && !words then x.value.temperatureIn
    else if i == 51 && words then x.value.temperatureIn / 256
    else if i == 52 && words then x.value.temperatureIn % 256
    else if i == 54 && words then x.value.temperatureOut / 256
    else if i == 55 then (if words then x.value.temperatureOut % 256 else x.value.temperatureOut)
    else if i == 60 then 128 + x.value.humidity
    else if i == 61 then x.value.co2 / 256
    else if i == 62 then x.value.co2 % 256
    else if i == 63 then x.value.voc / 256
    else if i == 64 then x.value.voc % 256
    else if i == 78 then x.value.pressure - 512
    else 0
  }

  /** The byte whose `int(log2(b) + 1)` is brightness `n`. */
  function BrightnessByte(n: int): (b: Byte)
    requires 1 <= n <= 8
    ensures b >= 1 && BrightnessOf(b) == n
  {
    Pow2Monotone(n - 1, 7);
    FloorLog2Unique(Pow2(n - 1), n - 1);
    Pow2(n - 1)
  }

  /** A fourteen-bit value written as two bytes reads back through the mask. */
  lemma WordRoundTrip(v: int)
    requires 0 <= v <= 16383
    ensures v / 256 < 64 && Mask14(SignedWord(v / 256, v % 256)) == v
  {
    MaskedWord(v / 256, v % 256);
  }

  lemma SensorsRoundTrip(s: Const.PranaState)
    requires WellFormed(s)
    ensures SensorsOf(Encode(s)) == s.sensors
  {
    var e := Encode(s);
    if s.sensors.Some? {
      var x := s.sensors.value;
      WordRoundTrip(x.co2);
      WordRoundTrip(x.voc);
      assert WordAt(e, 61) == x.co2;
      assert WordAt(e, 63) == x.voc;
      if 0 < x.co2 < 10000 {
        WordRoundTrip(x.temperatureIn);
        WordRoundTrip(x.temperatureOut);
        assert WordAt(e, 51) == x.temperatureIn;
        assert WordAt(e, 54) == x.temperatureOut;
      }
    }
  }

  /** Decoding the encoding of a well-formed state gives the state back: the decoder loses
      nothing that a state holds. */
  lemma DecodeEncode(s: Const.PranaState)
    requires WellFormed(s)
    ensures Decode(Encode(s), s.timestamp) == Parsed(s)
  {
    var e := Encode(s);
    assert e[..2] == StateMsgPrefix;
    SensorsRoundTrip(s);
  }

  /** The offsets `__parse_state` reads. */
  predicate ReadOffset(i: int) {
    i in {0, 1, 10, 12, 14, 16, 20, 22, 26, 28, 30, 32, 34, 42,
          49, 51, 52, 54, 55, 60, 61, 62, 63, 64, 78}
  }

  /** Two frames of the same length that agree on the offsets read decode alike: no other
      byte matters. */
  lemma DecodeReadsOnlyOffsets(a: seq<Byte>, b: seq<Byte>, now: int)
    requires |a| == |b|
    requires forall i :: 0 <= i < |a| && ReadOffset(i) ==> a[i] == b[i]
    ensures Decode(a, now) == Decode(b, now)
  {
    if |a| >= 2 {
      assert ReadOffset(0) && ReadOffset(1);
      assert a[..2] == [a[0], a[1]] && b[..2] == [b[0], b[1]];
    }
    if HasPrefix(a) && |a| >= 79 {
      assert ReadOffset(12);
      if a[12] != 0 {
        assert ReadOffset(49) && ReadOffset(51) && ReadOffset(52);
        assert ReadOffset(54) && ReadOffset(55) && ReadOffset(60) && ReadOffset(61);
        assert ReadOffset(62) && ReadOffset(63) && ReadOffset(64) && ReadOffset(78);
        assert SensorsOf(a) == SensorsOf(b);
        assert ReadOffset(10) && ReadOffset(14) && ReadOffset(16) && ReadOffset(20);
        assert ReadOffset(22) && ReadOffset(26) && ReadOffset(28) && ReadOffset(30);
        assert ReadOffset(32) && ReadOffset(34) && ReadOffset(42);
      }
    }
  }
}
