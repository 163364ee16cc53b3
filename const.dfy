/** The enums and the state records of const.py. */
module Const {
  import opened Wrappers
  import PyStr
  import Attr

  /** `Display`: the eleven screens the unit can show, values 0..10. */
  datatype Display =
    | Fan | TemperatureIn | TemperatureOut | Co2 | Voc | Humidity
    | QualityFan | Presure | Fan2 | Date | Time
  {
    function Value(): int {
      match this
      case Fan => 0
      case TemperatureIn => 1
      case TemperatureOut => 2
      case Co2 => 3
      case Voc => 4
      case Humidity => 5
      case QualityFan => 6
      case Presure => 7
      case Fan2 => 8
      case Date => 9
      case Time => 10
    }
  }

  /** `Display(v)`: the member with value `v`, a ValueError otherwise. */
  function DisplayByValue(v: int): (r: Option<Display>)
    ensures r.Some? <==> 0 <= v <= 10
    ensures r.Some? ==> r.value.Value() == v
  {
    if v == 0 then Some(Fan)
    else if v == 1 then Some(TemperatureIn)
    else if v == 2 then Some(TemperatureOut)
    else if v == 3 then Some(Co2)
    else if v == 4 then Some(Voc)
    else if v == 5 then Some(Humidity)
    else if v == 6 then Some(QualityFan)
    else if v == 7 then Some(Presure)
    else if v == 8 then Some(Fan2)
    else if v == 9 then Some(Date)
    else if v == 10 then Some(Time)
    else None
  }

  /** Display values are distinct: the value names its member. */
  lemma DisplayValueRoundTrip(d: Display)
    ensures 0 <= d.Value() <= 10 && DisplayByValue(d.Value()) == Some(d)
  {
  }

  /** `Speed`. Python keeps the first name given to a value as the member and makes every later
      name an alias: SPEED_1 is LOW, SPEED_5 is HIGH and SPEED_BOOST is SPEED_BOOST_5. The eleven
      members below are the canonical ones. */
  datatype Speed =
    | Off | Low | High | Speed2 | Speed3 | Speed4
    | SpeedBoost1 | SpeedBoost2 | SpeedBoost3 | SpeedBoost4 | SpeedBoost5
  {
    function Value(): int {
      match this
      case Off => 0
      case Low => 1
      case High => 5
      case Speed2 => 2
      case Speed3 => 3
      case Speed4 => 4
      case SpeedBoost1 => 6
      case SpeedBoost2 => 7
      case SpeedBoost3 => 8
      case SpeedBoost4 => 9
      case SpeedBoost5 => 10
    }
  }

  /** The fourteen names of the `Speed` class body, aliases included. */
  const SpeedNames: seq<string> := ["OFF", "LOW", "HIGH", "SPEED_1", "SPEED_2", "SPEED_3",
    "SPEED_4", "SPEED_5", "SPEED_BOOST_1", "SPEED_BOOST_2", "SPEED_BOOST_3", "SPEED_BOOST_4",
    "SPEED_BOOST_5", "SPEED_BOOST"]

  /** `Speed[name]`: exactly the fourteen names of the class body are found; any other name
      raises KeyError, modelled as `None`. */
  function SpeedNamed(name: string): (r: Option<Speed>)
    ensures r.Some? <==> name in SpeedNames
  {
    match name
    case "OFF" => Some(Off)
    case "LOW" => Some(Low)
    case "HIGH" => Some(High)
    case "SPEED_1" => Some(Low)
    case "SPEED_2" => Some(Speed2)
    case "SPEED_3" => Some(Speed3)
    case "SPEED_4" => Some(Speed4)
    case "SPEED_5" => Some(High)
    case "SPEED_BOOST_1" => Some(SpeedBoost1)
    case "SPEED_BOOST_2" => Some(SpeedBoost2)
    case "SPEED_BOOST_3" => Some(SpeedBoost3)
    case "SPEED_BOOST_4" => Some(SpeedBoost4)
    case "SPEED_BOOST_5" => Some(SpeedBoost5)
    case "SPEED_BOOST" => Some(SpeedBoost5)
    case _ => None
  }

  /** The three aliases name the same member as the earlier name with their value, and the
      eleven members have pairwise distinct values. */
  lemma SpeedAliases(a: Speed, b: Speed)
    ensures SpeedNamed("SPEED_1") == SpeedNamed("LOW") == Some(Low)
    ensures SpeedNamed("SPEED_5") == SpeedNamed("HIGH") == Some(High)
    ensures SpeedNamed("SPEED_BOOST") == SpeedNamed("SPEED_BOOST_5") == Some(SpeedBoost5)
    ensures a.Value() == b.Value() ==> a == b
  {
  }

  /** `PranaTimer`: stop, run, and nine run durations, values 0..10. */
  datatype PranaTimer =
    | Stop | Run | Run10m | Run20m | Run30m | Run1h
    | Run1h30m | Run2h | Run3h | Run5h | Run9h
  {
    function Value(): int {
      match this
      case Stop => 0
      case Run => 1
      case Run10m => 2
      case Run20m => 3
      case Run30m => 4
      case Run1h => 5
      case Run1h30m => 6
      case Run2h => 7
      case Run3h => 8
      case Run5h => 9
      case Run9h => 10
    }
  }

  /** `PranaTimer(v)`: the member with value `v`, a ValueError otherwise. */
  function TimerByValue(v: int): (r: Option<PranaTimer>)
    ensures r.Some? <==> 0 <= v <= 10
    ensures r.Some? ==> r.value.Value() == v
  {
    if v == 0 then Some(Stop)
    else if v == 1 then Some(Run)
    else if v == 2 then Some(Run10m)
    else if v == 3 then Some(Run20m)
    else if v == 4 then Some(Run30m)
    else if v == 5 then Some(Run1h)
    else if v == 6 then Some(Run1h30m)
    else if v == 7 then Some(Run2h)
    else if v == 8 then Some(Run3h)
    else if v == 9 then Some(Run5h)
    else if v == 10 then Some(Run9h)
    else None
  }

  /** Timer values are distinct: the value names its member. */
  lemma TimerValueRoundTrip(t: PranaTimer)
    ensures 0 <= t.Value() <= 10 && TimerByValue(t.Value()) == Some(t)
  {
  }

  /** `PranaTimer.all_options()`. */
  const AllOptions: seq<string> := ["low", "l", "high", "h", "off", "stop", "1", "2", "3", "4", "5"]

  /** `PranaTimer.from_str`. The alias words return `cls.LOW`, `cls.HIGH` and `cls.OFF`, which
      PranaTimer does not define, so they raise AttributeError; an integer 0..5 gives the
      member with that value; everything else raises ValueError. */
  function TimerFromStr(s: string): (r: Result<PranaTimer, PyError>)
    ensures r.Ok? ==> 0 <= r.value.Value() <= 5
    ensures r.Err? ==> r.error == AttributeError || r.error == ValueError
  {
    FromNormalStr(PyStr.Normalize(s))
  }

  /** `from_str` after the input has been lower-cased and stripped. */
  function FromNormalStr(t: string): (r: Result<PranaTimer, PyError>)
    ensures r.Ok? ==> 0 <= r.value.Value() <= 5
  {
    if t == "low" || t == "l" then Err(AttributeError)
    else if t == "high" || t == "h" then Err(AttributeError)
    else if t == "off" || t == "stop" then Err(AttributeError)
    else
      match PyStr.ParseInt(t)
      case Some(n) => if 0 <= n <= 5 then Ok(TimerByValue(n).value) else Err(ValueError)
      case None => Err(ValueError)
  }

  /** Case and surrounding white space do not matter to `from_str`. */
  lemma FromStrNormalizes(s: string)
    ensures TimerFromStr(PyStr.Normalize(s)) == TimerFromStr(s)
  {
    PyStr.NormalizeIdempotent(s);
  }

  /** The decimal string of `n` is already normal. */
  lemma {:induction false} DecimalIsNormal(n: nat)
    ensures PyStr.Normalize(PyStr.Decimal(n)) == PyStr.Decimal(n)
  {
    var d := PyStr.Decimal(n);
    PyStr.LowerKeepsLowered(d);
    PyStr.StripKeepsTrimmed(d);
  }

  /** `from_str(str(n))` is the member with value `n` for 0..5 and a ValueError above. */
  lemma FromStrDecimal(n: nat)
    ensures TimerFromStr(PyStr.Decimal(n)) == if n <= 5 then Ok(TimerByValue(n).value) else Err(ValueError)
  {
    var d := PyStr.Decimal(n);
    DecimalIsNormal(n);
    PyStr.ParseDecimal(n);
    NotAliasWord(d);
  }

  /** A string that starts with a sign or a digit is none of the alias words, so `from_str`
      decides it by `int()` alone. */
  lemma NotAliasWord(t: string)
    requires |t| > 0 && (t[0] == '-' || t[0] == '+' || PyStr.IsDigit(t[0]))
    ensures FromNormalStr(t) == match PyStr.ParseInt(t)
      case Some(n) => if 0 <= n <= 5 then Ok(TimerByValue(n).value) else Err(ValueError)
      case None => Err(ValueError)
  {
    assert t != "low" && t != "l" && t != "high" && t != "h" && t != "off" && t != "stop" by {
      assert t[0] != 'l' && t[0] != 'h' && t[0] != 'o' && t[0] != 's';
    }
  }

  /** A negative integer string is rejected with ValueError. */
  lemma FromStrNegative(n: nat)
    requires n >= 1
    ensures TimerFromStr("-" + PyStr.Decimal(n)) == Err(ValueError)
  {
    var d := "-" + PyStr.Decimal(n);
    PyStr.ParseNegativeDecimal(n);
    forall i | 0 <= i < |d| ensures PyStr.LowerChar(d[i]) == d[i] {
      assert i > 0 ==> PyStr.IsDigit(d[i]);
    }
    PyStr.LowerKeepsLowered(d);
    assert PyStr.IsDigit(d[|d| - 1]);
    PyStr.StripKeepsTrimmed(d);
    NotAliasWord(d);
  }

  /** The six words `from_str` maps to the missing members LOW, HIGH and OFF. */
  predicate IsAliasWord(t: string) {
    t == "low" || t == "l" || t == "high" || t == "h" || t == "off" || t == "stop"
  }

  /** `from_str` raises AttributeError exactly when the normalised input is an alias word,
      returns the member with value `n` exactly when it is an integer string `n` in 0..5, and
      raises ValueError on everything else. */
  lemma TimerFromStrErrors(s: string)
    ensures TimerFromStr(s) == Err(AttributeError) <==> IsAliasWord(PyStr.Normalize(s))
    ensures TimerFromStr(s).Ok? <==>
      !IsAliasWord(PyStr.Normalize(s)) && PyStr.ParseInt(PyStr.Normalize(s)).Some?
      && 0 <= PyStr.ParseInt(PyStr.Normalize(s)).value <= 5
    ensures TimerFromStr(s).Ok? ==>
      TimerFromStr(s).value.Value() == PyStr.ParseInt(PyStr.Normalize(s)).value
    ensures TimerFromStr(s) == Err(ValueError) <==>
      !IsAliasWord(PyStr.Normalize(s))
      && (PyStr.ParseInt(PyStr.Normalize(s)).None? || !(0 <= PyStr.ParseInt(PyStr.Normalize(s)).value <= 5))
  {
    var t := PyStr.Normalize(s);
    match PyStr.ParseInt(t)
    case Some(n) =>
      if !IsAliasWord(t) && 0 <= n <= 5 {
        assert TimerByValue(n).value.Value() == n;
      }
    case None =>
  }

  /** An alias word written in lower-case letters is already normal, so `from_str` raises
      AttributeError on it. */
  lemma AliasWordRaises(w: string)
    requires IsAliasWord(w)
    ensures TimerFromStr(w) == Err(AttributeError)
  {
    assert forall i :: 0 <= i < |w| ==> 'a' <= w[i] <= 'z';
    PyStr.LowerKeepsLowered(w);
    PyStr.StripKeepsTrimmed(w);
  }

  /** The six words of `all_options()` raise AttributeError. */
  lemma AliasOptionsRaise()
    ensures forall i :: 0 <= i < 6 ==> TimerFromStr(AllOptions[i]) == Err(AttributeError)
  {
    forall i | 0 <= i < 6 ensures TimerFromStr(AllOptions[i]) == Err(AttributeError) {
      AliasWordRaises(AllOptions[i]);
    }
  }

  /** The last five options are `str(1)`..`str(5)`. */
  lemma NumberOptionsAreDecimal()
    ensures forall n :: 1 <= n <= 5 ==> AllOptions[5 + n] == PyStr.Decimal(n)
  {
    forall n | 1 <= n <= 5 ensures AllOptions[5 + n] == PyStr.Decimal(n) {
      assert PyStr.Decimal(n) == ['0' + n as char];
    }
  }

  /** The numbers "1".."5" of `all_options()` give RUN..RUN_1H, the members with values 1..5. */
  lemma NumberOptionsParse()
    ensures forall n :: 1 <= n <= 5 ==> TimerFromStr(AllOptions[5 + n]) == Ok(TimerByValue(n).value)
  {
    NumberOptionsAreDecimal();
    forall n | 1 <= n <= 5 ensures TimerFromStr(AllOptions[5 + n]) == Ok(TimerByValue(n).value) {
      FromStrDecimal(n);
    }
  }

  /** `PranaSensorsState` as the decoder fills it; temperatures are in tenths of a degree. */
  datatype Sensors = Sensors(
    temperatureIn: int, temperatureOut: int,
    humidity: int, pressure: int, voc: int, co2: int)

  /** `PranaState` as the decoder fills it. Boost, auto-plus, display and the timer are never
      decoded and stay `None`; the timestamp is an integer clock reading. */
  datatype PranaState = PranaState(
    timestamp: int,
    brightness: int,
    speedLocked: int, speedIn: int, speedOut: int,
    autoMode: bool, nightMode: bool, flowsLocked: bool, isOn: bool,
    miniHeatingEnabled: bool, winterModeEnabled: bool,
    isInputFanOn: bool, isOutputFanOn: bool,
    boostMode: Option<bool>, autoModePlus: Option<bool>,
    display: Option<Display>, timerOn: Option<bool>, timer: Option<int>,
    sensors: Option<Sensors>)

  /** Python's `int(n / 2)`: halves, truncating toward zero. */
  function TruncHalf(n: int): int {
    if n >= 0 then n / 2 else -((-n) / 2)
  }

  /** The `PranaState.speed` property. */
  function SpeedOf(s: PranaState): int {
    if !s.isOn then 0
    else if s.flowsLocked then s.speedLocked
    else TruncHalf(s.speedIn + s.speedOut)
  }

  /** The derived speed: 0 when off, the locked speed when the flows are locked, and otherwise
      the rounded-down mean of the two channel speeds, which lies between them. Auto mode plays
      no part. */
  lemma SpeedOfSpec(s: PranaState)
    ensures !s.isOn ==> SpeedOf(s) == 0
    ensures s.isOn && s.flowsLocked ==> SpeedOf(s) == s.speedLocked
    ensures s.isOn && !s.flowsLocked && s.speedIn >= 0 && s.speedOut >= 0 ==>
      2 * SpeedOf(s) <= s.speedIn + s.speedOut < 2 * SpeedOf(s) + 2
      && (s.speedIn <= SpeedOf(s) <= s.speedOut || s.speedOut <= SpeedOf(s) <= s.speedIn)
    ensures forall b :: SpeedOf(s.(autoMode := b)) == SpeedOf(s)
  {
  }

  /** A Python value as `to_dict` produces it. */
  datatype Value =
    | Null
    | Bool(b: bool)
    | Int(i: int)
    | Member(display: Display)
    | Dict(entries: map<Attr.Name, Value>)

  /** Python truthiness: None, False, 0 and the empty dict are false; enum members are true. */
  predicate Truthy(v: Value) {
    match v
    case Null => false
    case Bool(b) => b
    case Int(i) => i != 0
    case Member(_) => true
    case Dict(m) => m != map[]
  }

  /** The number a value stands for in arithmetic and comparisons; `bool` is an `int` in Python. */
  function AsNumber(v: Value): Option<int> {
    match v
    case Bool(b) => Some(if b then 1 else 0)
    case Int(i) => Some(i)
    case _ => None
  }

  /** Python `==` on two values: numbers compare by value, everything else structurally. */
  predicate PyEq(v: Value, w: Value) {
    if AsNumber(v).Some? && AsNumber(w).Some? then AsNumber(v) == AsNumber(w) else v == w
  }

  function OptBool(o: Option<bool>): Value {
    match o
    case None => Null
    case Some(b) => Bool(b)
  }

  function OptInt(o: Option<int>): Value {
    match o
    case None => Null
    case Some(i) => Int(i)
  }

  function OptDisplay(o: Option<Display>): Value {
    match o
    case None => Null
    case Some(d) => Member(d)
  }

  /** The value `PranaSensorsState.to_dict` gives sensor key `k`. */
  function SensorField(x: Sensors, k: Attr.Name): Value
    requires Attr.IsSensorKey(k)
  {
    match k
    case TemperatureIn => Int(x.temperatureIn)
    case TemperatureOut => Int(x.temperatureOut)
    case Humidity => Int(x.humidity)
    case Pressure => Int(x.pressure)
    case Voc => Int(x.voc)
    case Co2 => Int(x.co2)
  }

  /** `PranaSensorsState.to_dict`: the six sensor keys. */
  function SensorsToDict(x: Sensors): (r: map<Attr.Name, Value>)
    ensures r.Keys == Attr.SensorKeys
    ensures r[Attr.Humidity] == Int(x.humidity) && r[Attr.Pressure] == Int(x.pressure)
    ensures r[Attr.Co2] == Int(x.co2) && r[Attr.Voc] == Int(x.voc)
    ensures r[Attr.TemperatureIn] == Int(x.temperatureIn) && r[Attr.TemperatureOut] == Int(x.temperatureOut)
  {
    map k | k in Attr.SensorKeys :: SensorField(x, k)
  }

  function OptSensors(o: Option<Sensors>): Value {
    match o
    case None => Null
    case Some(x) => Dict(SensorsToDict(x))
  }

  /** The value `PranaState.to_dict` gives state key `k`. */
  function StateField(s: PranaState, k: Attr.Name): Value
    requires !Attr.IsSensorKey(k)
  {
    match k
    case SpeedLocked => Int(s.speedLocked)
    case SpeedIn => Int(s.speedIn)
    case SpeedOut => Int(s.speedOut)
    case NightMode => Bool(s.nightMode)
    case BoostMode => OptBool(s.boostMode)
    case AutoMode => Bool(s.autoMode)
    case AutoModePlus => OptBool(s.autoModePlus)
    case FlowsLocked => Bool(s.flowsLocked)
    case IsOn => Bool(s.isOn)
    case MiniHeatingEnabled => Bool(s.miniHeatingEnabled)
    case WinterModeEnabled => Bool(s.winterModeEnabled)
    case IsInputFanOn => Bool(s.isInputFanOn)
    case IsOutputFanOn => Bool(s.isOutputFanOn)
    case Timestamp => Int(s.timestamp)
    case Speed => Int(SpeedOf(s))
    case Brightness => Int(s.brightness)
    case Sensors => OptSensors(s.sensors)
    case Display => OptDisplay(s.display)
    case TimerOn => OptBool(s.timerOn)
    case Timer => OptInt(s.timer)
  }

  /** `PranaState.to_dict`: exactly the twenty state keys. */
  function ToDict(s: PranaState): (r: map<Attr.Name, Value>)
    ensures r.Keys == Attr.StateKeys
  {
    map k | k in Attr.StateKeys :: StateField(s, k)
  }

  /** Each state key holds its field. */
  lemma ToDictAt(s: PranaState, k: Attr.Name)
    requires !Attr.IsSensorKey(k)
    ensures k in ToDict(s) && ToDict(s)[k] == StateField(s, k)
  {
  }

  /** What `to_dict` holds under `speed` and `sensors`: the derived speed property, and None
      or the six-key sensors dict. */
  lemma ToDictFields(s: PranaState)
    ensures Attr.Speed in ToDict(s) && ToDict(s)[Attr.Speed] == Int(SpeedOf(s))
    ensures Attr.Sensors in ToDict(s)
    ensures ToDict(s)[Attr.Sensors] == if s.sensors.None? then Null else Dict(SensorsToDict(s.sensors.value))
    ensures ToDict(s)[Attr.Sensors].Dict? ==> ToDict(s)[Attr.Sensors].entries.Keys == Attr.SensorKeys
  {
    ToDictAt(s, Attr.Speed);
    ToDictAt(s, Attr.Sensors);
  }
}
