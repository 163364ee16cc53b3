/** `PranaCoordinator`: the connection bookkeeping, the frames each command writes, and the
    merge of status notifications into the cached device attributes. The BLE link is
    replaced by two records: `link`, the calls made on the Bleak client, and `sent`, every
    `write_gatt_char` in order. */
module Coordinator {
  import opened Wrappers
  import Attr
  import Const
  import Frames
  import Retry

  /** `WRITE_CHARACTERISTIC_UUIDS[0]`, which is also `READ_CHARACTERISTIC_UUIDS[0]`. */
  const CharUuid := "0000cccc-0000-1000-8000-00805f9b34fb"

  /** `_client`: none, or a Bleak client that is or is no longer connected. */
  datatype Client = NoClient | Client(connected: bool)

  /** The calls made on the Bleak client: `establish_connection`, `start_notify`,
      `stop_notify` and `disconnect`. */
  datatype LinkEvent = Connect | StartNotify | StopNotify | Disconnect

  /** One `write_gatt_char`: the command frame and its `response` flag. */
  datatype Frame = Frame(cmd: Frames.Cmd, response: bool)

  /** The frames `_write_while_connected` sends for one command: the command, then a
      `READ_STATE` with response unless the frame is `READ_STATE` itself. */
  function Written(c: Frames.Cmd, response: bool): seq<Frame> {
    if Frames.Bytes(Frames.ReadState) != Frames.Bytes(c) then [Frame(c, response), Frame(Frames.ReadState, true)]
    else [Frame(c, response)]
  }

  /** A command other than `READ_STATE` costs two frames, the second a `READ_STATE`;
      `READ_STATE` costs one. */
  lemma WrittenShape(c: Frames.Cmd, response: bool)
    ensures Written(c, response)[0] == Frame(c, response)
    ensures |Written(c, response)| == if c == Frames.ReadState then 1 else 2
    ensures c != Frames.ReadState ==> Written(c, response)[1] == Frame(Frames.ReadState, true)
  {
    Frames.BytesInjective(c, Frames.ReadState);
  }

  /** Every frame other than `READ_STATE` is directly followed by a `READ_STATE` with response. */
  predicate Paired(s: seq<Frame>) {
    forall i :: 0 <= i < |s| && s[i].cmd != Frames.ReadState ==>
      i + 1 < |s| && s[i + 1] == Frame(Frames.ReadState, true)
  }

  lemma PairedAppend(s: seq<Frame>, c: Frames.Cmd, response: bool)
    requires Paired(s)
    ensures Paired(s + Written(c, response))
  {
    WrittenShape(c, response);
  }

  /** `n` copies of `s`. */
  function Repeat(s: seq<Frame>, n: nat): (r: seq<Frame>)
    ensures |r| == n * |s|
  {
    if n == 0 then [] else Repeat(s, n - 1) + s
  }

  /** The frames of `n` one-level steps of command `c`: command and `READ_STATE` alternate. */
  lemma {:induction false} RepeatWritten(c: Frames.Cmd, n: nat)
    requires c != Frames.ReadState
    ensures |Repeat(Written(c, false), n)| == 2 * n
    ensures forall i :: 0 <= i < 2 * n ==>
      Repeat(Written(c, false), n)[i] == if i % 2 == 0 then Frame(c, false) else Frame(Frames.ReadState, true)
  {
    WrittenShape(c, false);
    if n > 0 {
      RepeatWritten(c, n - 1);
    }
  }

  /** Frames that consist of whole `_write` calls keep the pairing. */
  lemma {:induction false} PairedRepeat(s: seq<Frame>, c: Frames.Cmd, n: nat)
    requires Paired(s)
    ensures Paired(s + Repeat(Written(c, false), n))
  {
    if n > 0 {
      PairedRepeat(s, c, n - 1);
      PairedAppend(s + Repeat(Written(c, false), n - 1), c, false);
      assert s + Repeat(Written(c, false), n) == s + Repeat(Written(c, false), n - 1) + Written(c, false);
    }
  }

  /** What `if not self.is_on: await self.turn_on()` writes. */
  function PowerOn(isOn: Const.Value): seq<Frame> {
    if Const.Truthy(isOn) then [] else Written(Frames.Start, false)
  }

  /** The attributes after `if not self.is_on: await self.turn_on()`. */
  function PoweredOn(a: map<Attr.Name, Const.Value>): map<Attr.Name, Const.Value>
    requires Attr.IsOn in a
  {
    if Const.Truthy(a[Attr.IsOn]) then a else a[Attr.IsOn := Const.Bool(true)]
  }

  /** The `SPEED_UP` or `SPEED_DOWN` steps of `set_speed` from `from` to `to`. */
  function StepFrames(from: int, to: int): seq<Frame> {
    if to > from then Repeat(Written(Frames.SpeedUp, false), to - from)
    else Repeat(Written(Frames.SpeedDown, false), from - to)
  }

  /** `set_speed` sends one step per level, up or down, each step a command and a
      `READ_STATE`: |to - from| steps in all. */
  lemma StepFramesSpec(from: int, to: int)
    ensures var dir := if to > from then Frames.SpeedUp else Frames.SpeedDown;
      var n := if to > from then to - from else from - to;
      |StepFrames(from, to)| == 2 * n
      && forall i :: 0 <= i < 2 * n ==>
        StepFrames(from, to)[i] == if i % 2 == 0 then Frame(dir, false) else Frame(Frames.ReadState, true)
  {
    if to > from {
      RepeatWritten(Frames.SpeedUp, to - from);
    } else {
      RepeatWritten(Frames.SpeedDown, from - to);
    }
  }

  /** The counter of `set_brightness`: target - current going up, target + MAX_BRIGHTNESS -
      current going down, zero when already there. */
  function BrightnessSteps(target: int, current: int): int {
    if target == current then 0
    else if target > current then target - current
    else target + (Frames.MaxBrightness - current)
  }

  /** `while counter > 0` runs this many times. */
  function Presses(target: int, current: int): nat {
    var n := BrightnessSteps(target, current);
    if n > 0 then n else 0
  }

  /** For levels in 0..6 the step count is at most six presses and lands on the target
      modulo MAX_BRIGHTNESS: the arithmetic treats the levels as a ring of six. */
  lemma BrightnessStepsSpec(target: int, current: int)
    requires 0 <= target <= 6 && 0 <= current <= 6
    ensures 0 <= BrightnessSteps(target, current) <= 6
    ensures Presses(target, current) == BrightnessSteps(target, current)
    ensures (current + BrightnessSteps(target, current)) % 6 == target % 6
  {
  }

  /** Python's `round(n / d)` for `d > 0`: the nearest integer, ties to the even one. */
  function RoundHalfEven(n: int, d: int): int
    requires d > 0
  {
    var q := n / d;
    var r := n % d;
    if 2 * r < d then q
    else if 2 * r > d then q + 1
    else if q % 2 == 0 then q
    else q + 1
  }

  /** `k` is within half of `n / d`, and even when exactly half away. */
  predicate NearestEven(n: int, d: int, k: int) {
    -d <= 2 * (n - k * d) <= d && (2 * (n - k * d) == d || 2 * (n - k * d) == -d ==> k % 2 == 0)
  }

  /** The rounded value is the nearest integer to `n / d`, the even one on a tie. */
  lemma RoundHalfEvenNearest(n: int, d: int)
    requires d > 0
    ensures NearestEven(n, d, RoundHalfEven(n, d))
  {
    var q := n / d;
    var r := n % d;
    assert n - q * d == r;
    assert n - (q + 1) * d == r - d;
  }

  /** `round(MAX_BRIGHTNESS * brightness_pct / 100)`. */
  function PctToLevel(pct: int): int {
    RoundHalfEven(Frames.MaxBrightness * pct, 100)
  }

  /** Percentages 0..100 give levels 0..6; 25 and 75 are ties that round to the even level. */
  lemma PctToLevelSpec(pct: int)
    requires 0 <= pct <= 100
    ensures 0 <= PctToLevel(pct) <= 6
    ensures PctToLevel(0) == 0 && PctToLevel(25) == 2 && PctToLevel(50) == 3
    ensures PctToLevel(75) == 4 && PctToLevel(100) == 6
  {
  }

  /** The device attributes after a status merge: every `to_dict` key of the new state, and
      the sensor keys when the state has sensors. */
  function Merged(a: map<Attr.Name, Const.Value>, s: Const.PranaState): map<Attr.Name, Const.Value> {
    var state := a + Const.ToDict(s);
    if s.sensors.Some? then state + Const.SensorsToDict(s.sensors.value) else state
  }

  /** The merge writes all twenty state keys from the new state, `speed` being the derived
      speed; it writes the six sensor keys when there are sensors and leaves them alone
      otherwise. */
  lemma MergedSpec(a: map<Attr.Name, Const.Value>, s: Const.PranaState)
    ensures Merged(a, s).Keys == a.Keys + Attr.StateKeys + (if s.sensors.Some? then Attr.SensorKeys else {})
    ensures forall k :: k in Attr.StateKeys ==> Merged(a, s)[k] == Const.ToDict(s)[k]
    ensures Merged(a, s)[Attr.Speed] == Const.Int(Const.SpeedOf(s))
    ensures s.sensors.None? ==> forall k :: k in Attr.SensorKeys && k in a ==> Merged(a, s)[k] == a[k]
    ensures s.sensors.Some? ==> forall k :: k in Attr.SensorKeys ==>
      Merged(a, s)[k] == Const.SensorsToDict(s.sensors.value)[k]
  {
    assert Attr.StateKeys !! Attr.SensorKeys;
    Const.ToDictAt(s, Attr.Speed);
  }

  /** A decoded state (which is well formed) clears the five attributes the decoder never
      fills, which are the five `__init__` does not create. */
  lemma MergedClearsUndecoded(a: map<Attr.Name, Const.Value>, s: Const.PranaState)
    requires Frames.WellFormed(s)
    ensures forall k :: Attr.Late(k) ==> k in Merged(a, s) && Merged(a, s)[k] == Const.Null
  {
    forall k | Attr.Late(k)
      ensures k in Merged(a, s) && Merged(a, s)[k] == Const.Null
    {
      Const.ToDictAt(s, k);
    }
  }

  /** Merging the same state twice is merging it once. */
  lemma MergedIdempotent(a: map<Attr.Name, Const.Value>, s: Const.PranaState)
    ensures Merged(Merged(a, s), s) == Merged(a, s)
  {
  }

  /** What the merge writes does not depend on the `speed` written before it. */
  lemma MergedOverwritesSpeed(a: map<Attr.Name, Const.Value>, v: Const.Value, s: Const.PranaState)
    ensures Merged(a[Attr.Speed := v], s) == Merged(a, s)
  {
    assert Attr.Speed in Attr.StateKeys;
  }

  /** Every attribute `__init__` creates is present. */
  predicate HasInitAttrs(a: map<Attr.Name, Const.Value>) {
    forall k: Attr.Name :: !Attr.Late(k) ==> k in a
  }

  /** Writing one attribute keeps the attributes `__init__` created. */
  lemma UpdateKeepsInit(a: map<Attr.Name, Const.Value>, k: Attr.Name, v: Const.Value)
    requires HasInitAttrs(a)
    ensures HasInitAttrs(a[k := v])
  {
  }

  /** A merge only adds keys, so the attributes `__init__` created stay. */
  lemma MergedKeepsInit(a: map<Attr.Name, Const.Value>, s: Const.PranaState)
    requires HasInitAttrs(a)
    ensures HasInitAttrs(Merged(a, s))
  {
    assert a.Keys <= Merged(a, s).Keys;
  }

  /** The speed lines 335-346 of `__parse_state` write from the previous attributes: 0 when
      off, `speed_in` in auto mode, `speed_locked` when it is nonzero, otherwise unchanged (the
      remaining branches test `air_in`, `isAirInOn` and `isAirOutOn`, which stay None). */
  function LegacySpeed(a: map<Attr.Name, Const.Value>): Const.Value
    requires HasInitAttrs(a)
  {
    if !Const.Truthy(a[Attr.IsOn]) then Const.Int(0)
    else if Const.Truthy(a[Attr.AutoMode]) then a[Attr.SpeedIn]
    else if Const.Truthy(a[Attr.SpeedLocked]) then a[Attr.SpeedLocked]
    else a[Attr.Speed]
  }

  /** The attributes `__init__` creates: `speed` is 0 and the rest None. */
  function InitialAttrs(): (a: map<Attr.Name, Const.Value>)
    ensures forall k :: k in a <==> !Attr.Late(k)
  {
    map k: Attr.Name | !Attr.Late(k) :: if k == Attr.Speed then Const.Int(0) else Const.Null
  }

  class PranaCoordinator {
    var client: Client
    var expectedDisconnect: bool
    /** `_disconnect_timer` is set. */
    var timerArmed: bool
    /** Timers scheduled with `call_later`, cancelled, and fired so far. */
    var timersStarted: nat
    var timersCancelled: nat
    var timersFired: nat
    var writeUuid: Option<string>
    var readUuid: Option<string>
    var link: seq<LinkEvent>
    var sent: seq<Frame>
    /** The device-data attributes, keyed by name. */
    var attrs: map<Attr.Name, Const.Value>
    /** `lastRead`, as an integer clock reading. */
    var lastRead: Option<int>

    /** At most one disconnect timer is live. */
    predicate TimerCount()
      reads this
    {
      timersStarted == timersCancelled + timersFired + (if timerArmed then 1 else 0)
    }

    /** The UUIDs are set exactly while there is a client; a connected client has a live
        timer and is not expected to disconnect; the frames sent pair up; every attribute
        of `__init__` exists. */
    predicate Valid()
      reads this
    {
      (client.Client? ==> writeUuid == Some(CharUuid) && readUuid == Some(CharUuid))
      && (client.NoClient? ==> writeUuid.None? && readUuid.None?)
      && (client == Client(true) ==> timerArmed && !expectedDisconnect)
      && TimerCount()
      && Paired(sent)
      && HasInitAttrs(attrs)
    }

    /** `_reset_disconnect_timer` has just run. */
    twostate predicate TimerRestarted()
      reads this
    {
      timerArmed && !expectedDisconnect
      && timersStarted == old(timersStarted) + 1
      && timersCancelled == old(timersCancelled) + (if old(timerArmed) then 1 else 0)
      && timersFired == old(timersFired)
    }

    /** A command that sent nothing left the connection alone: the client, the link, the
        UUIDs and the idle timer are as they were. */
    twostate predicate Untouched()
      reads this
    {
      client == old(client) && link == old(link) && expectedDisconnect == old(expectedDisconnect)
      && timerArmed == old(timerArmed) && timersStarted == old(timersStarted)
      && timersCancelled == old(timersCancelled) && timersFired == old(timersFired)
      && writeUuid == old(writeUuid) && readUuid == old(readUuid)
    }

    /** A command that wrote went through `_write`: the client is connected, connected and
        subscribed on the first write if it was not before, and the idle timer was re-armed
        (at least once) and has not fired. */
    twostate predicate Touched()
      reads this
    {
      client == Client(true) && timerArmed && !expectedDisconnect
      && timersStarted > old(timersStarted) && timersFired == old(timersFired)
      && link == old(link) + if old(client) == Client(true) then [] else [Connect, StartNotify]
    }

    constructor ()
      ensures Valid()
      ensures client == NoClient && !expectedDisconnect && !timerArmed
      ensures timersStarted == 0 && timersCancelled == 0 && timersFired == 0
      ensures link == [] && sent == [] && attrs == InitialAttrs() && lastRead == None
    {
      client := NoClient;
      expectedDisconnect := false;
      timerArmed := false;
      timersStarted, timersCancelled, timersFired := 0, 0, 0;
      writeUuid, readUuid := None, None;
      link := [];
      sent := [];
      attrs := InitialAttrs();
      lastRead := None;
    }

    /** `_reset_disconnect_timer`: cancels the live timer if any, clears the expected flag
        and arms one new timer. */
    method ResetDisconnectTimer()
      requires TimerCount()
      modifies this`timerArmed, this`timersStarted, this`timersCancelled, this`expectedDisconnect
      ensures TimerCount() && TimerRestarted()
    {
      if timerArmed {
        timersCancelled := timersCancelled + 1;
      }
      expectedDisconnect := false;
      timerArmed := true;
      timersStarted := timersStarted + 1;
    }

    /** `_ensure_connected`. A connected client only has its timer reset. Otherwise
        `establish` is how `establish_connection` ends: when it raises, nothing changes;
        when it returns, the UUIDs and the client are set, the timer is reset and
        notifications are subscribed. */
    method EnsureConnected(establish: Outcome) returns (o: Outcome)
      requires Valid()
      modifies this`client, this`expectedDisconnect, this`timerArmed, this`timersStarted,
        this`timersCancelled, this`writeUuid, this`readUuid, this`link
      ensures Valid()
      ensures old(client) == Client(true) ==>
        o == Completed && client == old(client) && link == old(link) && TimerRestarted()
      ensures old(client) != Client(true) && establish.Raised? ==>
        o == establish && client == old(client) && link == old(link)
        && timerArmed == old(timerArmed) && expectedDisconnect == old(expectedDisconnect)
        && timersStarted == old(timersStarted) && timersCancelled == old(timersCancelled)
      ensures old(client) != Client(true) && establish == Completed ==>
        o == Completed && client == Client(true) && link == old(link) + [Connect, StartNotify]
        && TimerRestarted()
    {
      ghost var attrs0, sent0 := attrs, sent;
      if client == Client(true) {
        ResetDisconnectTimer();
        assert attrs == attrs0 && sent == sent0;
        return Completed;
      }
      if establish.Raised? {
        return establish;
      }
      link := link + [Connect];
      readUuid := Some(CharUuid);
      writeUuid := Some(CharUuid);
      client := Client(true);
      ResetDisconnectTimer();
      link := link + [StartNotify];
      assert link == old(link) + [Connect, StartNotify];
      assert attrs == attrs0 && sent == sent0;
      o := Completed;
    }

    /** `_execute_disconnect`: marks the disconnect as expected and clears the client and
        the UUIDs; only a connected client is unsubscribed and disconnected. The timer is
        left as it is. */
    method ExecuteDisconnect()
      requires Valid()
      modifies this`client, this`expectedDisconnect, this`writeUuid, this`readUuid, this`link
      ensures Valid()
      ensures expectedDisconnect && client == NoClient && writeUuid.None? && readUuid.None?
      ensures link == old(link) + if old(client) == Client(true) then [StopNotify, Disconnect] else []
    {
      var wasConnected := client == Client(true);
      expectedDisconnect := true;
      client := NoClient;
      writeUuid := None;
      readUuid := None;
      if wasConnected {
        link := link + [StopNotify, Disconnect];
      }
    }

    /** `stop`. */
    method Stop()
      requires Valid()
      modifies this`client, this`expectedDisconnect, this`writeUuid, this`readUuid, this`link
      ensures Valid()
      ensures expectedDisconnect && client == NoClient && writeUuid.None? && readUuid.None?
      ensures link == old(link) + if old(client) == Client(true) then [StopNotify, Disconnect] else []
    {
      ExecuteDisconnect();
    }

    /** The idle timer fires: `_disconnect` drops the timer and `_execute_timed_disconnect`
        disconnects. */
    method TimerFires()
      requires Valid() && timerArmed
      modifies this`client, this`expectedDisconnect, this`writeUuid, this`readUuid, this`link,
        this`timerArmed, this`timersFired
      ensures Valid()
      ensures !timerArmed && timersFired == old(timersFired) + 1
      ensures expectedDisconnect && client == NoClient
      ensures link == old(link) + if old(client) == Client(true) then [StopNotify, Disconnect] else []
    {
      ExecuteDisconnect();
      timerArmed := false;
      timersFired := timersFired + 1;
    }

    /** Bleak reports that the link dropped and calls `_disconnected`, which warns exactly
        when the disconnect was not expected. */
    method Disconnected() returns (warned: bool)
      requires Valid()
      modifies this`client
      ensures Valid()
      ensures warned == !expectedDisconnect
      ensures client == if old(client).Client? then Client(false) else NoClient
    {
      if client.Client? {
        client := Client(false);
      }
      warned := !expectedDisconnect;
    }

    /** `_write_while_connected`. */
    method WriteWhileConnected(c: Frames.Cmd, response: bool)
      requires client.Client?
      modifies this`sent
      ensures sent == old(sent) + Written(c, response)
    {
      sent := sent + [Frame(c, response)];
      if Frames.Bytes(Frames.ReadState) != Frames.Bytes(c) {
        sent := sent + [Frame(Frames.ReadState, true)];
      }
    }

    /** `_write`, with the connection established on demand. */
    method Write(c: Frames.Cmd, response: bool)
      requires Valid()
      modifies this`client, this`expectedDisconnect, this`timerArmed, this`timersStarted,
        this`timersCancelled, this`writeUuid, this`readUuid, this`link, this`sent
      ensures Valid()
      ensures sent == old(sent) + Written(c, response)
      ensures client == Client(true) && TimerRestarted()
      ensures link == old(link) + if old(client) == Client(true) then [] else [Connect, StartNotify]
    {
      var _ := EnsureConnected(Completed);
      PairedAppend(sent, c, response);
      WriteWhileConnected(c, response);
    }

    /** `speed_up`. */
    method SpeedUp()
      requires Valid()
      modifies this
      ensures Valid() && attrs == old(attrs) && lastRead == old(lastRead)
      ensures Touched()
      ensures sent == old(sent) + Written(Frames.SpeedUp, false)
    {
      Write(Frames.SpeedUp, false);
    }

    /** `speed_down`. */
    method SpeedDown()
      requires Valid()
      modifies this
      ensures Valid() && attrs == old(attrs) && lastRead == old(lastRead)
      ensures Touched()
      ensures sent == old(sent) + Written(Frames.SpeedDown, false)
    {
      Write(Frames.SpeedDown, false);
    }

    /** `set_low_speed`: sends the night-mode frame. */
    method SetLowSpeed()
      requires Valid()
      modifies this
      ensures Valid() && attrs == old(attrs) && lastRead == old(lastRead)
      ensures Touched()
      ensures sent == old(sent) + Written(Frames.EnableNightMode, false)
    {
      Write(Frames.EnableNightMode, false);
    }

    /** `set_night_mode`. */
    method SetNightMode()
      requires Valid()
      modifies this
      ensures Valid() && attrs == old(attrs) && lastRead == old(lastRead)
      ensures Touched()
      ensures sent == old(sent) + Written(Frames.EnableNightMode, false)
    {
      Write(Frames.EnableNightMode, false);
    }

    /** `get_status_details`: one `READ_STATE`; it returns None. */
    method GetStatusDetails()
      requires Valid()
      modifies this
      ensures Valid() && attrs == old(attrs) && lastRead == old(lastRead)
      ensures Touched()
      ensures sent == old(sent) + [Frame(Frames.ReadState, false)]
    {
      WrittenShape(Frames.ReadState, false);
      Write(Frames.ReadState, false);
    }

    /** `brightness_up`. */
    method BrightnessUp()
      requires Valid()
      modifies this
      ensures Valid() && attrs == old(attrs) && lastRead == old(lastRead)
      ensures Touched()
      ensures sent == old(sent) + Written(Frames.ChangeBrightness, false)
    {
      Write(Frames.ChangeBrightness, false);
    }

    /** `turn_on`: caches `is_on = True`, then sends START. */
    method TurnOn()
      requires Valid()
      modifies this
      ensures Valid() && lastRead == old(lastRead)
      ensures Touched()
      ensures attrs == old(attrs)[Attr.IsOn := Const.Bool(true)]
      ensures sent == old(sent) + Written(Frames.Start, false)
    {
      attrs := attrs[Attr.IsOn := Const.Bool(true)];
      Write(Frames.Start, false);
    }

    /** `turn_off`: caches `is_on = False`, then sends STOP. */
    method TurnOff()
      requires Valid()
      modifies this
      ensures Valid() && lastRead == old(lastRead)
      ensures Touched()
      ensures attrs == old(attrs)[Attr.IsOn := Const.Bool(false)]
      ensures sent == old(sent) + Written(Frames.Stop, false)
    {
      attrs := attrs[Attr.IsOn := Const.Bool(false)];
      Write(Frames.Stop, false);
    }

    /** The loops of `set_speed`: one `speed_up` per level while the counter is below the
        target, or one `speed_down` per level while it is above. */
    method StepSpeed(from: int, target: int)
      requires Valid()
      modifies this
      ensures Valid() && attrs == old(attrs) && lastRead == old(lastRead)
      ensures sent == old(sent) + StepFrames(from, target)
      ensures from == target ==> Untouched()
      ensures from != target ==> Touched()
    {
      if target > from {
        StepUp(from, target);
      } else {
        StepDown(from, target);
      }
    }

    /** The rising loop of `set_speed`: `speed_up` while the counter is below the target. */
    method StepUp(from: int, target: int)
      requires Valid() && from <= target
      modifies this
      ensures Valid() && attrs == old(attrs) && lastRead == old(lastRead)
      ensures sent == old(sent) + Repeat(Written(Frames.SpeedUp, false), target - from)
      ensures if from == target then Untouched() else Touched()
    {
      var counter := from;
      while counter < target
        invariant from <= counter <= target
        invariant Valid() && attrs == old(attrs) && lastRead == old(lastRead)
        invariant sent == old(sent) + Repeat(Written(Frames.SpeedUp, false), counter - from)
        invariant if counter == from then Untouched() else Touched()
      {
        SpeedUp();
        counter := counter + 1;
      }
    }

    /** The falling loop of `set_speed`: `speed_down` while the counter is above the target. */
    method StepDown(from: int, target: int)
      requires Valid() && target <= from
      modifies this
      ensures Valid() && attrs == old(attrs) && lastRead == old(lastRead)
      ensures sent == old(sent) + Repeat(Written(Frames.SpeedDown, false), from - target)
      ensures if from == target then Untouched() else Touched()
    {
      var counter := from;
      while counter > target
        invariant target <= counter <= from
        invariant Valid() && attrs == old(attrs) && lastRead == old(lastRead)
        invariant sent == old(sent) + Repeat(Written(Frames.SpeedDown, false), from - counter)
        invariant if counter == from then Untouched() else Touched()
      {
        SpeedDown();
        counter := counter - 1;
      }
    }

    /** What `set_speed(target)` does, ending in outcome `o`. Nothing happens when the target
        equals the cached speed. Otherwise the unit is turned on if `is_on` is falsy; a cached
        speed that is not a number makes the comparison raise TypeError; else one SPEED_UP or
        SPEED_DOWN per level is sent and the cached speed becomes the target. The connection
        is touched exactly when something was written. */
    twostate predicate SpeedSet(target: int, o: Outcome)
      requires old(Attr.Speed in attrs && Attr.IsOn in attrs)
      reads this
    {
      lastRead == old(lastRead)
      && if Const.PyEq(Const.Int(target), old(attrs)[Attr.Speed]) then
        o == Completed && sent == old(sent) && attrs == old(attrs) && Untouched()
      else
        var powered := PoweredOn(old(attrs));
        var cur := Const.AsNumber(old(attrs)[Attr.Speed]);
        var on := Const.Truthy(old(attrs)[Attr.IsOn]);
        (cur.None? ==>
          o == Raised(TypeError) && attrs == powered
          && sent == old(sent) + PowerOn(old(attrs)[Attr.IsOn])
          && (if on then Untouched() else Touched()))
        && (cur.Some? ==>
          o == Completed && attrs == powered[Attr.Speed := Const.Int(target)]
          && sent == old(sent) + PowerOn(old(attrs)[Attr.IsOn]) + StepFrames(cur.value, target)
          && Touched())
    }

    /** `set_speed`. Nothing happens when the target equals the cached speed. Otherwise the
        unit is turned on if `is_on` is falsy; a cached speed that is not a number makes the
        comparison raise TypeError; else one SPEED_UP or SPEED_DOWN per level is sent and the
        cached speed becomes the target. */
    method SetSpeed(target: int) returns (o: Outcome)
      requires Valid()
      modifies this
      ensures Valid() && SpeedSet(target, o)
    {
      var cur := attrs[Attr.Speed];
      if Const.PyEq(Const.Int(target), cur) {
        return Completed;
      }
      if !Const.Truthy(attrs[Attr.IsOn]) {
        TurnOn();
      }
      if Const.AsNumber(cur).None? {
        return Raised(TypeError);
      }
      var from := Const.AsNumber(cur).value;
      assert from != target;
      assert sent == old(sent) + PowerOn(old(attrs)[Attr.IsOn]);
      StepSpeed(from, target);
      UpdateKeepsInit(attrs, Attr.Speed, Const.Int(target));
      attrs := attrs[Attr.Speed := Const.Int(target)];
      o := Completed;
    }

    /** `set_normal_speed` passes the enum member `Speed.SPEED_3`, which is never equal to the
        cached speed and cannot be ordered against it: after turning the unit on if needed,
        the comparison in `set_speed` raises TypeError. */
    method SetNormalSpeed() returns (o: Outcome)
      requires Valid()
      modifies this
      ensures Valid() && lastRead == old(lastRead)
      ensures o == Raised(TypeError)
      ensures attrs == PoweredOn(old(attrs))
      ensures sent == old(sent) + PowerOn(old(attrs)[Attr.IsOn])
      ensures if Const.Truthy(old(attrs)[Attr.IsOn]) then Untouched() else Touched()
    {
      if !Const.Truthy(attrs[Attr.IsOn]) {
        TurnOn();
      }
      o := Raised(TypeError);
    }

    /** `set_brightness` as written: a target outside 0..6 raises ValueError before any
        write; any other target sends READ_STATE and then raises NameError, because
        `none_throws` is not defined anywhere. */
    method SetBrightness(target: int) returns (o: Outcome)
      requires Valid()
      modifies this
      ensures Valid() && attrs == old(attrs) && lastRead == old(lastRead)
      ensures !(0 <= target <= 6) ==> o == Raised(ValueError) && sent == old(sent) && Untouched()
      ensures 0 <= target <= 6 ==> o == Raised(NameError) && sent == old(sent) + [Frame(Frames.ReadState, false)]
      ensures 0 <= target <= 6 ==> Touched()
    {
      if target < 0 || target > 6 {
        return Raised(ValueError);
      }
      GetStatusDetails();
      o := Raised(NameError);
    }

    /** `set_brightness` with the unit's current brightness `current` supplied: after the
        range check and the READ_STATE, it presses CHANGE_BRIGHTNESS `Presses(target,
        current)` times. */
    method SetBrightnessFrom(target: int, current: int) returns (o: Outcome)
      requires Valid()
      modifies this
      ensures Valid() && attrs == old(attrs) && lastRead == old(lastRead)
      ensures !(0 <= target <= 6) ==> o == Raised(ValueError) && sent == old(sent) && Untouched()
      ensures 0 <= target <= 6 ==> o == Completed && Touched()
      ensures 0 <= target <= 6 ==>
        sent == old(sent) + [Frame(Frames.ReadState, false)]
                + Repeat(Written(Frames.ChangeBrightness, false), Presses(target, current))
    {
      if target < 0 || target > 6 {
        return Raised(ValueError);
      }
      GetStatusDetails();
      ghost var start := sent;
      if target == current {
        return Completed;
      }
      var counter := BrightnessSteps(target, current);
      while counter > 0
        invariant counter <= Presses(target, current)
        invariant Valid() && attrs == old(attrs) && lastRead == old(lastRead) && Touched()
        invariant sent == start + Repeat(Written(Frames.ChangeBrightness, false),
          Presses(target, current) - (if counter > 0 then counter else 0))
      {
        BrightnessUp();
        counter := counter - 1;
      }
      o := Completed;
    }

    /** `set_brightness_pct`: a percentage outside 0..100 raises ValueError before any write;
        otherwise the brightness is set to the rounded level. */
    method SetBrightnessPct(pct: int, current: int) returns (o: Outcome)
      requires Valid()
      modifies this
      ensures Valid() && attrs == old(attrs) && lastRead == old(lastRead)
      ensures !(0 <= pct <= 100) ==> o == Raised(ValueError) && sent == old(sent) && Untouched()
      ensures 0 <= pct <= 100 ==> o == Completed && 0 <= PctToLevel(pct) <= 6 && Touched()
      ensures 0 <= pct <= 100 ==>
        sent == old(sent) + [Frame(Frames.ReadState, false)]
                + Repeat(Written(Frames.ChangeBrightness, false), Presses(PctToLevel(pct), current))
    {
      if pct < 0 || pct > 100 {
        return Raised(ValueError);
      }
      PctToLevelSpec(pct);
      o := SetBrightnessFrom(PctToLevel(pct), current);
    }

    /** `set_brightness_pct` as written: the range check, then `set_brightness` as written,
        which sends READ_STATE and raises NameError for every in-range percentage. */
    method SetBrightnessPctAsWritten(pct: int) returns (o: Outcome)
      requires Valid()
      modifies this
      ensures Valid() && attrs == old(attrs) && lastRead == old(lastRead)
      ensures !(0 <= pct <= 100) ==> o == Raised(ValueError) && sent == old(sent) && Untouched()
      ensures 0 <= pct <= 100 ==>
        o == Raised(NameError) && sent == old(sent) + [Frame(Frames.ReadState, false)] && Touched()
    {
      if pct < 0 || pct > 100 {
        return Raised(ValueError);
      }
      PctToLevelSpec(pct);
      o := SetBrightness(PctToLevel(pct));
    }

    /** `set_heating`: when the cached flag differs from the request, toggles heating and
        caches the request; afterwards the cache agrees with the request. */
    method SetHeating(enable: bool)
      requires Valid()
      modifies this
      ensures Valid() && lastRead == old(lastRead)
      ensures Const.PyEq(attrs[Attr.MiniHeatingEnabled], Const.Bool(enable))
      ensures Const.PyEq(old(attrs)[Attr.MiniHeatingEnabled], Const.Bool(enable)) ==>
        sent == old(sent) && attrs == old(attrs) && Untouched()
      ensures !Const.PyEq(old(attrs)[Attr.MiniHeatingEnabled], Const.Bool(enable)) ==>
        sent == old(sent) + Written(Frames.ToggleHeating, true)
        && attrs == old(attrs)[Attr.MiniHeatingEnabled := Const.Bool(enable)] && Touched()
    {
      if !Const.PyEq(attrs[Attr.MiniHeatingEnabled], Const.Bool(enable)) {
        Write(Frames.ToggleHeating, true);
        attrs := attrs[Attr.MiniHeatingEnabled := Const.Bool(enable)];
      }
    }

    /** `set_winter_mode`: toggles winter mode when the cached flag differs from the request,
        without updating the cache, so a repeated call toggles again. */
    method SetWinterMode(enable: bool)
      requires Valid()
      modifies this
      ensures Valid() && attrs == old(attrs) && lastRead == old(lastRead)
      ensures sent == old(sent) + if Const.PyEq(attrs[Attr.WinterModeEnabled], Const.Bool(enable))
        then [] else Written(Frames.ToggleWinterMode, false)
      ensures if Const.PyEq(attrs[Attr.WinterModeEnabled], Const.Bool(enable)) then Untouched() else Touched()
    {
      if !Const.PyEq(attrs[Attr.WinterModeEnabled], Const.Bool(enable)) {
        Write(Frames.ToggleWinterMode, false);
      }
    }

    /** `toggle_air_in_off`: flips the cached input-fan flag, then sends FLOW_IN_OFF. */
    method ToggleAirInOff()
      requires Valid()
      modifies this
      ensures Valid() && lastRead == old(lastRead)
      ensures Touched()
      ensures attrs == old(attrs)[Attr.IsInputFanOn := Const.Bool(!Const.Truthy(old(attrs)[Attr.IsInputFanOn]))]
      ensures sent == old(sent) + Written(Frames.FlowInOff, false)
    {
      attrs := attrs[Attr.IsInputFanOn := Const.Bool(!Const.Truthy(attrs[Attr.IsInputFanOn]))];
      Write(Frames.FlowInOff, false);
    }

    /** `toggle_air_out_off` as written: `self.self` raises AttributeError before anything is
        assigned or sent. */
    method ToggleAirOutOff() returns (o: Outcome)
      requires Valid()
      ensures o == Raised(AttributeError)
    {
      o := Raised(AttributeError);
    }

    /** `toggle_air_out_off` as intended: flips the cached output-fan flag, then sends
        FLOW_OUT_OFF, like its input-fan twin. */
    method ToggleAirOutOffFixed()
      requires Valid()
      modifies this
      ensures Valid() && lastRead == old(lastRead)
      ensures Touched()
      ensures attrs == old(attrs)[Attr.IsOutputFanOn := Const.Bool(!Const.Truthy(old(attrs)[Attr.IsOutputFanOn]))]
      ensures sent == old(sent) + Written(Frames.FlowOutOff, false)
    {
      attrs := attrs[Attr.IsOutputFanOn := Const.Bool(!Const.Truthy(attrs[Attr.IsOutputFanOn]))];
      Write(Frames.FlowOutOff, false);
    }

    /** `toggle_auto_mode`: flips the cached auto flag, then sends AUTO_MODE. */
    method ToggleAutoMode()
      requires Valid()
      modifies this
      ensures Valid() && lastRead == old(lastRead)
      ensures Touched()
      ensures attrs == old(attrs)[Attr.AutoMode := Const.Bool(!Const.Truthy(old(attrs)[Attr.AutoMode]))]
      ensures sent == old(sent) + Written(Frames.AutoMode, false)
    {
      attrs := attrs[Attr.AutoMode := Const.Bool(!Const.Truthy(attrs[Attr.AutoMode]))];
      Write(Frames.AutoMode, false);
    }

    /** `set_auto_mode`: only when auto is off, caches it on and sends AUTO_MODE. */
    method SetAutoMode()
      requires Valid()
      modifies this
      ensures Valid() && lastRead == old(lastRead)
      ensures Const.Truthy(attrs[Attr.AutoMode])
      ensures Const.Truthy(old(attrs)[Attr.AutoMode]) ==> sent == old(sent) && attrs == old(attrs) && Untouched()
      ensures !Const.Truthy(old(attrs)[Attr.AutoMode]) ==>
        sent == old(sent) + Written(Frames.AutoMode, false)
        && attrs == old(attrs)[Attr.AutoMode := Const.Bool(true)] && Touched()
    {
      if !Const.Truthy(attrs[Attr.AutoMode]) {
        attrs := attrs[Attr.AutoMode := Const.Bool(true)];
        Write(Frames.AutoMode, false);
      }
    }

    /** `_async_update_data`: `get_status_details` under the retry wrapper, whose attempts end
        as `attempts` says; any exception it lets through is caught and caches `is_on = False`.
        The connection work of the failing attempts is not recorded, so that branch leaves the
        recorded connection as it was. */
    method Refresh(attempts: seq<Result<(), PyError>>)
      requires Valid() && |attempts| >= Retry.DefaultAttempts
      modifies this
      ensures Valid() && lastRead == old(lastRead)
      ensures Retry.Retried(attempts).result.Ok? ==>
        sent == old(sent) + [Frame(Frames.ReadState, false)] && attrs == old(attrs) && Touched()
      ensures Retry.Retried(attempts).result.Err? ==>
        sent == old(sent) && attrs == old(attrs)[Attr.IsOn := Const.Bool(false)] && Untouched()
    {
      var run := Retry.CallWithRetry(attempts);
      if run.result.Ok? {
        GetStatusDetails();
      } else {
        attrs := attrs[Attr.IsOn := Const.Bool(false)];
      }
    }

    /** `for key in d: setattr(self, key, d[key])`. */
    method SetAll(d: map<Attr.Name, Const.Value>)
      modifies this`attrs
      ensures attrs == old(attrs) + d
    {
      var keys := d.Keys;
      while keys != {}
        invariant keys <= d.Keys
        invariant attrs.Keys == old(attrs).Keys + (d.Keys - keys)
        invariant forall k :: k in attrs ==> attrs[k] == if k in d && k !in keys then d[k] else old(attrs)[k]
        decreases |keys|
      {
        var k :| k in keys;
        attrs := attrs[k := d[k]];
        keys := keys - {k};
      }
      assert attrs == old(attrs) + d;
    }

    /** The body of `_notification_handler` after a state was parsed: the state's `to_dict`,
        then its sensors' `to_dict` when present, copied onto the attributes. */
    method Merge(s: Const.PranaState)
      modifies this`attrs
      ensures attrs == Merged(old(attrs), s)
    {
      SetAll(Const.ToDict(s));
      if s.sensors.Some? {
        SetAll(Const.SensorsToDict(s.sensors.value));
      }
    }

    /** `_notification_handler` for a notification `data` received at clock reading `now`.
        A parse that raises leaves `lastRead` alone and has only written the legacy speed if
        it got that far; any other notification stamps `lastRead`, and a state is merged. */
    method HandleNotification(data: seq<Frames.Byte>, now: int) returns (o: Outcome)
      requires Valid()
      modifies this`attrs, this`lastRead
      ensures Valid()
      ensures match Frames.Decode(data, now)
        case NoState => o == Completed && lastRead == Some(now) && attrs == old(attrs)
        case Failed(e, flagsRead) => o == Raised(e) && lastRead == old(lastRead)
          && attrs == if flagsRead then old(attrs)[Attr.Speed := LegacySpeed(old(attrs))] else old(attrs)
        case Parsed(s) => o == Completed && lastRead == Some(now) && attrs == Merged(old(attrs), s)
    {
      var d := Frames.Decode(data, now);
      if (d.Failed? && d.flagsRead) || d.Parsed? {
        UpdateKeepsInit(attrs, Attr.Speed, LegacySpeed(attrs));
        attrs := attrs[Attr.Speed := LegacySpeed(attrs)];
      }
      if d.Failed? {
        return Raised(d.error);
      }
      lastRead := Some(now);
      if d.Parsed? {
        ghost var before := old(attrs);
        MergedOverwritesSpeed(before, LegacySpeed(before), d.state);
        Merge(d.state);
        MergedKeepsInit(before, d.state);
      }
      o := Completed;
    }
  }
}
