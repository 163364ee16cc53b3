/** `PranaFan`: the properties the fan entity reads off the coordinator, and the coordinator
    calls its service handlers make. */
module Fan {
  import opened Wrappers
  import Attr
  import Const
  import Frames
  import Coordinator

  /** `SPEED_AUTO` and `SPEED_MANUAL`. */
  const SpeedAuto := "auto"
  const SpeedManual := "manual"

  /** `timedelta(minutes=5)`, in seconds of the integer clock. */
  const AvailabilityWindow := 300

  /** `current_direction`: None while the speed is falsy, then "forward" when the input fan
      is off, "reverse" when the output fan is off, and both otherwise. */
  function CurrentDirection(a: map<Attr.Name, Const.Value>): Option<string>
    requires Coordinator.HasInitAttrs(a)
  {
    if !Const.Truthy(a[Attr.Speed]) then None
    else if !Const.Truthy(a[Attr.IsInputFanOn]) then Some("forward")
    else if !Const.Truthy(a[Attr.IsOutputFanOn]) then Some("reverse")
    else Some("reverse & forward")
  }

  /** The four readings of `current_direction`, each exactly when its condition holds. */
  lemma CurrentDirectionSpec(a: map<Attr.Name, Const.Value>)
    requires Coordinator.HasInitAttrs(a)
    ensures CurrentDirection(a) == None <==> !Const.Truthy(a[Attr.Speed])
    ensures CurrentDirection(a) == Some("forward") <==>
      Const.Truthy(a[Attr.Speed]) && !Const.Truthy(a[Attr.IsInputFanOn])
    ensures CurrentDirection(a) == Some("reverse") <==>
      Const.Truthy(a[Attr.Speed]) && Const.Truthy(a[Attr.IsInputFanOn]) && !Const.Truthy(a[Attr.IsOutputFanOn])
    ensures CurrentDirection(a) == Some("reverse & forward") <==>
      Const.Truthy(a[Attr.Speed]) && Const.Truthy(a[Attr.IsInputFanOn]) && Const.Truthy(a[Attr.IsOutputFanOn])
  {
  }

  /** `preset_modes`. */
  const PresetModes: seq<string> := [SpeedManual, SpeedAuto]

  /** `preset_mode`. */
  function PresetMode(a: map<Attr.Name, Const.Value>): string
    requires Coordinator.HasInitAttrs(a)
  {
    if Const.Truthy(a[Attr.AutoMode]) then SpeedAuto else SpeedManual
  }

  /** The preset is always one of the two offered, and it is "auto" exactly when the cached
      auto flag is truthy. */
  lemma PresetModeSpec(a: map<Attr.Name, Const.Value>)
    requires Coordinator.HasInitAttrs(a)
    ensures PresetMode(a) in PresetModes
    ensures PresetMode(a) == SpeedAuto <==> Const.Truthy(a[Attr.AutoMode])
  {
  }

  /** `available`: a notification was handled less than five minutes before `now`. */
  predicate Available(lastRead: Option<int>, now: int) {
    lastRead.Some? && lastRead.value > now - AvailabilityWindow
  }

  /** After a notification at time `t` the entity is available until `t + 300` and not from
      then on; it is never available before the first notification. */
  lemma AvailableSpec(t: int, now: int)
    ensures Available(Some(t), now) <==> now < t + AvailabilityWindow
    ensures !Available(None, now)
  {
  }

  /** The attributes after `async_set_direction(direction)`: "reverse" switches the input
      fan on if it is off and then toggles the output fan; "forward" is the mirror image;
      anything else changes nothing. */
  function DirectionAttrs(a: map<Attr.Name, Const.Value>, direction: string): map<Attr.Name, Const.Value>
    requires Coordinator.HasInitAttrs(a)
  {
    var inOn := Const.Truthy(a[Attr.IsInputFanOn]);
    var outOn := Const.Truthy(a[Attr.IsOutputFanOn]);
    if direction == "reverse" then
      var b := if inOn then a else a[Attr.IsInputFanOn := Const.Bool(true)];
      b[Attr.IsOutputFanOn := Const.Bool(!outOn)]
    else if direction == "forward" then
      var b := if outOn then a else a[Attr.IsOutputFanOn := Const.Bool(true)];
      b[Attr.IsInputFanOn := Const.Bool(!inOn)]
    else a
  }

  /** The frames `async_set_direction(direction)` sends. */
  function DirectionFrames(a: map<Attr.Name, Const.Value>, direction: string): seq<Coordinator.Frame>
    requires Coordinator.HasInitAttrs(a)
  {
    var flowIn := Coordinator.Written(Frames.FlowInOff, false);
    var flowOut := Coordinator.Written(Frames.FlowOutOff, false);
    if direction == "reverse" then
      (if Const.Truthy(a[Attr.IsInputFanOn]) then [] else flowIn) + flowOut
    else if direction == "forward" then
      (if Const.Truthy(a[Attr.IsOutputFanOn]) then [] else flowOut) + flowIn
    else []
  }

  /** What the entity reports after a direction change of a running fan: "reverse" leaves
      the input fan on and reads "reverse" only if the output fan was running before (it
      is then switched off); otherwise both fans run. "forward" is the mirror image. */
  lemma DirectionOutcome(a: map<Attr.Name, Const.Value>)
    requires Coordinator.HasInitAttrs(a) && Const.Truthy(a[Attr.Speed])
    ensures Const.Truthy(DirectionAttrs(a, "reverse")[Attr.IsInputFanOn])
    ensures CurrentDirection(DirectionAttrs(a, "reverse")) ==
      if Const.Truthy(a[Attr.IsOutputFanOn]) then Some("reverse") else Some("reverse & forward")
    ensures Const.Truthy(DirectionAttrs(a, "forward")[Attr.IsOutputFanOn])
    ensures CurrentDirection(DirectionAttrs(a, "forward")) ==
      if Const.Truthy(a[Attr.IsInputFanOn]) then Some("forward") else Some("reverse & forward")
    ensures forall d :: d != "reverse" && d != "forward" ==> DirectionAttrs(a, d) == a
  {
  }

  /** `async_set_direction` as written: `toggle_air_out_off` raises AttributeError before it
      flips or sends anything. So "reverse" raises after switching the input fan on if it
      was off, and "forward" raises at once when the output fan is off; only "forward" with
      the output fan on completes, toggling the input fan. */
  method SetDirectionAsWritten(c: Coordinator.PranaCoordinator, direction: string) returns (o: Outcome)
    requires c.Valid()
    modifies c
    ensures c.Valid() && c.lastRead == old(c.lastRead)
    ensures direction == "reverse" ==>
      var inOn := Const.Truthy(old(c.attrs)[Attr.IsInputFanOn]);
      o == Raised(AttributeError)
      && c.attrs == (if inOn then old(c.attrs) else old(c.attrs)[Attr.IsInputFanOn := Const.Bool(true)])
      && c.sent == old(c.sent) + (if inOn then [] else Coordinator.Written(Frames.FlowInOff, false))
      && (if inOn then c.Untouched() else c.Touched())
    ensures direction == "forward" && !Const.Truthy(old(c.attrs)[Attr.IsOutputFanOn]) ==>
      o == Raised(AttributeError) && c.attrs == old(c.attrs) && c.sent == old(c.sent) && c.Untouched()
    ensures direction == "forward" && Const.Truthy(old(c.attrs)[Attr.IsOutputFanOn]) ==>
      o == Completed
      && c.attrs == old(c.attrs)[Attr.IsInputFanOn := Const.Bool(!Const.Truthy(old(c.attrs)[Attr.IsInputFanOn]))]
      && c.sent == old(c.sent) + Coordinator.Written(Frames.FlowInOff, false) && c.Touched()
    ensures direction != "reverse" && direction != "forward" ==>
      o == Completed && c.attrs == old(c.attrs) && c.sent == old(c.sent) && c.Untouched()
  {
    o := Completed;
    if direction == "reverse" {
      if !Const.Truthy(c.attrs[Attr.IsInputFanOn]) {
        c.ToggleAirInOff();
      }
      o := c.ToggleAirOutOff();
    } else if direction == "forward" {
      if !Const.Truthy(c.attrs[Attr.IsOutputFanOn]) {
        o := c.ToggleAirOutOff();
        return;
      }
      c.ToggleAirInOff();
    }
  }

  /** `async_set_direction`, with `toggle_air_out_off` as intended. */
  method SetDirection(c: Coordinator.PranaCoordinator, direction: string)
    requires c.Valid()
    modifies c
    ensures c.Valid() && c.lastRead == old(c.lastRead)
    ensures c.attrs == DirectionAttrs(old(c.attrs), direction)
    ensures c.sent == old(c.sent) + DirectionFrames(old(c.attrs), direction)
    ensures if direction == "reverse" || direction == "forward" then c.Touched() else c.Untouched()
  {
    ghost var sent0 := c.sent;
    if direction == "reverse" {
      if !Const.Truthy(c.attrs[Attr.IsInputFanOn]) {
        c.ToggleAirInOff();
      }
      ghost var sent1 := c.sent;
      c.ToggleAirOutOffFixed();
      assert c.sent == sent0 + (sent1[|sent0|..] + c.sent[|sent1|..]);
    } else if direction == "forward" {
      if !Const.Truthy(c.attrs[Attr.IsOutputFanOn]) {
        c.ToggleAirOutOffFixed();
      }
      ghost var sent1 := c.sent;
      c.ToggleAirInOff();
      assert c.sent == sent0 + (sent1[|sent0|..] + c.sent[|sent1|..]);
    }
  }

  /** `async_set_preset_mode`: "auto" switches auto mode on and sends nothing if it already
      is; any other preset toggles auto mode, so choosing "manual" while already manual
      switches auto mode on. */
  method SetPresetMode(c: Coordinator.PranaCoordinator, mode: string)
    requires c.Valid()
    modifies c
    ensures c.Valid() && c.lastRead == old(c.lastRead)
    ensures mode == SpeedAuto ==> PresetMode(c.attrs) == SpeedAuto
    ensures mode == SpeedAuto && Const.Truthy(old(c.attrs)[Attr.AutoMode]) ==>
      c.sent == old(c.sent) && c.attrs == old(c.attrs) && c.Untouched()
    ensures mode == SpeedAuto && !Const.Truthy(old(c.attrs)[Attr.AutoMode]) ==>
      c.sent == old(c.sent) + Coordinator.Written(Frames.AutoMode, false)
      && c.attrs == old(c.attrs)[Attr.AutoMode := Const.Bool(true)] && c.Touched()
    ensures mode != SpeedAuto ==>
      PresetMode(c.attrs) == (if PresetMode(old(c.attrs)) == SpeedAuto then SpeedManual else SpeedAuto)
      && c.attrs == old(c.attrs)[Attr.AutoMode := Const.Bool(!Const.Truthy(old(c.attrs)[Attr.AutoMode]))]
      && c.sent == old(c.sent) + Coordinator.Written(Frames.AutoMode, false) && c.Touched()
  {
    if mode == SpeedAuto {
      c.SetAutoMode();
    } else {
      c.ToggleAutoMode();
    }
  }

  /** `async_set_percentage`, given the level `speed` the percentage maps to: level 0 turns
      the unit off, any other level is passed to `set_speed` (frames, attributes and outcome
      as `SpeedSet` says), after which the cached speed equals it unless `set_speed` raised. */
  method SetPercentage(c: Coordinator.PranaCoordinator, speed: int) returns (o: Outcome)
    requires c.Valid()
    modifies c
    ensures c.Valid() && c.lastRead == old(c.lastRead)
    ensures speed == 0 ==> o == Completed
    ensures speed == 0 ==> c.attrs == old(c.attrs)[Attr.IsOn := Const.Bool(false)]
    ensures speed == 0 ==> c.sent == old(c.sent) + Coordinator.Written(Frames.Stop, false) && c.Touched()
    ensures speed != 0 ==> c.SpeedSet(speed, o)
    ensures speed != 0 && o == Completed ==> Const.PyEq(Const.Int(speed), c.attrs[Attr.Speed])
    ensures speed != 0 && o.Raised? ==> o.error == TypeError
  {
    if speed == 0 {
      c.TurnOff();
      o := Completed;
    } else {
      o := c.SetSpeed(speed);
    }
  }
}
