/** The attribute names that `PranaState.to_dict` and `PranaSensorsState.to_dict` use as keys,
    and that the coordinator's notification handler copies onto itself with `setattr`. */
module Attr {

  datatype Name =
    // keys of PranaState.to_dict
    | SpeedLocked | SpeedIn | SpeedOut | NightMode | BoostMode | AutoMode | AutoModePlus
    | FlowsLocked | IsOn | MiniHeatingEnabled | WinterModeEnabled | IsInputFanOn | IsOutputFanOn
    | Timestamp | Speed | Brightness | Sensors | Display | TimerOn | Timer
    // keys of PranaSensorsState.to_dict
    | TemperatureIn | TemperatureOut | Humidity | Pressure | Voc | Co2
  {
    /** The Python spelling of the name. */
    function Text(): string {
      match this
      case SpeedLocked => "speed_locked"
      case SpeedIn => "speed_in"
      case SpeedOut => "speed_out"
      case NightMode => "night_mode"
      case BoostMode => "boost_mode"
      case AutoMode => "auto_mode"
      case AutoModePlus => "auto_mode_plus"
      case FlowsLocked => "flows_locked"
      case IsOn => "is_on"
      case MiniHeatingEnabled => "mini_heating_enabled"
      case WinterModeEnabled => "winter_mode_enabled"
      case IsInputFanOn => "is_input_fan_on"
      case IsOutputFanOn => "is_output_fan_on"
      case Timestamp => "timestamp"
      case Speed => "speed"
      case Brightness => "brightness"
      case Sensors => "sensors"
      case Display => "display"
      case TimerOn => "timer_on"
      case Timer => "timer"
      case TemperatureIn => "temperature_in"
      case TemperatureOut => "temperature_out"
      case Humidity => "humidity"
      case Pressure => "pressure"
      case Voc => "voc"
      case Co2 => "co2"
    }
  }

  /** The six keys of `PranaSensorsState.to_dict`. */
  predicate IsSensorKey(k: Name) {
    k == TemperatureIn || k == TemperatureOut || k == Humidity || k == Pressure || k == Voc || k == Co2
  }

  /** The twenty keys of `PranaState.to_dict`: every other name. */
  const StateKeys: set<Name> := set k: Name | !IsSensorKey(k)

  const SensorKeys: set<Name> := set k: Name | IsSensorKey(k)

  /** The five state keys that `PranaCoordinator.__init__` does not create: the attributes
      boost_mode, auto_mode_plus, display, timer_on and timer only appear with the first merge. */
  predicate Late(k: Name) {
    k == BoostMode || k == AutoModePlus || k == Display || k == TimerOn || k == Timer
  }
}
