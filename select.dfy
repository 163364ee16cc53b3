/** The select entities: the `DISPLAYS` and `PRANA_TIMERS` tables and their reverse lookups. */
module Select {
  import opened Wrappers
  import Const

  /** The keys of a dict literal given as its entries, in declaration order: `list(d.keys())`. */
  function Keys<K, V>(t: seq<(K, V)>): seq<K> {
    seq(|t|, i requires 0 <= i < |t| => t[i].0)
  }

  /** `d[k]` on the dict the entries build: the last entry with key `k` wins, and `None`
      stands for KeyError. */
  function Lookup<K(==), V>(t: seq<(K, V)>, k: K): Option<V> {
    if t == [] then None
    else if t[|t| - 1].0 == k then Some(t[|t| - 1].1)
    else Lookup(t[..|t| - 1], k)
  }

  /** The entries of `dict(zip(d.values(), d.keys()))`. */
  function Swapped<K, V>(t: seq<(K, V)>): seq<(V, K)> {
    seq(|t|, i requires 0 <= i < |t| => (t[i].1, t[i].0))
  }

  predicate DistinctKeys<K(==), V>(t: seq<(K, V)>) {
    forall i, j :: 0 <= i < j < |t| ==> t[i].0 != t[j].0
  }

  /** With distinct keys every entry is found under its own key, and a key no entry has
      raises KeyError. */
  lemma {:induction false} LookupSpec<K, V>(t: seq<(K, V)>, k: K)
    requires DistinctKeys(t)
    ensures forall i :: 0 <= i < |t| ==> Lookup(t, t[i].0) == Some(t[i].1)
    ensures Lookup(t, k).None? <==> k !in Keys(t)
  {
    if t != [] {
      var p := t[..|t| - 1];
      assert DistinctKeys(p);
      LookupSpec(p, k);
      assert Keys(t) == Keys(p) + [t[|t| - 1].0];
      forall i | 0 <= i < |t|
        ensures Lookup(t, t[i].0) == Some(t[i].1)
      {
        if i < |t| - 1 {
          assert t[i].0 != t[|t| - 1].0;
          assert p[i] == t[i];
        }
      }
    }
  }

  /** `DISPLAYS`. */
  const Displays: seq<(string, Const.Display)> := [
    ("FAN", Const.Fan),
    ("TEMPERATURE IN", Const.TemperatureIn),
    ("TEMPERATURE OUT", Const.TemperatureOut),
    ("CO2", Const.Co2),
    ("VOC", Const.Voc),
    ("HUMIDITY", Const.Humidity),
    ("QUALITY_FAN", Const.QualityFan),
    ("PRESURE", Const.Presure),
    ("FAN_2", Const.Fan2),
    ("DATE", Const.Date),
    ("TIME", Const.Time)]

  /** `PRANA_TIMERS`. */
  const PranaTimers: seq<(string, Const.PranaTimer)> := [
    ("STOP", Const.Stop),
    ("RUN", Const.Run),
    ("10M", Const.Run10m),
    ("20M", Const.Run20m),
    ("30M", Const.Run30m),
    ("1H", Const.Run1h),
    ("1H30M", Const.Run1h30m),
    ("2H", Const.Run2h),
    ("3H", Const.Run3h),
    ("5H", Const.Run5h),
    ("9H", Const.Run9h)]

  /** The eleven display names are distinct: no two share both length and first letter. */
  lemma DisplayNamesDistinct()
    ensures DistinctKeys(Displays)
  {
    forall i, j | 0 <= i < j < |Displays|
      ensures Displays[i].0 != Displays[j].0
    {
      assert |Displays[i].0| != |Displays[j].0| || Displays[i].0[0] != Displays[j].0[0];
    }
  }

  /** `DISPLAYS` is a bijection: its names are distinct, entry `i` holds the member whose
      value is `i`, so the members are distinct and every member is named. */
  lemma DisplaysBijective(d: Const.Display)
    ensures |Displays| == 11 && DistinctKeys(Displays) && DistinctKeys(Swapped(Displays))
    ensures exists i :: 0 <= i < |Displays| && Displays[i].1 == d
  {
    DisplayNamesDistinct();
    assert forall i :: 0 <= i < |Displays| ==> Displays[i].1.Value() == i;
    assert Displays[d.Value()].1 == d;
  }

  /** The eleven timer names are distinct: no two share both length and first character. */
  lemma TimerNamesDistinct()
    ensures DistinctKeys(PranaTimers)
  {
    forall i, j | 0 <= i < j < |PranaTimers|
      ensures PranaTimers[i].0 != PranaTimers[j].0
    {
      assert |PranaTimers[i].0| != |PranaTimers[j].0| || PranaTimers[i].0[0] != PranaTimers[j].0[0];
    }
  }

  /** `PRANA_TIMERS` is a bijection in the same way. */
  lemma TimersBijective(t: Const.PranaTimer)
    ensures |PranaTimers| == 11 && DistinctKeys(PranaTimers) && DistinctKeys(Swapped(PranaTimers))
    ensures exists i :: 0 <= i < |PranaTimers| && PranaTimers[i].1 == t
  {
    TimerNamesDistinct();
    assert forall i :: 0 <= i < |PranaTimers| ==> PranaTimers[i].1.Value() == i;
    assert PranaTimers[t.Value()].1 == t;
  }

  /** `PranaDisplaySelect.options`. */
  function DisplayOptions(): seq<string> {
    Keys(Displays)
  }

  /** `PranaTimerSelect.options`. */
  function TimerOptions(): seq<string> {
    Keys(PranaTimers)
  }

  /** `DISPLAYS[option]`. */
  function DisplayOf(option: string): Result<Const.Display, PyError> {
    match Lookup(Displays, option)
    case Some(d) => Ok(d)
    case None => Err(KeyError)
  }

  /** `PRANA_TIMERS[option]`. */
  function TimerOf(option: string): Result<Const.PranaTimer, PyError> {
    match Lookup(PranaTimers, option)
    case Some(t) => Ok(t)
    case None => Err(KeyError)
  }

  /** `PranaDisplaySelect.get_option_name`: None for None, else the name of the member. */
  function DisplayOptionName(display: Option<Const.Display>): Result<Option<string>, PyError> {
    match display
    case None => Ok(None)
    case Some(d) =>
      match Lookup(Swapped(Displays), d)
      case Some(name) => Ok(Some(name))
      case None => Err(KeyError)
  }

  /** `PranaTimerSelect.get_option_name`: the name of RUN when `timer_on` is truthy, else
      the name of STOP. */
  function TimerOptionName(timerOn: Const.Value): Result<string, PyError> {
    match Lookup(Swapped(PranaTimers), if Const.Truthy(timerOn) then Const.Run else Const.Stop)
    case Some(name) => Ok(name)
    case None => Err(KeyError)
  }

  /** The display options are the table's names in declaration order. */
  lemma DisplayOptionsOrder()
    ensures DisplayOptions() == ["FAN", "TEMPERATURE IN", "TEMPERATURE OUT", "CO2", "VOC",
      "HUMIDITY", "QUALITY_FAN", "PRESURE", "FAN_2", "DATE", "TIME"]
  {
  }

  /** Selecting a name outside the options raises KeyError; a name in them selects a member
      whose option name is that name again. */
  lemma DisplayNameLookup(option: string)
    ensures DisplayOf(option).Err? <==> option !in DisplayOptions()
    ensures DisplayOf(option).Ok? ==> DisplayOptionName(Some(DisplayOf(option).value)) == Ok(Some(option))
  {
    DisplaysBijective(Const.Fan);
    LookupSpec(Displays, option);
    if DisplayOf(option).Ok? {
      var s := Swapped(Displays);
      var i :| 0 <= i < |Displays| && Displays[i].0 == option;
      assert s[i] == (Displays[i].1, Displays[i].0);
      LookupSpec(s, Displays[i].1);
    }
  }

  /** Every member, and None, has an option name, and selecting that name gives the member back. */
  lemma DisplayMemberName(d: Const.Display)
    ensures DisplayOptionName(Some(d)).Ok? && DisplayOptionName(Some(d)).value.Some?
    ensures DisplayOf(DisplayOptionName(Some(d)).value.value) == Ok(d)
    ensures DisplayOptionName(None) == Ok(None)
  {
    DisplaysBijective(d);
    var s := Swapped(Displays);
    LookupSpec(s, d);
    var i :| 0 <= i < |Displays| && Displays[i].1 == d;
    assert s[i] == (d, Displays[i].0);
    LookupSpec(Displays, Displays[i].0);
  }

  /** The timer options are the table's names in declaration order. */
  lemma TimerOptionsOrder()
    ensures TimerOptions() == ["STOP", "RUN", "10M", "20M", "30M", "1H", "1H30M", "2H", "3H", "5H", "9H"]
  {
  }

  /** Selecting a name outside the timer options raises KeyError; a name in them selects a
      member whose name in the reversed table is that name again. */
  lemma TimerNameLookup(option: string)
    ensures TimerOf(option).Err? <==> option !in TimerOptions()
    ensures TimerOf(option).Ok? ==>
      Lookup(Swapped(PranaTimers), TimerOf(option).value) == Some(option)
  {
    TimersBijective(Const.Stop);
    LookupSpec(PranaTimers, option);
    if TimerOf(option).Ok? {
      var s := Swapped(PranaTimers);
      var i :| 0 <= i < |PranaTimers| && PranaTimers[i].0 == option;
      assert s[i] == (PranaTimers[i].1, PranaTimers[i].0);
      LookupSpec(s, PranaTimers[i].1);
    }
  }

  /** Every timer member has a name in the reversed table, and selecting it gives the member back. */
  lemma TimerMemberName(t: Const.PranaTimer)
    ensures Lookup(Swapped(PranaTimers), t).Some?
    ensures TimerOf(Lookup(Swapped(PranaTimers), t).value) == Ok(t)
  {
    TimersBijective(t);
    var s := Swapped(PranaTimers);
    LookupSpec(s, t);
    var i :| 0 <= i < |PranaTimers| && PranaTimers[i].1 == t;
    assert s[i] == (t, PranaTimers[i].0);
    LookupSpec(PranaTimers, PranaTimers[i].0);
  }

  /** The timer select only ever shows "RUN" or "STOP", never a duration. */
  lemma TimerShown(timerOn: Const.Value)
    ensures TimerOptionName(timerOn) == Ok(if Const.Truthy(timerOn) then "RUN" else "STOP")
  {
    TimersBijective(Const.Stop);
    var s := Swapped(PranaTimers);
    LookupSpec(s, Const.Stop);
    assert s[0] == (Const.Stop, "STOP") && s[1] == (Const.Run, "RUN");
  }
}
