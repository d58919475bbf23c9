/**
 * The OpenAir ventilation unit as a fan entity of the home-automation host.
 * The entity keeps three fields (the speed percentage, the preset mode and
 * the power state), updates them from messages on `prefix/<endpoint>` topics
 * and answers the host's commands by publishing payloads on those topics.
 */
module VakioFan {
  import opened Wrappers
  import opened Python
  import PercentageUtil

  /**
   * A Python value as it appears in a payload or a constant: the constants
   * of the integration are integers or strings. Python's `==` between two
   * values of different kinds is false, which the structural equality of
   * this datatype reproduces.
   */
  datatype Value = Int(i: int) | Str(s: string)

  /** One call of `async_publish`: a topic and a payload. */
  datatype Publication = Publication(topic: string, payload: Value)

  /**
   * The integration's constants (its `const` module is not part of this
   * model): endpoint names, the ordered speed list, the four gate values
   * and the device's tokens.
   */
  datatype Constants = Constants(
    stateEndpoint: string,
    speedEndpoint: string,
    gateEndpoint: string,
    workmodeEndpoint: string,
    speedList: seq<Value>,
    gateList: seq<Value>,
    speed00: Value,
    speed01: Value,
    stateOn: Value,
    stateOff: Value,
    workmodeManual: Value,
    workmodeSuperAuto: Value)
  {
    /**
     * What the fan relies on: a nonempty speed list without repetitions that
     * holds the first speed, and four gate values.
     */
    predicate Valid() {
      && |speedList| > 0
      && PercentageUtil.Distinct(speedList)
      && speed01 in speedList
      && |gateList| == 4
    }
  }

  const GATE_1: string := "Gate 1"
  const GATE_2: string := "Gate 2"
  const GATE_3: string := "Gate 3"
  const GATE_4: string := "Gate 4"
  const SUPER_AUTO: string := "Super Auto"

  /** The keys of the gate preset table, in its order; the value of key `i` is `gateList[i]`. */
  const GATE_PRESETS: seq<string> := [GATE_1, GATE_2, GATE_3, GATE_4]

  /** The preset modes the host offers. */
  const PRESET_MODES: seq<string> := GATE_PRESETS + [SUPER_AUTO]

  /** `set_preset_mode` either completes or raises `ValueError` for a mode it does not offer. */
  datatype Outcome = Done | UnknownMode(mode: string)

  /**
   * The percentage a speed message carrying the integer `k` leaves behind,
   * for a speed list of `n` items and the percentage `current` before it.
   * It is unknown exactly when the speed exceeds the list while a percentage
   * was known, and otherwise lies between 0 and 100.
   */
  function SpeedPercentage(n: nat, current: Option<int>, k: int): (r: Option<int>)
    ensures r == None <==> k > n && current.Some?
    ensures r.Some? ==> 0 <= r.value <= 100
  {
    if k > n && current.Some? then None
    else if k == 0 then Some(0)
    else if 1 <= k <= n then
      PercentageUtil.BoundInRange(n, k);
      Some(k * 100 / n)
    else if 1 - n <= k < 0 then
      PercentageUtil.BoundInRange(n, n + k);
      Some((n + k) * 100 / n)
    else Some(100)
  }

  /**
   * The percentage recorded for a speed the device reports, set back with
   * `SetPercentage`, publishes the same named speed (for a list of at most
   * 100 speeds without repetitions).
   */
  lemma SpeedEchoRoundTrip(list: seq<Value>, k: int)
    requires |list| <= 100 && PercentageUtil.Distinct(list)
    requires 1 <= k <= |list|
    ensures SpeedPercentage(|list|, None, k).Some?
    ensures PercentageUtil.PercentageToItem(list, SpeedPercentage(|list|, None, k).value) == list[k - 1]
  {
    PercentageUtil.PercentageAt(list, k - 1);
    PercentageUtil.PercentageRoundTrip(list, list[k - 1]);
  }

  /**
   * The percentage recorded when the device reports power on, set back with
   * `SetPercentage`, publishes the first speed, the one `TurnOn` publishes.
   */
  lemma StateOnEchoRoundTrip(consts: Constants)
    requires consts.Valid() && |consts.speedList| <= 100
    ensures PercentageUtil.PercentageToItem(consts.speedList,
      PercentageUtil.ItemToPercentage(consts.speedList, consts.speed01)) == consts.speed01
  {
    PercentageUtil.PercentageRoundTrip(consts.speedList, consts.speed01);
  }

  class OpenAirFan {
    const prefix: string
    const consts: Constants
    /** The preset modes given at construction; an empty list disables the check in `SetPresetMode`. */
    const presetModes: seq<string>

    var percentage: Option<int>
    var presetMode: Option<string>
    /** `None` until the first assignment: the entity's constructor leaves this field unset. */
    var state: Option<bool>
    /** Everything published so far, oldest first. */
    var outbox: seq<Publication>

    /** The preset is always unset or one of the offered preset modes. */
    ghost predicate Valid()
      reads this
    {
      consts.Valid() && (presetMode.None? || presetMode.value in PRESET_MODES)
    }

    /** The topic of an endpoint under this fan's prefix. */
    function Topic(endpoint: string): string {
      prefix + "/" + endpoint
    }

    constructor (prefix: string, consts: Constants, presetModes: seq<string>)
      requires consts.Valid()
      ensures Valid()
      ensures this.prefix == prefix && this.consts == consts && this.presetModes == presetModes
      ensures percentage == None && presetMode == None && state == None && outbox == []
    {
      this.prefix := prefix;
      this.consts := consts;
      this.presetModes := presetModes;
      percentage := None;
      presetMode := None;
      state := None;
      outbox := [];
    }

    /** `async_publish`: the message is appended to the outbox. */
    method Publish(endpoint: string, payload: Value)
      modifies this`outbox
      ensures outbox == old(outbox) + [Publication(Topic(endpoint), payload)]
    {
      outbox := outbox + [Publication(Topic(endpoint), payload)];
    }

    /**
     * `async_set_percentage`. In the super-auto work mode nothing happens;
     * otherwise the percentage is recorded, and either the zero speed is
     * published or the fan is switched on and the matching named speed
     * follows the first speed.
     */
    method SetPercentage(requested: int)
      requires Valid()
      modifies this`percentage, this`state, this`outbox
      ensures Valid()
      ensures old(presetMode) == Some(SUPER_AUTO) || consts.workmodeManual == consts.workmodeSuperAuto ==>
        percentage == old(percentage) && state == old(state) && outbox == old(outbox)
      ensures old(presetMode) != Some(SUPER_AUTO) && consts.workmodeManual != consts.workmodeSuperAuto ==>
        percentage == Some(requested) &&
        (requested == 0 ==>
          state == old(state) &&
          outbox == old(outbox) + [Publication(Topic(consts.speedEndpoint), consts.speed00)]) &&
        (requested != 0 ==>
          state == Some(true) &&
          outbox == old(outbox) + [
            Publication(Topic(consts.stateEndpoint), consts.stateOn),
            Publication(Topic(consts.speedEndpoint), consts.speed01),
            Publication(Topic(consts.speedEndpoint), PercentageUtil.PercentageToItem(consts.speedList, requested))])
    {
      var currentWorkmode := if presetMode == Some(SUPER_AUTO) then consts.workmodeSuperAuto else consts.workmodeManual;
      if currentWorkmode == consts.workmodeSuperAuto {
        return;
      }
      percentage := Some(requested);
      if requested == 0 {
        Publish(consts.speedEndpoint, consts.speed00);
        return;
      }
      TurnOn(None);
      var speed := PercentageUtil.PercentageToItem(consts.speedList, requested);
      Publish(consts.speedEndpoint, speed);
    }

    /**
     * `async_set_preset_mode`. A gate preset leaves the super-auto work mode
     * if that is the current preset, stops the fan unless the gate opens
     * fully or the percentage already equals the zero-speed constant, and
     * then moves the gate. Any other offered mode republishes the super-auto
     * work mode if that is already the current preset, and does nothing else.
     */
    method SetPresetMode(mode: string) returns (outcome: Outcome)
      requires Valid()
      modifies this`presetMode, this`outbox
      ensures Valid()
      ensures outcome == (if |presetModes| > 0 && mode !in presetModes then UnknownMode(mode) else Done)
      ensures outcome.UnknownMode? ==> presetMode == old(presetMode) && outbox == old(outbox)
      ensures outcome.Done? && mode in GATE_PRESETS ==>
        presetMode == Some(mode) &&
        outbox == old(outbox)
          + (if old(presetMode) == Some(SUPER_AUTO)
             then [Publication(Topic(consts.workmodeEndpoint), consts.workmodeManual)] else [])
          + (if mode != GATE_4 && (percentage.None? || Int(percentage.value) != consts.speed00)
             then [Publication(Topic(consts.speedEndpoint), consts.speed00)] else [])
          + [Publication(Topic(consts.gateEndpoint), consts.gateList[Index(GATE_PRESETS, mode)])]
      ensures outcome.Done? && mode !in GATE_PRESETS ==>
        presetMode == old(presetMode) &&
        outbox == old(outbox)
          + (if old(presetMode) == Some(SUPER_AUTO)
             then [Publication(Topic(consts.workmodeEndpoint), consts.workmodeSuperAuto)] else [])
    {
      if |presetModes| > 0 && mode !in presetModes {
        return UnknownMode(mode);
      }
      outcome := Done;
      if mode in GATE_PRESETS {
        if presetMode == Some(SUPER_AUTO) {
          Publish(consts.workmodeEndpoint, consts.workmodeManual);
        }
        if mode != GATE_4 && (percentage.None? || Int(percentage.value) != consts.speed00) {
          Publish(consts.speedEndpoint, consts.speed00);
        }
        Publish(consts.gateEndpoint, consts.gateList[Index(GATE_PRESETS, mode)]);
        presetMode := Some(mode);
        return;
      }
      if presetMode == Some(SUPER_AUTO) {
        Publish(consts.workmodeEndpoint, consts.workmodeSuperAuto);
      }
    }

    /**
     * `async_turn_on`: power on first, then one speed, the named speed for the
     * requested percentage or the first speed. The percentage is not recorded.
     */
    method TurnOn(requested: Option<int>)
      requires Valid()
      modifies this`state, this`outbox
      ensures Valid()
      ensures state == Some(true) && percentage == old(percentage) && presetMode == old(presetMode)
      ensures outbox == old(outbox) + [
        Publication(Topic(consts.stateEndpoint), consts.stateOn),
        Publication(Topic(consts.speedEndpoint),
          match requested
          case None => consts.speed01
          case Some(p) => PercentageUtil.PercentageToItem(consts.speedList, p))]
    {
      Publish(consts.stateEndpoint, consts.stateOn);
      var newSpeed := consts.speed01;
      if requested.Some? {
        newSpeed := PercentageUtil.PercentageToItem(consts.speedList, requested.value);
      }
      state := Some(true);
      Publish(consts.speedEndpoint, newSpeed);
    }

    /** `async_turn_off`: power off is the only message; the percentage drops to 0. */
    method TurnOff()
      requires Valid()
      modifies this`state, this`percentage, this`outbox
      ensures Valid()
      ensures state == Some(false) && percentage == Some(0) && presetMode == old(presetMode)
      ensures outbox == old(outbox) + [Publication(Topic(consts.stateEndpoint), consts.stateOff)]
    {
      Publish(consts.stateEndpoint, consts.stateOff);
      state := Some(false);
      percentage := Some(0);
    }

    /** A message on the state topic: "on" in any case powers on at the first speed, anything else is off. */
    method HandleStateMessage(payload: string)
      requires Valid()
      modifies this`state, this`percentage
      ensures Valid()
      ensures state == Some(Lower(payload) == "on")
      ensures percentage == if Lower(payload) == "on"
        then Some(PercentageUtil.ItemToPercentage(consts.speedList, consts.speed01)) else Some(0)
      ensures presetMode == old(presetMode) && outbox == old(outbox)
    {
      var on := Lower(payload) == "on";
      state := Some(on);
      if !on {
        percentage := Some(0);
      } else {
        percentage := Some(PercentageUtil.ItemToPercentage(consts.speedList, consts.speed01));
      }
    }

    /**
     * A message on the speed topic, for a speed list of `n` items: speed `k`
     * in `1..n` stands for `k * 100 // n` percent and 0 for 0 percent; a
     * negative speed down to `1 - n` indexes the list from its end; a speed
     * above `n` clears a known percentage; every other speed that the list
     * cannot index sets 100 percent. A payload that does not parse changes
     * nothing.
     */
    method HandleSpeedMessage(payload: string)
      requires Valid()
      modifies this`percentage
      ensures Valid()
      ensures presetMode == old(presetMode) && state == old(state) && outbox == old(outbox)
      ensures ParseInt(payload).None? ==> percentage == old(percentage)
      ensures ParseInt(payload).Some? ==>
        percentage == SpeedPercentage(|consts.speedList|, old(percentage), ParseInt(payload).value)
    {
      var parsed := ParseInt(payload);
      if parsed.None? {
        // `int()` raised ValueError: the error is logged.
        return;
      }
      var speed := parsed.value;
      if speed > |consts.speedList| && percentage.Some? {
        percentage := None;
        return;
      }
      // The handler's `speed is None or speed is False` test cannot hold for the result of `int()`.
      if speed == 0 {
        percentage := Some(0);
        return;
      }
      speed := speed - 1;
      var namedSpeed := At(consts.speedList, speed);
      if namedSpeed.None? {
        // IndexError
        percentage := Some(100);
        return;
      }
      ghost var n := |consts.speedList|;
      ghost var i := speed % n;
      assert 1 <= parsed.value <= n ==> i + 1 == parsed.value;
      assert 1 - n <= parsed.value < 0 ==> i + 1 == n + parsed.value;
      PercentageUtil.PercentageAt(consts.speedList, i);
      var newPercentage := PercentageUtil.ItemToPercentage(consts.speedList, namedSpeed.value);
      assert newPercentage == SpeedPercentage(n, old(percentage), parsed.value).value;
      if percentage != Some(newPercentage) {
        percentage := Some(newPercentage);
      }
    }

    /**
     * A message on the gate topic: any gate other than 4 stops the fan, and
     * the preset becomes the first gate preset whose value is the payload,
     * if there is one. A payload that does not parse changes nothing.
     */
    method HandleGateMessage(payload: string)
      requires Valid()
      modifies this`percentage, this`presetMode
      ensures Valid()
      ensures state == old(state) && outbox == old(outbox)
      ensures ParseInt(payload).None? ==> percentage == old(percentage) && presetMode == old(presetMode)
      ensures ParseInt(payload).Some? ==>
        var g := ParseInt(payload).value;
        && percentage == (if g != 4 then Some(0) else old(percentage))
        && presetMode == (if Int(g) in consts.gateList
                          then Some(GATE_PRESETS[Index(consts.gateList, Int(g))])
                          else old(presetMode))
    {
      var parsed := ParseInt(payload);
      if parsed.None? {
        // `int()` raised ValueError: the error is logged.
        return;
      }
      var gateValue := parsed.value;
      if gateValue != 4 {
        percentage := Some(0);
      }
      var i := 0;
      while i < |GATE_PRESETS|
        invariant 0 <= i <= |GATE_PRESETS|
        invariant forall j :: 0 <= j < i ==> consts.gateList[j] != Int(gateValue)
        invariant presetMode == old(presetMode)
        invariant percentage == (if gateValue != 4 then Some(0) else old(percentage))
      {
        if consts.gateList[i] == Int(gateValue) {
          presetMode := Some(GATE_PRESETS[i]);
          break;
        }
        i := i + 1;
      }
    }

    /** A message on the work-mode topic: the super-auto token, in any case, selects the super-auto preset. */
    method HandleWorkmodeMessage(payload: string)
      requires Valid()
      modifies this`presetMode
      ensures Valid()
      ensures presetMode == if Str(Lower(payload)) == consts.workmodeSuperAuto then Some(SUPER_AUTO) else old(presetMode)
      ensures percentage == old(percentage) && state == old(state) && outbox == old(outbox)
    {
      var workmodeValue := Lower(payload);
      if Str(workmodeValue) == consts.workmodeSuperAuto {
        presetMode := Some(SUPER_AUTO);
      }
    }
  }
}
