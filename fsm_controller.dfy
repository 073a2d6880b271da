/** The name-keyed state machine (`FSMController` of fsm/FSMController.h/.cpp,
    the one the application's main loop drives). States live in a map keyed
    by name; the current state is a name or none; a state advances to its
    fixed `nextState`, and a missing successor stops the machine.

    The callbacks become data: a state's `onEnter` is the list of motor
    commands it issues, its `onUpdate` an `UpdateRule`, its `shouldAdvance`
    an `AdvanceRule` evaluated on the inputs of the call (the clock and the
    halyard sensor). Issued commands are appended to the `issued` log. */
module FSMControl {
  import opened Wrappers
  import opened Millis
  import opened Halyard

  /** What a callback asks of the halyard motor. */
  datatype Command =
    | SetTargetPosition(pos: Option<string>)
    | RunMotor(dir: Direction, durationMs: u32, speed: u8)
    | StopMotor
    | HandleSensorTriggered

  /** The arguments of a call of `HalyardManager::runMotor`. */
  datatype MotorArgs = MotorArgs(dir: Direction, durationMs: u32, speed: u8, rampTimeMs: u32)

  /** The call a `RunMotor` command stands for. No state passes a ramp time,
      so every run ramps over `runMotor`'s default, which is not zero: the
      motor always starts with a ramp. */
  function RunMotorArgs(c: Command): (a: MotorArgs)
    requires c.RunMotor?
    ensures a.dir == c.dir && a.durationMs == c.durationMs && a.speed == c.speed
    ensures a.rampTimeMs == DEFAULT_RAMP_MS && a.rampTimeMs > 0
  {
    MotorArgs(c.dir, c.durationMs, c.speed, DEFAULT_RAMP_MS)
  }

  /** `onUpdate`: nothing, or hand a triggered halyard sensor to the motor. */
  datatype UpdateRule = NoUpdate | StopOnSensor

  /** `shouldAdvance`: never; once more than `ms` have elapsed since the
      state was entered (unsigned subtraction); or that, or the halyard
      sensor triggered. */
  datatype AdvanceRule = Never | ElapsedOver(ms: u32) | SensorOrElapsedOver(ms: u32)

  datatype FSMState = FSMState(name: string, onEnter: seq<Command>, onUpdate: UpdateRule,
                               shouldAdvance: AdvanceRule, nextState: Option<string>)

  /** The commands an update issues. */
  function UpdateCommands(rule: UpdateRule, triggered: bool): (r: seq<Command>)
    ensures r != [] <==> rule == StopOnSensor && triggered
    ensures r != [] ==> r == [HandleSensorTriggered]
  {
    if rule == StopOnSensor && triggered then [HandleSensorTriggered] else []
  }

  /** Whether the rule asks to advance, at `now`, for a state entered at `start`. */
  predicate Advances(rule: AdvanceRule, now: u32, start: u32, triggered: bool) {
    match rule
    case Never => false
    case ElapsedOver(ms) => Elapsed(now, start) > ms
    case SensorOrElapsedOver(ms) => triggered || Elapsed(now, start) > ms
  }

  /** A timeout rule fires on the time elapsed since entry, across a wrap of
      the clock: entered at `start`, it has not fired `ms` later and has
      fired `ms + 1` later. */
  lemma TimeoutMeasuresFromEntry(ms: u32, start: u32, triggered: bool)
    requires ms + 1 < MOD32
    ensures !Advances(ElapsedOver(ms), Add32(start, ms), start, triggered)
    ensures Advances(ElapsedOver(ms), Add32(start, ms + 1), start, triggered)
    ensures Advances(SensorOrElapsedOver(ms), Add32(start, ms + 1), start, triggered)
  {
    ElapsedAfterAdd(start, ms);
    ElapsedAfterAdd(start, ms + 1);
  }

  // ---------------------------------------------------------------------------
  // The controller's run state and what each operation does to it

  /** The controller's variable state: current state name, entry time,
      active flag, and the commands issued so far. */
  datatype Run = Run(current: Option<string>, startTime: u32, active: bool, issued: seq<Command>)

  /** A current state is always a registered one, and only an active
      controller has one. */
  predicate Coherent(states: map<string, FSMState>, r: Run) {
    r.current.Some? ==> r.active && r.current.value in states
  }

  function Stopped(r: Run): (r': Run)
    ensures !r'.active && r'.current == None
    ensures r'.startTime == r.startTime && r'.issued == r.issued
  {
    r.(active := false, current := None)
  }

  /** `transitionTo`: an unknown name stops the controller; a known one
      becomes current, its entry time is now (also when it was already
      current) and its `onEnter` runs. */
  function Transitioned(states: map<string, FSMState>, r: Run, name: string, now: u32): (r': Run)
    ensures name !in states ==> r' == Stopped(r)
    ensures name in states ==> r'.current == Some(name) && r'.startTime == now && r'.active == r.active
                               && r'.issued == r.issued + states[name].onEnter
  {
    if name !in states then Stopped(r)
    else r.(current := Some(name), startTime := now, issued := r.issued + states[name].onEnter)
  }

  /** `start`: become active and transition to the named state. */
  function Started(states: map<string, FSMState>, r: Run, name: string, now: u32): (r': Run)
    ensures Coherent(states, r')
    ensures r'.active <==> name in states
  {
    Transitioned(states, r.(active := true), name, now)
  }

  /** `loop`: nothing when inactive or without a current state; otherwise run
      the current state's update, then, if it asks to advance, go to its
      successor or stop when it has none. */
  function Looped(states: map<string, FSMState>, r: Run, now: u32, triggered: bool): (r': Run)
    requires Coherent(states, r)
    ensures Coherent(states, r')
    // at most one transition: the state stays, or it is the successor, or the machine stops
    ensures r'.current == r.current
            || (r.current.Some? && r'.current == states[r.current.value].nextState)
            || r'.current == None
    ensures (!r.active || r.current.None?) ==> r' == r
    ensures r'.current != r.current ==>
              (r.current.Some? && Advances(states[r.current.value].shouldAdvance, now, r.startTime, triggered))
  {
    if !r.active || r.current.None? then r
    else
      var st := states[r.current.value];
      var r1 := r.(issued := r.issued + UpdateCommands(st.onUpdate, triggered));
      if Advances(st.shouldAdvance, now, r.startTime, triggered) then
        if st.nextState.Some? then Transitioned(states, r1, st.nextState.value, now) else Stopped(r1)
      else r1
  }

  /** A state whose rule never advances stays current whatever the inputs. */
  lemma NeverAdvancingStateStays(states: map<string, FSMState>, r: Run, now: u32, triggered: bool)
    requires Coherent(states, r) && r.current.Some? && states[r.current.value].shouldAdvance == Never
    ensures Looped(states, r, now, triggered).current == r.current
    ensures Looped(states, r, now, triggered).startTime == r.startTime
  {
  }

  /** Going back into the current state by name restarts its entry time. */
  lemma ReentryRestartsTimer(states: map<string, FSMState>, r: Run, now: u32)
    requires r.current.Some? && r.current.value in states
    ensures Transitioned(states, r, r.current.value, now).startTime == now
    ensures Transitioned(states, r, r.current.value, now).current == r.current
  {
  }

  // ---------------------------------------------------------------------------
  // The controller object

  class FSMController {
    var states: map<string, FSMState>
    var current: Option<string>
    var stateStartTime: u32
    var active: bool
    /** Commands the callbacks issued, in order. */
    var issued: seq<Command>

    function Snapshot(): Run
      reads this
    {
      Run(current, stateStartTime, active, issued)
    }

    ghost predicate Valid()
      reads this
    {
      Coherent(states, Snapshot())
    }

    /** A new controller: no states, inactive, no current state, entry time 0. */
    constructor ()
      ensures Valid()
      ensures states == map[] && current == None && stateStartTime == 0 && !active && issued == []
    {
      states := map[];
      current := None;
      stateStartTime := 0;
      active := false;
      issued := [];
    }

    /** `addState`: a state replaces any state of the same name. */
    method AddState(st: FSMState)
      requires Valid()
      modifies this`states
      ensures Valid()
      ensures states == old(states)[st.name := st]
    {
      states := states[st.name := st];
    }

    method Start(initialStateName: string, now: u32)
      requires Valid()
      modifies this`active, this`current, this`stateStartTime, this`issued
      ensures Valid()
      ensures Snapshot() == Started(states, old(Snapshot()), initialStateName, now)
    {
      active := true;
      TransitionTo(initialStateName, now);
    }

    method Stop()
      modifies this`active, this`current
      ensures Valid()
      ensures Snapshot() == Stopped(old(Snapshot()))
    {
      active := false;
      current := None;
    }

    function IsRunning(): (r: bool)
      reads this
      ensures r <==> active
    {
      active
    }

    function GetStateStartTime(): (r: u32)
      reads this
      ensures r == stateStartTime
    {
      stateStartTime
    }

    method Loop(now: u32, triggered: bool)
      requires Valid()
      modifies this`active, this`current, this`stateStartTime, this`issued
      ensures Valid()
      ensures Snapshot() == Looped(states, old(Snapshot()), now, triggered)
    {
      if !active || current.None? {
        return;
      }
      var st := states[current.value];
      issued := issued + UpdateCommands(st.onUpdate, triggered);
      if Advances(st.shouldAdvance, now, stateStartTime, triggered) {
        if st.nextState.Some? {
          TransitionTo(st.nextState.value, now);
        } else {
          Stop();
        }
      }
    }

    /** `transitionTo` (private: reached only from `start` and `loop`). */
    method TransitionTo(stateName: string, now: u32)
      modifies this`active, this`current, this`stateStartTime, this`issued
      ensures Snapshot() == Transitioned(states, old(Snapshot()), stateName, now)
    {
      if stateName !in states {
        Stop();
        return;
      }
      current := Some(stateName);
      stateStartTime := now;
      issued := issued + states[stateName].onEnter;
    }
  }
}
