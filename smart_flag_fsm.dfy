/** The enum-indexed state machine (`FSMController` of fsm/SmartFlagFSM.h/.cpp)
    and the states `setupFSM` registers with it. A state's four callbacks
    become data: which of them are present, and the behaviour they share.
    Each registered behaviour owns a latch (the `static fsmNextState` of its
    defining function) that `onEnter` resets, `onUpdate` may set and
    `shouldAdvance` reports. What the callbacks read (the ordered and actual
    station, the lid) is an `Inputs` value; what they do outside the machine
    is appended to the `effects` log. */
module SmartFlagFSM {

  // ---------------------------------------------------------------------------
  // State ids

  /** `FSMStateID`. The enum lists NONE to FAULT_RECOVERY; the ids the state
      definitions use (IDLE_FULL, PENDING_FROM_FULL, PENDING_FROM_HALF,
      FIX_ME) are not declared in it and are added here, before STATE_MAX. */
  type StateID = int
  const STATE_NONE: StateID := 0
  const STATE_STARTUP: StateID := 1
  const STATE_ON_STATION: StateID := 2
  const STATE_CALIBRATION: StateID := 3
  const STATE_MOVING_TO_STATION: StateID := 4
  const STATE_LID_OPEN: StateID := 5
  const STATE_FAULT_RECOVERY: StateID := 6
  const STATE_IDLE_FULL: StateID := 7
  const STATE_PENDING_FROM_FULL: StateID := 8
  const STATE_PENDING_FROM_HALF: StateID := 9
  const STATE_FIX_ME: StateID := 10
  const STATE_MAX: StateID := 11

  predicate IsStateID(id: int) { 0 <= id < STATE_MAX }

  // ---------------------------------------------------------------------------
  // What the callbacks read and do

  /** The station the halyard reports and the one the scheduler ordered
      (their declarations are not part of this model). */
  datatype ActualStation = STATION_FULL | STATION_HALF | STATION_UNKNOWN
  datatype OrderedStation = ORDERED_FULL | ORDERED_HALF | ORDERED_UNKNOWN

  datatype Inputs = Inputs(actual: ActualStation, ordered: OrderedStation, lidClosed: bool)

  /** A callback run by the machine, or an effect a callback has. */
  datatype Effect =
    | Entered(id: StateID)
    | Updated(id: StateID)
    | Exited(id: StateID)
    | InvalidateStation
    | PlayPattern(pattern: string, freq: string)

  /** The shared behaviour of a registered state's callbacks; `Inert` is the
      default `FSMState` whose callbacks are all empty. */
  datatype Behaviour = Inert | Startup | Idle | LidOpen | FixMe

  /** A state: which callbacks are present, and their behaviour. */
  datatype FSMState = FSMState(onEnter: bool, onUpdate: bool, onExit: bool, shouldAdvance: bool,
                               behaviour: Behaviour)

  const EMPTY_STATE: FSMState := FSMState(false, false, false, false, Inert)

  /** The states `setupFSM` registers: every callback present. */
  function Defined(b: Behaviour): FSMState {
    FSMState(true, true, true, true, b)
  }

  /** The only ids a behaviour's `onUpdate` ever requests. */
  function Successors(b: Behaviour): set<StateID> {
    match b
    case Inert => {}
    case Startup => {STATE_IDLE_FULL}
    case Idle => {STATE_PENDING_FROM_FULL, STATE_PENDING_FROM_HALF}
    case LidOpen => {STATE_STARTUP}
    case FixMe => {}
  }

  /** The latch after a behaviour's `onUpdate`: startup always requests
      idle; idle requests a pending move when the actual and the ordered
      station disagree (FULL ordered HALF, or HALF ordered FULL) and
      otherwise leaves the latch; lid-open requests startup once the lid is
      closed; fix-me does nothing. */
  function UpdatedLatch(b: Behaviour, latch: StateID, inp: Inputs): (r: StateID)
    ensures r == latch || r in Successors(b)
  {
    match b
    case Inert => latch
    case Startup => STATE_IDLE_FULL
    case Idle =>
      if inp.actual == STATION_FULL && inp.ordered == ORDERED_HALF then STATE_PENDING_FROM_FULL
      else if inp.actual == STATION_HALF && inp.ordered == ORDERED_FULL then STATE_PENDING_FROM_HALF
      else latch
    case LidOpen => if inp.lidClosed then STATE_STARTUP else latch
    case FixMe => latch
  }

  /** The effects of a behaviour's `onEnter`, besides resetting its latch. */
  function EnterEffects(b: Behaviour): (r: seq<Effect>)
    ensures b == LidOpen <==> InvalidateStation in r
    ensures b == FixMe <==> PlayPattern("4444", "____") in r
    ensures |r| <= 1
  {
    match b
    case LidOpen => [InvalidateStation]
    case FixMe => [PlayPattern("4444", "____")]
    case _ => []
  }

  /** From a freshly entered state (latch NONE), one update of the idle
      state requests a move exactly when the stations disagree. */
  lemma IdleRequestsMoveOnMismatch(inp: Inputs)
    ensures UpdatedLatch(Idle, STATE_NONE, inp) == STATE_PENDING_FROM_FULL
            <==> inp.actual == STATION_FULL && inp.ordered == ORDERED_HALF
    ensures UpdatedLatch(Idle, STATE_NONE, inp) == STATE_PENDING_FROM_HALF
            <==> inp.actual == STATION_HALF && inp.ordered == ORDERED_FULL
    ensures UpdatedLatch(Idle, STATE_NONE, inp) == STATE_NONE
            <==> !(inp.actual == STATION_FULL && inp.ordered == ORDERED_HALF)
                 && !(inp.actual == STATION_HALF && inp.ordered == ORDERED_FULL)
  {
  }

  /** A latch that holds NONE or one of its behaviour's successors keeps
      doing so, whatever the inputs. */
  lemma LatchStaysInSuccessors(b: Behaviour, latch: StateID, inp: Inputs)
    requires latch == STATE_NONE || latch in Successors(b)
    ensures UpdatedLatch(b, latch, inp) == STATE_NONE || UpdatedLatch(b, latch, inp) in Successors(b)
  {
  }

  /** Every successor is a declared id other than NONE. */
  lemma SuccessorsAreStates(b: Behaviour)
    ensures forall s :: s in Successors(b) ==> STATE_NONE < s < STATE_MAX
  {
  }

  // ---------------------------------------------------------------------------
  // The controller's state as a value

  /** What the controller changes: the current id, the latch of each
      behaviour, and the log of callbacks run and their effects. */
  datatype Machine = Machine(current: StateID, latch: map<Behaviour, StateID>, effects: seq<Effect>)

  /** The current id indexes the table, and every latch holds NONE or one of
      its behaviour's successors. */
  ghost predicate WellFormed(m: Machine) {
    IsStateID(m.current)
    && (forall b :: b in m.latch)
    && (forall b :: m.latch[b] == STATE_NONE || m.latch[b] in Successors(b))
  }

  /** Running the `onEnter` of the state at `id`, if it has one: its latch is
      reset and its effects are logged. The current id is not touched. */
  function Entering(states: seq<FSMState>, m: Machine, id: StateID): (r: Machine)
    requires |states| == STATE_MAX && IsStateID(id) && WellFormed(m)
    ensures WellFormed(r) && r.current == m.current
    ensures !states[id].onEnter ==> r == m
    ensures states[id].onEnter ==> r.latch[states[id].behaviour] == STATE_NONE
    ensures forall b :: b != states[id].behaviour ==> r.latch[b] == m.latch[b]
    ensures m.effects <= r.effects
  {
    var st := states[id];
    if st.onEnter then
      Machine(m.current, m.latch[st.behaviour := STATE_NONE], m.effects + [Entered(id)] + EnterEffects(st.behaviour))
    else m
  }

  /** One `update` on the table `states` with inputs `inp`: NONE does
      nothing; otherwise the current state's `onUpdate` runs, and when its
      `shouldAdvance` reports an id other than NONE and other than the current
      one, the old state's `onExit` and then the new state's `onEnter` run and
      the new id becomes current. */
  function Step(states: seq<FSMState>, m: Machine, inp: Inputs): (r: Machine)
    requires |states| == STATE_MAX && WellFormed(m)
    ensures WellFormed(r)
    ensures m.current == STATE_NONE ==> r == m
    // a state with no callbacks (every id `setupFSM` leaves empty, among them
    // the pending states idle moves to) is a dead end
    ensures states[m.current] == EMPTY_STATE ==> r == m
    // at most one transition, and only to a successor of the old behaviour
    ensures r.current == m.current || r.current in Successors(states[m.current].behaviour)
    ensures states[m.current].behaviour in {Inert, FixMe} ==> r.current == m.current
    // the log only grows
    ensures m.effects <= r.effects
  {
    if m.current == STATE_NONE then m
    else
      var st := states[m.current];
      var b := st.behaviour;
      var m1 := if st.onUpdate then
                  Machine(m.current, m.latch[b := UpdatedLatch(b, m.latch[b], inp)], m.effects + [Updated(m.current)])
                else m;
      var next := m1.latch[b];
      if st.shouldAdvance && next != STATE_NONE && next != m.current then
        SuccessorsAreStates(b);
        var m2 := if st.onExit then Machine(m1.current, m1.latch, m1.effects + [Exited(m.current)]) else m1;
        var m3 := Entering(states, m2, next);
        Machine(next, m3.latch, m3.effects)
      else m1
  }

  /** Idle, freshly entered (latch NONE), stays idle while the stations
      agree: only its update is logged and the latch stays NONE. */
  lemma IdleWaitsWhileStationsAgree(states: seq<FSMState>, m: Machine, inp: Inputs)
    requires |states| == STATE_MAX && WellFormed(m)
    requires m.current == STATE_IDLE_FULL && states[STATE_IDLE_FULL] == Defined(Idle)
    requires m.latch[Idle] == STATE_NONE
    requires !(inp.actual == STATION_FULL && inp.ordered == ORDERED_HALF)
    requires !(inp.actual == STATION_HALF && inp.ordered == ORDERED_FULL)
    ensures Step(states, m, inp) == Machine(STATE_IDLE_FULL, m.latch, m.effects + [Updated(STATE_IDLE_FULL)])
  {
  }

  /** Idle, with the flag at FULL while HALF is ordered, leaves for
      PENDING_FROM_FULL in one update: its update and exit are logged, then
      the entry of whatever the table holds there. */
  lemma IdleLeavesOnMismatch(states: seq<FSMState>, m: Machine, inp: Inputs)
    requires |states| == STATE_MAX && WellFormed(m)
    requires m.current == STATE_IDLE_FULL && states[STATE_IDLE_FULL] == Defined(Idle)
    requires inp.actual == STATION_FULL && inp.ordered == ORDERED_HALF
    ensures var r := Step(states, m, inp);
            r.current == STATE_PENDING_FROM_FULL
            && r.effects[..|m.effects| + 2] == m.effects + [Updated(STATE_IDLE_FULL), Exited(STATE_IDLE_FULL)]
  {
  }

  /** Startup moves to idle on its first update, and idle is entered with
      its latch reset. */
  lemma StartupGoesToIdle(states: seq<FSMState>, m: Machine, inp: Inputs)
    requires |states| == STATE_MAX && WellFormed(m)
    requires m.current == STATE_STARTUP && states[STATE_STARTUP] == Defined(Startup)
    requires states[STATE_IDLE_FULL] == Defined(Idle)
    ensures var r := Step(states, m, inp);
            r.current == STATE_IDLE_FULL && r.latch[Idle] == STATE_NONE
            && r.latch[Startup] == STATE_IDLE_FULL
            && r.effects == m.effects + [Updated(STATE_STARTUP), Exited(STATE_STARTUP), Entered(STATE_IDLE_FULL)]
  {
  }

  /** Lid-open stays put while the lid is open, and moves to startup once it
      is closed, entering startup with its latch reset. */
  lemma LidOpenWaitsForLid(states: seq<FSMState>, m: Machine, inp: Inputs)
    requires |states| == STATE_MAX && WellFormed(m)
    requires m.current == STATE_LID_OPEN && states[STATE_LID_OPEN] == Defined(LidOpen)
    requires states[STATE_STARTUP] == Defined(Startup)
    requires m.latch[LidOpen] == STATE_NONE
    ensures var r := Step(states, m, inp);
            (!inp.lidClosed ==> r == Machine(STATE_LID_OPEN, m.latch, m.effects + [Updated(STATE_LID_OPEN)]))
            && (inp.lidClosed ==>
                  r.current == STATE_STARTUP && r.latch[Startup] == STATE_NONE
                  && r.effects == m.effects + [Updated(STATE_LID_OPEN), Exited(STATE_LID_OPEN), Entered(STATE_STARTUP)])
  {
  }

  // ---------------------------------------------------------------------------
  // The controller

  class FSMController {
    /** `_states[STATE_MAX]`. */
    const states: array<FSMState>
    /** `_current`. */
    var current: StateID
    /** The `fsmNextState` latch of each behaviour. */
    var latch: map<Behaviour, StateID>
    /** Callbacks run and their effects, in order. */
    var effects: seq<Effect>

    /** The controller's changing state as a value. */
    function Snapshot(): Machine
      reads this
    {
      Machine(current, latch, effects)
    }

    /** The table has STATE_MAX slots and the state is well formed. */
    ghost predicate Valid()
      reads this
    {
      states.Length == STATE_MAX && WellFormed(Snapshot())
    }

    /** A new controller: every slot holds the empty state, the current state
        is NONE. */
    constructor ()
      ensures Valid() && fresh(states)
      ensures states[..] == seq(STATE_MAX, _ => EMPTY_STATE)
      ensures current == STATE_NONE && effects == []
      ensures forall b :: latch[b] == STATE_NONE
    {
      states := new FSMState[STATE_MAX](_ => EMPTY_STATE);
      current := STATE_NONE;
      latch := map[Inert := STATE_NONE, Startup := STATE_NONE, Idle := STATE_NONE, LidOpen := STATE_NONE,
                   FixMe := STATE_NONE];
      effects := [];
      new;
      forall b: Behaviour ensures b in latch && latch[b] == STATE_NONE {
        match b
        case Inert =>
        case Startup =>
        case Idle =>
        case LidOpen =>
        case FixMe =>
      }
    }

    /** `addState`: store the state at an id strictly between NONE and MAX;
        ignore any other id. */
    method AddState(id: StateID, st: FSMState)
      requires Valid()
      modifies states
      ensures Valid()
      ensures STATE_NONE < id < STATE_MAX ==> states[..] == old(states[..])[id := st]
      ensures !(STATE_NONE < id < STATE_MAX) ==> states[..] == old(states[..])
    {
      if id > STATE_NONE && id < STATE_MAX {
        states[id] := st;
      }
    }

    /** Run the `onEnter` of the state at `id`, if it has one. */
    method Enter(id: StateID)
      requires Valid() && IsStateID(id)
      modifies this`latch, this`effects
      ensures Valid()
      ensures Snapshot() == Entering(states[..], old(Snapshot()), id)
    {
      var st := states[id];
      if st.onEnter {
        latch := latch[st.behaviour := STATE_NONE];
        effects := effects + [Entered(id)] + EnterEffects(st.behaviour);
      }
    }

    /** `begin`: make `initial` current and run its `onEnter`. */
    method Begin(initial: StateID)
      requires Valid() && IsStateID(initial)
      modifies this`current, this`latch, this`effects
      ensures Valid() && current == initial
      ensures !states[initial].onEnter ==> latch == old(latch) && effects == old(effects)
      ensures states[initial].onEnter ==>
                latch == old(latch)[states[initial].behaviour := STATE_NONE]
                && effects == old(effects) + [Entered(initial)] + EnterEffects(states[initial].behaviour)
    {
      current := initial;
      Enter(current);
    }

    /** `update`: one step of the machine on the registered table. */
    method Update(inp: Inputs)
      requires Valid()
      modifies this`current, this`latch, this`effects
      ensures Valid()
      ensures Snapshot() == Step(states[..], old(Snapshot()), inp)
    {
      if current == STATE_NONE || current >= STATE_MAX {
        return;
      }
      var st := states[current];
      if st.onUpdate {
        latch := latch[st.behaviour := UpdatedLatch(st.behaviour, latch[st.behaviour], inp)];
        effects := effects + [Updated(current)];
      }
      if st.shouldAdvance {
        var next := latch[st.behaviour];
        SuccessorsAreStates(st.behaviour);
        if next != STATE_NONE && next != current {
          if st.onExit {
            effects := effects + [Exited(current)];
          }
          Enter(next);
          current := next;
        }
      }
    }

    function CurrentState(): (r: StateID)
      reads this
      ensures r == current
    {
      current
    }
  }

  /** `setupFSM`: register startup, idle (under IDLE_FULL), lid-open and
      fix-me; every other slot is left as it was. */
  method SetupFSM(fsm: FSMController)
    requires fsm.Valid()
    modifies fsm.states
    ensures fsm.Valid()
    ensures fsm.states[..] == old(fsm.states[..])[STATE_STARTUP := Defined(Startup)]
                                                  [STATE_IDLE_FULL := Defined(Idle)]
                                                  [STATE_LID_OPEN := Defined(LidOpen)]
                                                  [STATE_FIX_ME := Defined(FixMe)]
  {
    fsm.AddState(STATE_STARTUP, Defined(Startup));
    fsm.AddState(STATE_IDLE_FULL, Defined(Idle));
    fsm.AddState(STATE_LID_OPEN, Defined(LidOpen));
    fsm.AddState(STATE_FIX_ME, Defined(FixMe));
  }
}
