/** Fixed motor sequences for the name-keyed controller (`HalyardSequences`,
    HalyardSequences.cpp): lowering (run clockwise for three seconds, then
    stop) and the bench test (clockwise, pause, counter-clockwise, done). */
module HalyardSequences {
  import opened Wrappers
  import opened Millis
  import opened Halyard
  import opened FSMControl

  const LOWERING_START: FSMState :=
    FSMState("START", [RunMotor(CW, 0, 255)], NoUpdate, ElapsedOver(3000), Some("STOP"))
  const LOWERING_STOP: FSMState :=
    FSMState("STOP", [StopMotor], NoUpdate, Never, None)

  const TEST_CW: FSMState :=
    FSMState("CW", [RunMotor(CW, 0, 200)], NoUpdate, ElapsedOver(1000), Some("PAUSE"))
  const TEST_PAUSE: FSMState :=
    FSMState("PAUSE", [StopMotor], NoUpdate, ElapsedOver(500), Some("CCW"))
  const TEST_CCW: FSMState :=
    FSMState("CCW", [RunMotor(CCW, 0, 200)], NoUpdate, ElapsedOver(1000), Some("DONE"))
  const TEST_DONE: FSMState :=
    FSMState("DONE", [StopMotor], NoUpdate, Never, None)

  /** The states of the lowering sequence are registered under their names. */
  predicate HasLowering(states: map<string, FSMState>) {
    "START" in states && states["START"] == LOWERING_START
    && "STOP" in states && states["STOP"] == LOWERING_STOP
  }

  /** The states of the test sequence are registered under their names. */
  predicate HasTest(states: map<string, FSMState>) {
    "CW" in states && states["CW"] == TEST_CW
    && "PAUSE" in states && states["PAUSE"] == TEST_PAUSE
    && "CCW" in states && states["CCW"] == TEST_CCW
    && "DONE" in states && states["DONE"] == TEST_DONE
  }

  /** `buildLoweringSequence`: registers START and STOP, leaving other states
      and the run untouched. */
  method BuildLoweringSequence(fsm: FSMController)
    requires fsm.Valid()
    modifies fsm
    ensures fsm.Valid()
    ensures HasLowering(fsm.states)
    ensures fsm.states == old(fsm.states)["START" := LOWERING_START]["STOP" := LOWERING_STOP]
    ensures fsm.Snapshot() == old(fsm.Snapshot())
  {
    fsm.AddState(LOWERING_START);
    fsm.AddState(LOWERING_STOP);
  }

  /** `buildTestSequence`: registers CW, PAUSE, CCW and DONE. */
  method BuildTestSequence(fsm: FSMController)
    requires fsm.Valid()
    modifies fsm
    ensures fsm.Valid()
    ensures HasTest(fsm.states)
    ensures fsm.states == old(fsm.states)["CW" := TEST_CW]["PAUSE" := TEST_PAUSE]
                                         ["CCW" := TEST_CCW]["DONE" := TEST_DONE]
    ensures fsm.Snapshot() == old(fsm.Snapshot())
  {
    fsm.AddState(TEST_CW);
    fsm.AddState(TEST_PAUSE);
    fsm.AddState(TEST_CCW);
    fsm.AddState(TEST_DONE);
  }

  /** One loop in a registered state that advances on a timeout alone: before
      the timeout nothing changes; after it the successor is current, entered
      now, and exactly its entry commands were issued. */
  lemma TimedStep(states: map<string, FSMState>, r: Run, now: u32, triggered: bool)
    requires Coherent(states, r) && r.active && r.current.Some?
    requires states[r.current.value].onUpdate == NoUpdate
    requires states[r.current.value].shouldAdvance.ElapsedOver?
    requires states[r.current.value].nextState.Some?
    requires states[r.current.value].nextState.value in states
    ensures var st := states[r.current.value];
            var r' := Looped(states, r, now, triggered);
            if Elapsed(now, r.startTime) > st.shouldAdvance.ms
            then r'.current == st.nextState && r'.startTime == now && r'.active
                 && r'.issued == r.issued + states[st.nextState.value].onEnter
            else r' == r
  {
    var st := states[r.current.value];
    assert UpdateCommands(st.onUpdate, triggered) == [];
    assert r.issued + [] == r.issued;
  }

  /** Lowering: started in START at `t0`, the motor runs clockwise at full
      speed; the first loop more than 3000 ms later moves to STOP and stops
      the motor, and from then on the controller stays in STOP. */
  lemma {:induction false} LoweringRunsThenStops(states: map<string, FSMState>, r0: Run, t0: u32, t1: u32,
                                                 later: u32, triggered: bool)
    requires HasLowering(states)
    requires Elapsed(t1, t0) > 3000
    ensures var r1 := Started(states, r0, "START", t0);
            var r2 := Looped(states, r1, t1, triggered);
            r1.issued == r0.issued + [RunMotor(CW, 0, 255)]
            && r2.current == Some("STOP") && r2.active
            && r2.issued == r0.issued + [RunMotor(CW, 0, 255), StopMotor]
            && Looped(states, r2, later, triggered) == r2
  {
    var r1 := Started(states, r0, "START", t0);
    TimedStep(states, r1, t1, triggered);
    var r2 := Looped(states, r1, t1, triggered);
    assert r2.issued == r0.issued + [RunMotor(CW, 0, 255)] + [StopMotor];
  }

  /** The test sequence visits CW, PAUSE, CCW and DONE in that order, one
      state per expired timeout, issuing clockwise run, stop,
      counter-clockwise run and stop; DONE is final. */
  lemma {:induction false} TestSequenceOrder(states: map<string, FSMState>, r0: Run,
                                             t0: u32, t1: u32, t2: u32, t3: u32, later: u32, triggered: bool)
    requires HasTest(states)
    requires Elapsed(t1, t0) > 1000 && Elapsed(t2, t1) > 500 && Elapsed(t3, t2) > 1000
    ensures var r1 := Started(states, r0, "CW", t0);
            var r2 := Looped(states, r1, t1, triggered);
            var r3 := Looped(states, r2, t2, triggered);
            var r4 := Looped(states, r3, t3, triggered);
            r1.current == Some("CW") && r2.current == Some("PAUSE")
            && r3.current == Some("CCW") && r4.current == Some("DONE") && r4.active
            && r4.issued == r0.issued + [RunMotor(CW, 0, 200), StopMotor, RunMotor(CCW, 0, 200), StopMotor]
            && Looped(states, r4, later, triggered) == r4
  {
    var r1 := Started(states, r0, "CW", t0);
    TimedStep(states, r1, t1, triggered);
    var r2 := Looped(states, r1, t1, triggered);
    TimedStep(states, r2, t2, triggered);
    var r3 := Looped(states, r2, t2, triggered);
    TimedStep(states, r3, t3, triggered);
    var r4 := Looped(states, r3, t3, triggered);
    assert r4.issued == r0.issued + [RunMotor(CW, 0, 200)] + [StopMotor] + [RunMotor(CCW, 0, 200)] + [StopMotor];
  }

  /** No test state is cut short: a loop before its timeout leaves the run as it is. */
  lemma TestStatesWaitForTimeout(states: map<string, FSMState>, r: Run, now: u32, triggered: bool)
    requires HasTest(states) && Coherent(states, r) && r.active
    requires r.current == Some("CW") || r.current == Some("PAUSE") || r.current == Some("CCW")
    requires Elapsed(now, r.startTime) <= 500
    ensures Looped(states, r, now, triggered) == r
  {
    TimedStep(states, r, now, triggered);
  }
}
