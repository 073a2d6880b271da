/** Reusable states for the name-keyed controller (`FSMStates`,
    fsm/FSMStates.cpp): drive the halyard until its sensor triggers or a
    timeout passes, and the terminal error state. */
module FSMStates {
  import opened Wrappers
  import opened Millis
  import opened Halyard
  import opened FSMControl

  /** The state `motorToSensorStop` registers: on entry set the target
      position and run the motor in `dir` (duration 0, full speed); on each
      update pass a triggered sensor to the motor; advance to `nextState`
      when the sensor is triggered or more than `timeoutMs` have passed
      since entry. */
  function MotorToSensorStopState(stateName: string, dir: Direction, targetPosition: Option<string>,
                                  timeoutMs: u32, nextState: Option<string>): (st: FSMState)
    ensures st.name == stateName && st.nextState == nextState
  {
    FSMState(stateName, [SetTargetPosition(targetPosition), RunMotor(dir, 0, 255)],
             StopOnSensor, SensorOrElapsedOver(timeoutMs), nextState)
  }

  /** The state `buildErrorState` registers: stop the motor on entry, do
      nothing on update, never advance, no successor. */
  function ErrorState(stateName: string): (st: FSMState)
    ensures st.name == stateName && st.nextState == None
  {
    FSMState(stateName, [StopMotor], NoUpdate, Never, None)
  }

  /** The default name of the error state. */
  const HALYARD_ERROR: string := "HALYARD_ERROR"

  method MotorToSensorStop(fsm: FSMController, stateName: string, dir: Direction,
                           targetPosition: Option<string>, timeoutMs: u32, nextState: Option<string>)
    requires fsm.Valid()
    modifies fsm
    ensures fsm.Valid()
    ensures fsm.states == old(fsm.states)[stateName := MotorToSensorStopState(stateName, dir, targetPosition,
                                                                              timeoutMs, nextState)]
    ensures fsm.Snapshot() == old(fsm.Snapshot())
  {
    fsm.AddState(MotorToSensorStopState(stateName, dir, targetPosition, timeoutMs, nextState));
  }

  method BuildErrorState(fsm: FSMController, stateName: string)
    requires fsm.Valid()
    modifies fsm
    ensures fsm.Valid()
    ensures fsm.states == old(fsm.states)[stateName := ErrorState(stateName)]
    ensures fsm.Snapshot() == old(fsm.Snapshot())
  {
    fsm.AddState(ErrorState(stateName));
  }

  /** Entering a drive-to-sensor state sets the target before running the motor. */
  lemma EnteringDriveSetsTargetThenRuns(states: map<string, FSMState>, r: Run, stateName: string,
                                        dir: Direction, target: Option<string>, timeoutMs: u32,
                                        next: Option<string>, now: u32)
    requires stateName in states
    requires states[stateName] == MotorToSensorStopState(stateName, dir, target, timeoutMs, next)
    ensures Transitioned(states, r, stateName, now).issued
            == r.issued + [SetTargetPosition(target), RunMotor(dir, 0, 255)]
  {
  }

  /** One loop in a drive-to-sensor state: a triggered sensor is handed to
      the motor first; the state is left exactly when the sensor is
      triggered or the timeout has passed; leaving on the timeout alone
      issues nothing but the successor's entry commands, so it does not by
      itself stop the motor. */
  lemma DriveToSensorStep(states: map<string, FSMState>, r: Run, dir: Direction, target: Option<string>,
                          timeoutMs: u32, next: string, now: u32, triggered: bool)
    requires Coherent(states, r) && r.active && r.current.Some?
    requires states[r.current.value]
             == MotorToSensorStopState(r.current.value, dir, target, timeoutMs, Some(next))
    requires next in states
    ensures var r' := Looped(states, r, now, triggered);
            (triggered || Elapsed(now, r.startTime) > timeoutMs) ==> r'.current == Some(next) && r'.startTime == now
    ensures var r' := Looped(states, r, now, triggered);
            !(triggered || Elapsed(now, r.startTime) > timeoutMs) ==>
              r'.current == r.current && r'.startTime == r.startTime && r'.issued == r.issued
    ensures var r' := Looped(states, r, now, triggered);
            triggered ==> r'.issued == r.issued + [HandleSensorTriggered] + states[next].onEnter
    ensures var r' := Looped(states, r, now, triggered);
            !triggered && Elapsed(now, r.startTime) > timeoutMs ==> r'.issued == r.issued + states[next].onEnter
  {
  }

  /** The error state, once entered, stops the motor and then stays current
      forever without issuing anything more. */
  lemma ErrorStateIsTerminal(states: map<string, FSMState>, r: Run, stateName: string, now: u32,
                             later: u32, triggered: bool)
    requires stateName in states && states[stateName] == ErrorState(stateName)
    requires r.active
    ensures var r1 := Transitioned(states, r, stateName, now);
            r1.issued == r.issued + [StopMotor]
            && Looped(states, r1, later, triggered) == r1
  {
  }
}
