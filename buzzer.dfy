/** The tone sequencer (`BuzzerManager`, BuzzerManager.cpp/.h). A pattern is
    a string of duration symbols and a parallel string of frequency
    characters; `update`, called every loop, starts the current step (a
    tone or a silence) and ends it once its duration has passed on the
    32-bit millisecond clock. The clock is a parameter; the buzzer pin is
    the output field `toneHz` (0 is `noTone`). */
module Buzzer {
  import opened Wrappers
  import opened Millis

  // ---------------------------------------------------------------------------
  // Lookup tables

  /** The duration table: symbols and their milliseconds, in table order. */
  const SYMBOLS: seq<char> := ['1', '2', '3', '4', ' ']
  const DURATIONS: seq<u32> := [120, 240, 360, 480, 60]

  /** The duration of a step symbol; a symbol not in the table lasts 0 ms. */
  function DurationOf(symbol: char): (d: u32)
    ensures d == 0 <==> symbol !in SYMBOLS
    ensures symbol in SYMBOLS ==> 60 <= d <= 480
  {
    match symbol
    case '1' => 120
    case '2' => 240
    case '3' => 360
    case '4' => 480
    case ' ' => 60
    case _ => 0
  }

  /** `getDuration`: a linear search of the symbol table, the first match's
      duration, or 0. */
  method GetDuration(symbol: char) returns (d: u32)
    ensures d == DurationOf(symbol)
  {
    var i := 0;
    while i < 5
      invariant 0 <= i <= 5
      invariant forall k :: 0 <= k < i ==> SYMBOLS[k] != symbol
    {
      if symbol == SYMBOLS[i] {
        return DURATIONS[i];
      }
      i := i + 1;
    }
    return 0;
  }

  /** The symbols `1` to `4` are whole multiples of the 120 ms beat and the
      space is half a beat. */
  lemma DurationsAreBeats(symbol: char)
    requires symbol in SYMBOLS
    ensures symbol != ' ' ==> DurationOf(symbol) % 120 == 0 && DurationOf(symbol) / 120 == (symbol as int) - ('0' as int)
    ensures symbol == ' ' ==> 2 * DurationOf(symbol) == 120
  {
  }

  /** Whether a frequency character names a note. */
  predicate IsNote(c: char) {
    'a' <= c <= 'g' || 'A' <= c <= 'G'
  }

  /** `getFrequency`: `.` and `_` are silent (0), the notes a-g and A-G have
      fixed pitches from 440 to 1568 Hz, and every other character plays
      2000 Hz. */
  function GetFrequency(freqChar: char): (hz: nat)
    ensures hz == 0 <==> freqChar == '.' || freqChar == '_'
    ensures IsNote(freqChar) ==> 440 <= hz <= 1568
    ensures !IsNote(freqChar) && freqChar != '.' && freqChar != '_' ==> hz == 2000
  {
    match freqChar
    case 'a' => 440
    case 'b' => 494
    case 'c' => 523
    case 'd' => 587
    case 'e' => 659
    case 'f' => 698
    case 'g' => 784
    case 'A' => 880
    case 'B' => 988
    case 'C' => 1047
    case 'D' => 1175
    case 'E' => 1319
    case 'F' => 1397
    case 'G' => 1568
    case '.' => 0
    case '_' => 0
    case _ => 2000
  }

  /** The capital of a lower-case note letter. */
  function Capital(c: char): (u: char)
    requires 'a' <= c <= 'g'
    ensures 'A' <= u <= 'G' && IsNote(u)
  {
    (c as int - 32) as char
  }

  /** The notes rise with the letter, and a capital letter sounds an octave
      above its lower-case note, to within a hertz. */
  lemma NotesFormTwoOctaves(c: char, d: char)
    requires 'a' <= c < d <= 'g'
    ensures GetFrequency(c) < GetFrequency(d)
    ensures GetFrequency(Capital(c)) < GetFrequency(Capital(d))
    ensures 2 * GetFrequency(c) <= GetFrequency(Capital(c)) <= 2 * GetFrequency(c) + 1
  {
  }

  /** The frequency character of step `index`, or NUL past the end of the
      frequency pattern. */
  function FreqCharAt(freqPattern: string, index: nat): (c: char)
    ensures index >= |freqPattern| ==> GetFrequency(c) == 2000
  {
    if index < |freqPattern| then freqPattern[index] else '\0'
  }

  // ---------------------------------------------------------------------------
  // The player state and one `update`

  datatype Player = Player(pattern: string, freqPattern: string, index: nat, lastChange: u32,
                           isOn: bool, isSilent: bool, toneHz: nat)

  /** A step is a tone or a silence, never both, and a silent step keeps
      the pin quiet. (A tone step's pin can be silenced by `begin`.) */
  predicate Sane(p: Player) {
    !(p.isOn && p.isSilent) && (p.isSilent ==> p.toneHz == 0)
  }

  /** `isFinished`: the index has reached the end of the pattern. */
  function Finished(p: Player): (r: bool)
    ensures r <==> p.index >= |p.pattern|
    ensures |p.pattern| == 0 ==> r
  {
    p.index >= |p.pattern|
  }

  /** The step's start: the tone of the step's frequency character, or a
      silence when it is 0; either way the step's clock starts now. */
  function Begun(p: Player, now: u32): (q: Player)
    requires p.index < |p.pattern| && !p.isOn && !p.isSilent
    ensures Sane(q) && (q.isOn || q.isSilent) && q.lastChange == now
    ensures q.isOn ==> q.toneHz > 0
    ensures q.index == p.index && q.pattern == p.pattern && q.freqPattern == p.freqPattern
    ensures q.isOn <==> GetFrequency(FreqCharAt(p.freqPattern, p.index)) > 0
  {
    var hz := GetFrequency(FreqCharAt(p.freqPattern, p.index));
    if hz > 0 then p.(toneHz := hz, isOn := true, lastChange := now)
    else p.(toneHz := 0, isSilent := true, lastChange := now)
  }

  /** One `update` at `now`. Nothing happens on an empty or finished
      pattern. An idle step begins; a begun step ends once at least its
      duration has elapsed since it began (wrapping subtraction), silencing
      the pin and moving to the next symbol. */
  function Stepped(p: Player, now: u32): (q: Player)
    ensures Finished(p) ==> q == p
    ensures q.pattern == p.pattern && q.freqPattern == p.freqPattern
    ensures q.index == p.index || q.index == p.index + 1
    ensures q.index == p.index + 1 ==>
              !Finished(p) && !q.isOn && !q.isSilent && q.toneHz == 0 && q.lastChange == now
    ensures Sane(p) ==> Sane(q)
  {
    if |p.pattern| == 0 || p.index >= |p.pattern| then p
    else
      var duration := DurationOf(p.pattern[p.index]);
      var p1 := if !p.isOn && !p.isSilent then Begun(p, now) else p;
      if (p1.isOn || p1.isSilent) && Elapsed(now, p1.lastChange) >= duration then
        p1.(toneHz := 0, isOn := false, isSilent := false, index := p.index + 1, lastChange := now)
      else p1
  }

  /** A step ends only once its duration has passed since it began: an
      update that moves on from a begun step saw at least the symbol's
      duration elapse since `lastChange`, and one that begins the step
      moves on in the same call only for a symbol outside the table. */
  lemma StepEndsOnlyAfterDuration(p: Player, now: u32)
    requires !Finished(p)
    ensures var q := Stepped(p, now);
            q.index == p.index + 1 && (p.isOn || p.isSilent) ==>
              Elapsed(now, p.lastChange) >= DurationOf(p.pattern[p.index])
    ensures var q := Stepped(p, now);
            !p.isOn && !p.isSilent ==> (q.index == p.index + 1 <==> DurationOf(p.pattern[p.index]) == 0)
  {
    if !p.isOn && !p.isSilent {
      ElapsedSelf(now);
    }
  }

  lemma ElapsedSelf(t: u32)
    ensures Elapsed(t, t) == 0
  {
  }

  /** Every step makes progress: from an idle step, one update begins it and
      a second at least its duration later ends it, so each symbol takes two
      updates at most. */
  lemma {:induction false} StepCompletes(p: Player, t1: u32, t2: u32)
    requires !Finished(p) && !p.isOn && !p.isSilent
    requires Elapsed(t2, t1) >= DurationOf(p.pattern[p.index])
    ensures var q := Stepped(p, t1);
            q.index == p.index + 1 || Stepped(q, t2).index == p.index + 1
  {
    var q := Stepped(p, t1);
    if q.index == p.index {
      assert q == Begun(p, t1);
      assert q.isOn || q.isSilent;
    }
  }

  // ---------------------------------------------------------------------------
  // The canned events

  datatype BuzzerEvent =
    | PowerOn | Connect | Lost | FlagUp | FlagDown | Stall | Timeout | Half | Full | Stop
    | Startup | OnStation | Calib | MovingToStation | LidOpen | FaultRecovery
    | Debug1 | Debug2 | Debug3 | Debug4 | HighTick | Silent1s

  /** The pattern and frequency strings `playEvent` plays for an event, or
      `None` for an event it has no case for. */
  function EventPattern(e: BuzzerEvent): (r: Option<(string, string)>)
    ensures r.None? <==> e in {Timeout, Startup, OnStation, Calib, MovingToStation, LidOpen, FaultRecovery}
    ensures r.Some? ==> |r.value.0| == |r.value.1| > 0
  {
    match e
    case PowerOn => Some(("1212124", "C.D.E.F"))
    case Connect => Some(("11112", "cccec"))
    case Lost => Some(("224", "afF"))
    case FlagUp => Some(("1113", "aceA"))
    case FlagDown => Some(("1113", "Aeca"))
    case Stall => Some(("111111111", "af.ffe.dc"))
    case Half => Some(("344", "cCc"))
    case Full => Some(("344", "gGc"))
    case Stop => Some(("2224", "ccca"))
    case Debug1 => Some(("442144", "aa.e.."))
    case Debug2 => Some(("4421144", "aa.ee.."))
    case Debug3 => Some(("44211144", "aa.eee.."))
    case Debug4 => Some(("442111144", "aa.eeee.."))
    case HighTick => Some(("1", "A"))
    case Silent1s => Some(("4444", "...."))
    case _ => None
  }

  /** The total time of a pattern's steps, in milliseconds. */
  function PatternLength(pattern: string): nat {
    if pattern == [] then 0 else DurationOf(pattern[0]) as nat + PatternLength(pattern[1..])
  }

  /** Every canned pattern uses only table symbols, so each step lasts at
      least 60 ms and no step is skipped in a single update. */
  lemma EventPatternsUseTableSymbols(e: BuzzerEvent)
    requires EventPattern(e).Some?
    ensures forall i :: 0 <= i < |EventPattern(e).value.0| ==> EventPattern(e).value.0[i] in SYMBOLS
  {
  }

  /** The silent event lasts two seconds of silence (four 480 ms steps), not
      the one second its name suggests. */
  lemma SilentEventLastsTwoSeconds()
    ensures PatternLength(EventPattern(Silent1s).value.0) == 1920
    ensures forall i :: 0 <= i < 4 ==> GetFrequency(EventPattern(Silent1s).value.1[i]) == 0
  {
    var p := EventPattern(Silent1s).value.0;
    assert p == "4444";
    assert p[1..] == "444" && p[2..] == "44" && p[3..] == "4" && p[4..] == [];
  }

  // ---------------------------------------------------------------------------
  // The player object

  class BuzzerManager {
    var pattern: string
    var freqPattern: string
    var index: nat
    var lastChange: u32
    var isOn: bool
    var isSilent: bool
    /** The buzzer pin: the frequency of the tone sounding, 0 for none. */
    var toneHz: nat

    function Snapshot(): Player
      reads this
    {
      Player(pattern, freqPattern, index, lastChange, isOn, isSilent, toneHz)
    }

    ghost predicate Valid()
      reads this
    {
      Sane(Snapshot())
    }

    /** A fresh player: empty pattern, index 0, idle, silent pin; it is
        finished before anything is played. */
    constructor ()
      ensures Valid() && Finished(Snapshot())
      ensures Snapshot() == Player("", "", 0, 0, false, false, 0)
    {
      pattern, freqPattern := "", "";
      index, lastChange := 0, 0;
      isOn, isSilent := false, false;
      toneHz := 0;
    }

    /** `begin`: silence the pin. */
    method Begin()
      requires Valid()
      modifies this`toneHz
      ensures Valid() && toneHz == 0
    {
      toneHz := 0;
    }

    /** `playPattern`: restart at step 0, idle, timed from now. The pin is
        not touched, so a tone already sounding goes on until the next
        update begins the first step. */
    method PlayPattern(p: string, f: string, now: u32)
      requires Valid()
      modifies this`pattern, this`freqPattern, this`index, this`lastChange, this`isOn, this`isSilent
      ensures Valid()
      ensures Snapshot() == old(Snapshot()).(pattern := p, freqPattern := f, index := 0, lastChange := now,
                                               isOn := false, isSilent := false)
    {
      pattern := p;
      freqPattern := f;
      index := 0;
      lastChange := now;
      isOn := false;
      isSilent := false;
    }

    /** `playEvent`: play the event's canned pattern; an event without one
        leaves the player as it is. */
    method PlayEvent(e: BuzzerEvent, now: u32)
      requires Valid()
      modifies this`pattern, this`freqPattern, this`index, this`lastChange, this`isOn, this`isSilent
      ensures Valid()
      ensures EventPattern(e).None? ==> Snapshot() == old(Snapshot())
      ensures EventPattern(e).Some? ==>
                Snapshot() == old(Snapshot()).(pattern := EventPattern(e).value.0,
                                               freqPattern := EventPattern(e).value.1, index := 0,
                                               lastChange := now, isOn := false, isSilent := false)
    {
      match EventPattern(e)
      case Some(pf) => PlayPattern(pf.0, pf.1, now);
      case None =>
    }

    /** `update`, once per loop. */
    method Update(now: u32)
      requires Valid()
      modifies this`index, this`lastChange, this`isOn, this`isSilent, this`toneHz
      ensures Valid()
      ensures Snapshot() == Stepped(old(Snapshot()), now)
    {
      if |pattern| == 0 || index >= |pattern| {
        return;
      }
      var currentSymbol := pattern[index];
      var duration := GetDuration(currentSymbol);
      if !isOn && !isSilent {
        var freqChar := if index < |freqPattern| then freqPattern[index] else '\0';
        var freq := GetFrequency(freqChar);
        if freq > 0 {
          toneHz := freq;
          isOn := true;
        } else {
          toneHz := 0;
          isSilent := true;
        }
        lastChange := now;
      }
      if (isOn || isSilent) && Elapsed(now, lastChange) >= duration {
        toneHz := 0;
        isOn := false;
        isSilent := false;
        index := index + 1;
        lastChange := now;
      }
    }

    function IsFinished(): (r: bool)
      reads this
      ensures r <==> Finished(Snapshot())
    {
      index >= |pattern|
    }
  }
}
