/** The flag-event scheduler object (class `EventManager`,
    EventManager.cpp/.h): a fixed table of 20 event slots updated in place,
    the scheduler's outputs, and the persisted block it keeps in step. The
    wall clock is the parameter `now` (seconds, UTC) of each operation; the
    solar calculations are the `SunModel` the scheduler is built with. */
module EventManagerModel {
  import opened Wrappers
  import opened Millis
  import opened EventRecords
  import opened TimeMarks
  import opened EventSchedule

  /** What resolving the table sets: the ordered station, the instant of the
      next change and the station after it, the attention flag and the wait
      armed on the wake-up timer. */
  datatype Outputs = Outputs(orderedSta: FlagStation, nextChange: int, nextSta: FlagStation,
                             attentionFlag: bool, msUntilNext: u32)

  class EventManager {
    /** `EVL`: the event slots. */
    const evl: array<FlagEvent>
    /** Sunrise and sunset for this site. */
    const sun: SunModel
    var cfg: Config
    /** `_conf_Sched`: a configuration has been received or restored. */
    var confSched: bool
    /** `_attentionFlag`: set by the wake-up timer. */
    var attentionFlag: bool
    var orderedSta: FlagStation
    var nextChange: int
    var nextSta: FlagStation
    var msUntilNext: u32
    var putCount: int
    /** The scheduler block of the EEPROM. */
    var eeprom: EEData

    ghost predicate Valid()
      reads this
    {
      evl.Length == N_EVENTS && |eeprom.events| == N_EVENTS
    }

    function CurrentOutputs(): Outputs
      reads this`orderedSta, this`nextChange, this`nextSta, this`attentionFlag, this`msUntilNext
    {
      Outputs(orderedSta, nextChange, nextSta, attentionFlag, msUntilNext)
    }

    /** A scheduler over the given EEPROM contents: every slot empty, not
        configured, nothing ordered yet. */
    constructor (sun: SunModel, eeprom: EEData)
      requires |eeprom.events| == N_EVENTS
      ensures Valid() && fresh(evl)
      ensures evl[..] == seq(N_EVENTS, _ => NullEvent)
      ensures this.sun == sun && this.eeprom == eeprom && cfg == DefaultConfig
      ensures !confSched && !attentionFlag && putCount == 0
      ensures orderedSta == FLAG_UNKNOWN && nextChange == 0 && nextSta == FLAG_UNKNOWN && msUntilNext == 0
    {
      evl := new FlagEvent[N_EVENTS](_ => NullEvent);
      this.sun := sun;
      this.eeprom := eeprom;
      cfg := DefaultConfig;
      confSched := false;
      attentionFlag := false;
      putCount := 0;
      orderedSta := FLAG_UNKNOWN;
      nextChange := 0;
      nextSta := FLAG_UNKNOWN;
      msUntilNext := 0;
    }

    /** `eventTimer`: the wake-up timer asks for attention. */
    method TimerFired()
      modifies this`attentionFlag
      ensures attentionFlag
    {
      attentionFlag := true;
    }

    /** `matchEVID`: the index of the first slot holding `id`, or -1. */
    method MatchEVID(id: int) returns (idx: int)
      ensures idx == FirstIndex(evl[..], id)
      ensures -1 <= idx < evl.Length
    {
      var i := 0;
      while i < evl.Length
        invariant 0 <= i <= evl.Length
        invariant forall j :: 0 <= j < i ==> evl[j].eventID != id
      {
        if evl[i].eventID == id {
          return i;
        }
        i := i + 1;
      }
      return -1;
    }

    /** `clearEvent`: the slot gets the default event. */
    method ClearEvent(i: int)
      requires 0 <= i < evl.Length
      modifies evl
      ensures evl[..] == old(evl[..])[i := NullEvent]
    {
      evl[i] := NullEvent;
    }

    /** `putEE`: write the configuration and the table to the persisted block. */
    method PutEE()
      requires Valid()
      modifies this`eeprom, this`putCount
      ensures Valid()
      ensures eeprom == Saved(old(eeprom), old(putCount), cfg, evl[..])
      ensures putCount == eeprom.putCount
    {
      if !Loadable(eeprom) {
        putCount := 0;
      }
      var records: seq<EERecord> := [];
      for i := 0 to evl.Length
        invariant |records| == i
        invariant forall j :: 0 <= j < i ==> records[j] == ToRecord(evl[j])
      {
        records := records + [ToRecord(evl[i])];
      }
      putCount := putCount + 1;
      eeprom := EEData(S_EE_TYP, S_EE_VER,
                       FieldCopy(cfg.upperFlag, FLAG_SIZE), cfg.upperFlagPrio, cfg.lat, cfg.lng,
                       FieldCopy(cfg.jurFederal, JUR_SIZE), FieldCopy(cfg.jurState, JUR_SIZE),
                       FieldCopy(cfg.postalCode, POSTAL_SIZE), cfg.tzOffset, cfg.doDST,
                       records, putCount);
      assert records == Block(cfg, evl[..], putCount).events;
    }

    /** `getEE`: restore the configuration and the table from the persisted
        block; a block with the wrong tag or version is refused with 1 and
        nothing changes. */
    method GetEE() returns (r: int)
      requires Valid()
      modifies evl, this`cfg, this`putCount
      ensures Valid()
      ensures !Loadable(eeprom) ==> r == 1 && evl[..] == old(evl[..]) && cfg == old(cfg) && putCount == old(putCount)
      ensures Loadable(eeprom) ==> r == 0 && evl[..] == LoadedTable(old(evl[..]), eeprom)
                                   && cfg == LoadedConfig(eeprom) && putCount == eeprom.putCount
    {
      if !Loadable(eeprom) {
        return 1;
      }
      cfg := LoadedConfig(eeprom);
      for i := 0 to N_EVENTS
        modifies evl
        invariant forall j :: 0 <= j < i ==> evl[j] == FromRecord(old(evl[j]), eeprom.events[j])
        invariant forall j :: i <= j < N_EVENTS ==> evl[j] == old(evl[j])
      {
        evl[i] := FromRecord(evl[i], eeprom.events[i]);
      }
      putCount := eeprom.putCount;
      return 0;
    }

    /** `purgeEvents`: clear every stale slot, return how many were cleared,
        then save. */
    method PurgeEvents(now: int) returns (nPurged: int)
      requires Valid()
      modifies evl, this`eeprom, this`putCount
      ensures Valid()
      ensures evl[..] == Purged(old(evl[..]), now)
      ensures nPurged == StaleCount(old(evl[..]), now)
      ensures eeprom == Saved(old(eeprom), old(putCount), cfg, evl[..]) && putCount == eeprom.putCount
    {
      ghost var t := evl[..];
      nPurged := 0;
      for i := 0 to N_EVENTS
        modifies evl
        invariant forall j :: 0 <= j < i ==> evl[j] == if Stale(t[j], now) then NullEvent else t[j]
        invariant forall j :: i <= j < N_EVENTS ==> evl[j] == t[j]
        invariant nPurged == CountWhere(t[..i], (e: FlagEvent) => Stale(e, now))
      {
        assert t[..i + 1][..i] == t[..i];
        if evl[i].eventID > 0 {
          if !evl[i].valid || evl[i].gmtBegin == 0 || (evl[i].gmtEnd != 0 && evl[i].gmtEnd < now) {
            ClearEvent(i);
            nPurged := nPurged + 1;
          }
        }
      }
      assert t[..N_EVENTS] == t;
      PutEE();
    }

    /** `updEventTimer`: clear the attention flag and set the wait until the
        next check -- 30 minutes before today's or else tomorrow's sunrise,
        else one hour, brought forward to the next ordered change. */
    method UpdEventTimer(now: int)
      modifies this`attentionFlag, this`msUntilNext
      ensures !attentionFlag
      ensures msUntilNext == WaitMs(now, WakeInstant(now, nextChange, sun))
    {
      attentionFlag := false;
      var day := now / SECONDS_PER_DAY;
      var sunrise := sun.sunriseOnDay(day);
      var sunErr := sunrise.None?;
      var nextCheck := sunrise.GetOr(0) - SUNRISE_LEAD;
      if sunErr || nextCheck < now {
        sunrise := sun.sunriseOnDay(day + 1);
        sunErr := sunrise.None?;
        nextCheck := sunrise.GetOr(0) - SUNRISE_LEAD;
      }
      if sunErr || nextCheck < now {
        nextCheck := now + FALLBACK_WAIT;
      }
      nextCheck := if nextChange == 0 || nextCheck <= nextChange then nextCheck else nextChange;
      msUntilNext := ToU32((nextCheck - now) * 1000);
    }

    /** `setNextEvent`: purge, clear the applicable slots that are neither
        future nor current, grow the HALF window to its fixed point, set the
        outputs (the ordered station is what is handed to the halyard) and
        the wake-up timer. */
    method SetNextEvent(now: int)
      requires Valid()
      modifies evl, this`eeprom, this`putCount, this`orderedSta, this`nextChange, this`nextSta,
               this`attentionFlag, this`msUntilNext
      ensures Valid()
      ensures Scheduled(Purged(old(evl[..]), now), now)
      ensures eeprom == Saved(old(eeprom), old(putCount), cfg, Purged(old(evl[..]), now)) && putCount == eeprom.putCount
    {
      var _ := PurgeEvents(now);
      ResolveTable(now);
    }

    /** The part of `setNextEvent` after the purge: classify, merge, set the
        outputs and the timer. */
    method ResolveTable(now: int)
      requires Valid()
      modifies evl, this`orderedSta, this`nextChange, this`nextSta, this`attentionFlag, this`msUntilNext
      ensures Valid()
      ensures Scheduled(old(evl[..]), now)
    {
      ghost var p := evl[..];
      var inProgress, waiting, mxEnd, nxBeg, begs, ends := ClassifyEvents(now);
      mxEnd := MergeWindow(p, now, begs, ends, mxEnd);
      if inProgress {
        orderedSta, nextChange, nextSta := FLAG_HALF, mxEnd, FLAG_FULL;
      } else if waiting {
        orderedSta, nextChange, nextSta := FLAG_FULL, nxBeg, FLAG_HALF;
      } else {
        orderedSta, nextChange, nextSta := FLAG_FULL, 0, FLAG_UNKNOWN;
      }
      UpdEventTimer(now);
    }

    /** The classification pass of `setNextEvent`: record the beginning and
        end of every applicable slot, note whether any is in force or ahead,
        the latest current end and the earliest future beginning, and clear
        the applicable slots that are neither. */
    method ClassifyEvents(now: int)
      returns (inProgress: bool, waiting: bool, mxEnd: int, nxBeg: int, begs: seq<int>, ends: seq<int>)
      requires Valid()
      modifies evl
      ensures evl[..] == Classified(old(evl[..]), now)
      ensures Recorded(old(evl[..]), now, begs, ends)
      ensures inProgress == InProgress(old(evl[..]), now) && waiting == Waiting(old(evl[..]), now)
      ensures mxEnd == CurrentEnd(old(evl[..]), now) && nxBeg == EarliestBegin(old(evl[..]), now)
    {
      ghost var p := evl[..];
      inProgress, waiting := false, false;
      var nullT := now + NULL_HORIZON;
      mxEnd, nxBeg := now, nullT;
      begs := seq(N_EVENTS, _ => 0);
      ends := seq(N_EVENTS, _ => 0);

      for idx := 0 to N_EVENTS
        modifies evl
        invariant |begs| == N_EVENTS && |ends| == N_EVENTS
        invariant evl[..] == Classified(p[..idx], now) + p[idx..]
        invariant RecordedUpTo(p, now, begs, ends, idx)
        invariant inProgress <==> InProgress(p[..idx], now)
        invariant waiting <==> Waiting(p[..idx], now)
        invariant mxEnd == CurrentEnd(p[..idx], now)
        invariant nxBeg == EarliestBegin(p[..idx], now)
      {
        PrefixStep(p, idx, now);
        ClassifiedStep(p, idx, now);
        RecordedStep(p, now, begs, ends, idx);
        var applies, future, current, b, en := ClassifySlotAt(idx, now);
        if applies {
          begs := begs[idx := b];
          ends := ends[idx := en];
        }
        if future {
          waiting := true;
          nxBeg := if nxBeg <= b then nxBeg else b;
        }
        if current {
          inProgress := true;
          mxEnd := if mxEnd >= en then mxEnd else en;
        }
      }
      assert p[..N_EVENTS] == p;
    }

    /** One slot of the classification pass: report whether the slot
        applies, lies ahead or is in force, with its beginning and its end
        (an open end counts as the null horizon), and clear it when it
        applies but is neither ahead nor in force. */
    method ClassifySlotAt(idx: int, now: int)
      returns (applies: bool, future: bool, current: bool, b: int, en: int)
      requires 0 <= idx < evl.Length
      modifies evl
      ensures applies == old(evl[idx]).applies
      ensures future <==> applies && IsFuture(old(evl[idx]), now)
      ensures current <==> applies && IsCurrent(old(evl[idx]), now)
      ensures b == old(evl[idx]).gmtBegin && en == EndOf(old(evl[idx]), now)
      ensures ClassifySlot(old(evl[idx]), now) == old(evl[idx]) ==> evl[..] == old(evl[..])
      ensures ClassifySlot(old(evl[idx]), now) != old(evl[idx]) ==> evl[..] == old(evl[..])[idx := NullEvent]
    {
      var e := evl[idx];
      applies, future, current := e.applies, false, false;
      b := e.gmtBegin;
      en := if e.gmtEnd == 0 then now + NULL_HORIZON else e.gmtEnd;
      if applies {
        if b > now {
          future := true;
        } else if b > 0 && en > now {
          current := true;
        } else {
          ClearEvent(idx);
        }
      }
    }

    /** The fixed-point pass of `setNextEvent`: starting from the latest
        current end, extend the window to the end of any applicable future
        event that begins within it and ends beyond it, until a full pass
        changes nothing. The result is the merged end. */
    method MergeWindow(ghost p: seq<FlagEvent>, now: int, begs: seq<int>, ends: seq<int>, mxEnd0: int)
      returns (mxEnd: int)
      requires evl.Length == N_EVENTS && |begs| == N_EVENTS && |ends| == N_EVENTS && |p| == N_EVENTS
      requires evl[..] == Classified(p, now)
      requires Recorded(p, now, begs, ends)
      requires mxEnd0 == CurrentEnd(p, now)
      ensures IsMergedEnd(p, now, mxEnd)
    {
      mxEnd := mxEnd0;
      var changed := true;
      while changed
        invariant mxEnd >= mxEnd0
        invariant forall m' :: m' >= mxEnd0 && Closed(p, now, m') ==> mxEnd <= m'
        invariant !changed ==> Closed(p, now, mxEnd)
        decreases CountAbove(p, now, mxEnd), if changed then 1 else 0
      {
        changed := false;
        ghost var start := mxEnd;
        for idx := 0 to N_EVENTS
          invariant mxEnd >= start
          invariant forall m' :: m' >= mxEnd0 && Closed(p, now, m') ==> mxEnd <= m'
          invariant changed ==> CountAbove(p, now, mxEnd) < CountAbove(p, now, start)
          invariant !changed ==> mxEnd == start
          invariant !changed ==> forall j :: 0 <= j < idx && p[j].applies && IsFuture(p[j], now) && p[j].gmtBegin <= mxEnd
                                   ==> EndOf(p[j], now) <= mxEnd
        {
          assert evl[idx] == ClassifySlot(p[idx], now);
          if evl[idx].applies && begs[idx] > now && begs[idx] <= mxEnd && ends[idx] > mxEnd {
            CountAboveDrops(p, now, mxEnd, idx);
            mxEnd := ends[idx];
            changed := true;
          }
        }
      }
    }

    /** The outcome of resolving the table `p` at `now`: the table is `p`
        with its dead applicable slots cleared, the outputs are the ones the
        table determines, and the wake-up timer is set from them. */
    ghost predicate Scheduled(p: seq<FlagEvent>, now: int)
      reads evl, this`orderedSta, this`nextChange, this`nextSta, this`attentionFlag, this`msUntilNext
    {
      evl[..] == Classified(p, now) && Resolves(p, now, orderedSta, nextChange, nextSta)
      && !attentionFlag && msUntilNext == WaitMs(now, WakeInstant(now, nextChange, sun))
    }

    /** The persisted block mirrors the configuration and the table. */
    ghost predicate Persisted()
      reads this, evl
    {
      eeprom == Block(cfg, evl[..], putCount)
    }

    /** `reprocessEvents`: when configured, re-read every slot under the
        configuration (clearing the invalid ones and those whose marks no
        longer parse, recomputing applicability of the rest), resolve the
        schedule and save; when not configured, nothing happens. */
    method ReprocessEvents(now: int)
      requires Valid()
      modifies evl, this`eeprom, this`putCount, this`orderedSta, this`nextChange, this`nextSta,
               this`attentionFlag, this`msUntilNext
      ensures Valid()
      ensures !confSched ==> evl[..] == old(evl[..]) && eeprom == old(eeprom) && putCount == old(putCount)
                             && CurrentOutputs() == old(CurrentOutputs())
      ensures confSched ==> Scheduled(Purged(Reprocessed(old(evl[..]), cfg, sun), now), now)
      ensures confSched ==> Persisted() && putCount == CountBase(old(eeprom), old(putCount)) + 2
      ensures UniqueIds(old(evl[..])) ==> UniqueIds(evl[..])
    {
      if confSched {
        RereadAndSchedule(now);
      }
    }

    /** The configured branch of `reprocessEvents`: re-read, resolve, save. */
    method RereadAndSchedule(now: int)
      requires Valid()
      modifies evl, this`eeprom, this`putCount, this`orderedSta, this`nextChange, this`nextSta,
               this`attentionFlag, this`msUntilNext
      ensures Valid()
      ensures Scheduled(Purged(Reprocessed(old(evl[..]), cfg, sun), now), now)
      ensures Persisted() && putCount == CountBase(old(eeprom), old(putCount)) + 2
      ensures UniqueIds(old(evl[..])) ==> UniqueIds(evl[..])
    {
      ghost var t := evl[..];
      RereadSlots();
      SetNextEvent(now);
      if UniqueIds(t) {
        ghost var p := Purged(Reprocessed(t, cfg, sun), now);
        ReprocessKeepsIdsUnique(t, cfg, sun);
        KeptOrClearedKeepsIdsUnique(Reprocessed(t, cfg, sun), p);
        KeptOrClearedKeepsIdsUnique(p, Classified(p, now));
      }
      ghost var firstCount := putCount;
      assert Loadable(eeprom);
      PutEE();
      assert putCount == firstCount + 1;
    }

    /** The slot loop of `reprocessEvents`. */
    method RereadSlots()
      requires evl.Length == N_EVENTS
      modifies evl
      ensures evl[..] == Reprocessed(old(evl[..]), cfg, sun)
    {
      ghost var t := evl[..];
      for idx := 0 to N_EVENTS
        invariant forall j :: 0 <= j < idx ==> evl[j] == ReprocessSlot(t[j], cfg, sun)
        invariant forall j :: idx <= j < N_EVENTS ==> evl[j] == t[j]
      {
        var e := evl[idx];
        if !e.valid {
          ClearEvent(idx);
        } else {
          var b := MarkInstant(e.bmk, 'H', cfg, sun);
          var f := if b.None? then None else MarkInstant(e.emk, 'F', cfg, sun);
          if b.None? || f.None? {
            ClearEvent(idx);
          } else {
            evl[idx] := e.(gmtBegin := b.value, gmtEnd := f.value, applies := EventApplies(e, cfg));
          }
        }
      }
    }

    /** `receiveEvent` on an event already decoded: store it as `Stored`
        says, and when the table changed, reprocess. */
    method ReceiveEvent(n: FlagEvent, now: int) returns (code: ERC)
      requires Valid()
      modifies evl, this`eeprom, this`putCount, this`orderedSta, this`nextChange, this`nextSta,
               this`attentionFlag, this`msUntilNext
      ensures Valid()
      ensures code == Stored(old(evl[..]), n, cfg, now).code
      ensures var s := Stored(old(evl[..]), n, cfg, now);
              !(s.reprocess && confSched) ==> evl[..] == s.table
      ensures var s := Stored(old(evl[..]), n, cfg, now);
              s.reprocess && confSched ==> Scheduled(Purged(Reprocessed(s.table, cfg, sun), now), now) && Persisted()
      ensures UniqueIds(old(evl[..])) ==> UniqueIds(evl[..])
      // without the final reprocessing the outputs stay as they were, and the
      // block changes only by the purge of a new event
      ensures var s := Stored(old(evl[..]), n, cfg, now);
              !(s.reprocess && confSched) ==>
                CurrentOutputs() == old(CurrentOutputs())
      ensures var s := Stored(old(evl[..]), n, cfg, now);
              !(s.reprocess && confSched) ==> PurgeSaved(old(eeprom), old(putCount), old(evl[..]), n, now)
      // with it, the block is written twice more after any purge's write
      ensures var s := Stored(old(evl[..]), n, cfg, now);
              s.reprocess && confSched ==>
                putCount == CountBase(old(eeprom), old(putCount)) + (if AddsNew(old(evl[..]), n) then 3 else 2)
    {
      ghost var t := evl[..];
      var reprocess;
      code, reprocess := StoreEvent(n, now);
      FinishReceive(reprocess, now, Stored(t, n, cfg, now));
    }

    /** The tail of `receiveEvent`: reprocess only when the table work asks for it. */
    method FinishReceive(reprocess: bool, now: int, ghost s: StoreOutcome)
      requires Valid()
      requires evl[..] == s.table && reprocess == s.reprocess
      modifies evl, this`eeprom, this`putCount, this`orderedSta, this`nextChange, this`nextSta,
               this`attentionFlag, this`msUntilNext
      ensures Valid()
      ensures !(s.reprocess && confSched) ==>
                evl[..] == s.table && eeprom == old(eeprom) && putCount == old(putCount)
                && CurrentOutputs() == old(CurrentOutputs())
      ensures s.reprocess && confSched ==>
                Scheduled(Purged(Reprocessed(s.table, cfg, sun), now), now)
                && Persisted() && putCount == CountBase(old(eeprom), old(putCount)) + 2
      ensures UniqueIds(s.table) ==> UniqueIds(evl[..])
    {
      if reprocess {
        ReprocessEvents(now);
      }
    }

    /** The block after the table work of `receiveEvent` on `t`, from the
        block `ee0` and counter `count0`: only a new event purges first, and
        the purge saves the purged table; otherwise nothing is written. */
    ghost predicate PurgeSaved(ee0: EEData, count0: int, t: seq<FlagEvent>, n: FlagEvent, now: int)
      reads this`eeprom, this`putCount, this`cfg
    {
      if AddsNew(t, n) then eeprom == Saved(ee0, count0, cfg, Purged(t, now)) && putCount == eeprom.putCount
      else eeprom == ee0 && putCount == count0
    }

    /** The table work of `receiveEvent`, up to its final reprocessing: the
        returned flag says whether the source goes on to reprocess. */
    method StoreEvent(n: FlagEvent, now: int) returns (code: ERC, reprocess: bool)
      requires Valid()
      modifies evl, this`eeprom, this`putCount
      ensures Valid()
      ensures Stored(old(evl[..]), n, cfg, now) == StoreOutcome(evl[..], code, reprocess)
      // only a new event purges first, and the purge saves the purged table
      ensures PurgeSaved(old(eeprom), old(putCount), old(evl[..]), n, now)
      ensures UniqueIds(old(evl[..])) ==> UniqueIds(evl[..])
    {
      ghost var t := evl[..];
      if UniqueIds(t) {
        StoredKeepsIdsUnique(t, n, cfg, now);
      }
      if n.eventID <= 0 || !n.valid {
        return PARSE_ERROR, false;
      }
      var idx := MatchEVID(n.eventID);
      if idx >= 0 {
        if n.eventVer < evl[idx].eventVer {
          return SUCCESS, false;
        }
        if n.isDelete {
          ClearEvent(idx);
        } else {
          evl[idx] := Admitted(n, cfg);
        }
      } else {
        if n.isDelete {
          return SUCCESS, false;
        }
        var _ := PurgeEvents(now);
        idx := MatchEVID(0);
        if idx < 0 {
          return EVL_OVERFLOW, false;
        }
        evl[idx] := Admitted(n, cfg);
      }
      return SUCCESS, true;
    }

    /** A configuration (already decoded) is taken: the scheduler becomes
        configured, the table is reprocessed and the block saved. */
    method Configure(newCfg: Config, now: int)
      requires Valid()
      modifies evl, this`cfg, this`confSched, this`eeprom, this`putCount, this`orderedSta, this`nextChange,
               this`nextSta, this`attentionFlag, this`msUntilNext
      ensures Valid() && cfg == newCfg && confSched
      ensures Scheduled(Purged(Reprocessed(old(evl[..]), newCfg, sun), now), now) && Persisted()
      // two writes by the reprocessing, then the final one
      ensures putCount == CountBase(old(eeprom), old(putCount)) + 3
    {
      ghost var p := Purged(Reprocessed(evl[..], newCfg, sun), now);
      cfg := newCfg;
      confSched := true;
      ReprocessEvents(now);
      assert Scheduled(p, now);
      ghost var e, o := evl[..], CurrentOutputs();
      PutEE();
      assert evl[..] == e && CurrentOutputs() == o;
    }

    /** `getNEvents`: how many slots are valid and applicable. */
    method GetNEvents() returns (n: int)
      requires evl.Length == N_EVENTS
      ensures n == CountWhere(evl[..], ValidApplicable)
    {
      n := 0;
      for idx := 0 to N_EVENTS
        invariant n == CountWhere(evl[..idx], ValidApplicable)
      {
        assert evl[..idx + 1][..idx] == evl[..idx];
        if evl[idx].valid && evl[idx].applies {
          n := n + 1;
        }
      }
      assert evl[..N_EVENTS] == evl[..];
    }

    /** `firstActiveEvent`, with the slot test its comment states: the id of
        the first valid, applicable slot that has begun and whose end is open
        or after now, else -1. */
    method FirstActiveEvent(now: int) returns (id: int)
      requires evl.Length == N_EVENTS
      ensures id == ActiveId(evl[..], now)
    {
      for idx := 0 to N_EVENTS
        invariant forall j :: 0 <= j < idx ==> !Active(evl[j], now)
      {
        if !evl[idx].valid { continue; }
        if !evl[idx].applies { continue; }
        if evl[idx].gmtBegin == 0 { continue; }
        if evl[idx].gmtBegin > now { continue; }
        if evl[idx].gmtEnd == 0 || evl[idx].gmtEnd > now {
          return evl[idx].eventID;
        }
      }
      return -1;
    }
  }

  /** `begs` and `ends` hold the beginning and the end of every applicable
      slot of `p`. */
  ghost predicate Recorded(p: seq<FlagEvent>, now: int, begs: seq<int>, ends: seq<int>) {
    |begs| == |p| && |ends| == |p|
    && forall j :: 0 <= j < |p| && p[j].applies ==> begs[j] == p[j].gmtBegin && ends[j] == EndOf(p[j], now)
  }

  /** One more slot of the classification pass: the table after slot `idx`
      is the table before it with that slot classified. */
  lemma ClassifiedStep(p: seq<FlagEvent>, idx: int, now: int)
    requires 0 <= idx < |p|
    ensures (Classified(p[..idx], now) + p[idx..])[idx] == p[idx]
    ensures ClassifySlot(p[idx], now) == p[idx]
            ==> Classified(p[..idx + 1], now) + p[idx + 1..] == Classified(p[..idx], now) + p[idx..]
    ensures ClassifySlot(p[idx], now) != p[idx]
            ==> Classified(p[..idx + 1], now) + p[idx + 1..] == (Classified(p[..idx], now) + p[idx..])[idx := NullEvent]
  {
    var a := Classified(p[..idx + 1], now) + p[idx + 1..];
    var b := (Classified(p[..idx], now) + p[idx..])[idx := ClassifySlot(p[idx], now)];
    assert |a| == |b|;
    forall j | 0 <= j < |a| ensures a[j] == b[j] {
      if j < idx {
        assert a[j] == ClassifySlot(p[j], now);
      } else if j > idx {
        assert a[j] == p[j];
      }
    }
    assert a == b;
    if ClassifySlot(p[idx], now) == p[idx] {
      assert b == Classified(p[..idx], now) + p[idx..];
    }
  }

  /** The first `k` slots of `p` are recorded in `begs` and `ends`. */
  ghost predicate RecordedUpTo(p: seq<FlagEvent>, now: int, begs: seq<int>, ends: seq<int>, k: int)
    requires 0 <= k <= |p| == |begs| == |ends|
  {
    forall j :: 0 <= j < k && p[j].applies ==> begs[j] == p[j].gmtBegin && ends[j] == EndOf(p[j], now)
  }

  /** Recording one more slot extends the recorded prefix. */
  lemma RecordedStep(p: seq<FlagEvent>, now: int, begs: seq<int>, ends: seq<int>, idx: int)
    requires 0 <= idx < |p| == |begs| == |ends|
    requires RecordedUpTo(p, now, begs, ends, idx)
    ensures p[idx].applies
            ==> RecordedUpTo(p, now, begs[idx := p[idx].gmtBegin], ends[idx := EndOf(p[idx], now)], idx + 1)
    ensures !p[idx].applies ==> RecordedUpTo(p, now, begs, ends, idx + 1)
  {
  }

  /** One more slot of a prefix: the facts the classification pass needs to
      carry its running values from `p[..idx]` to `p[..idx + 1]`. */
  lemma PrefixStep(p: seq<FlagEvent>, idx: int, now: int)
    requires 0 <= idx < |p|
    ensures p[..idx + 1][..idx] == p[..idx]
    ensures InProgress(p[..idx + 1], now) <==> InProgress(p[..idx], now) || (p[idx].applies && IsCurrent(p[idx], now))
    ensures Waiting(p[..idx + 1], now) <==> Waiting(p[..idx], now) || (p[idx].applies && IsFuture(p[idx], now))
    ensures CurrentEnd(p[..idx + 1], now)
            == if p[idx].applies && IsCurrent(p[idx], now) && EndOf(p[idx], now) > CurrentEnd(p[..idx], now)
               then EndOf(p[idx], now) else CurrentEnd(p[..idx], now)
    ensures EarliestBegin(p[..idx + 1], now)
            == if p[idx].applies && IsFuture(p[idx], now) && p[idx].gmtBegin < EarliestBegin(p[..idx], now)
               then p[idx].gmtBegin else EarliestBegin(p[..idx], now)
  {
    var q := p[..idx + 1];
    assert q[idx] == p[idx];
    assert forall j :: 0 <= j < idx ==> q[j] == p[..idx][j];
    if InProgress(q, now) {
      var j :| 0 <= j < |q| && q[j].applies && IsCurrent(q[j], now);
      if j < idx {
        assert p[..idx][j] == q[j];
      }
    }
    if Waiting(q, now) {
      var j :| 0 <= j < |q| && q[j].applies && IsFuture(q[j], now);
      if j < idx {
        assert p[..idx][j] == q[j];
      }
    }
  }
}
