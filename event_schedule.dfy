/** What the flag-event scheduler does to its table of slots, stated as
    functions of the table: purging, storing a submitted event, re-reading
    the time marks, resolving the ordered station and choosing when to wake
    up next (EventManager.cpp:37-277, 348-379, 659-685). The class in
    `EventManagerModel` is proved against these. */
module EventSchedule {
  import opened Wrappers
  import opened Millis
  import opened EventRecords
  import opened TimeMarks

  /** An open-ended event is taken to end 30 days from now. */
  const NULL_HORIZON: int := 30 * 24 * 60 * 60
  /** The scheduler wakes 30 minutes before sunrise. */
  const SUNRISE_LEAD: int := 30 * 60
  /** ... or in one hour when no sunrise is usable. */
  const FALLBACK_WAIT: int := 60 * 60

  // ---------------------------------------------------------------------------
  // Counting

  /** The number of slots of `t` that satisfy `p`. */
  function CountWhere(t: seq<FlagEvent>, p: FlagEvent -> bool): (n: nat)
    ensures n <= |t|
  {
    if t == [] then 0 else CountWhere(t[..|t| - 1], p) + (if p(t[|t| - 1]) then 1 else 0)
  }

  /** The count is the number of indices whose slot satisfies `p`. */
  lemma {:induction false} CountWhereIsCardinality(t: seq<FlagEvent>, p: FlagEvent -> bool)
    ensures CountWhere(t, p) == |set i | 0 <= i < |t| && p(t[i])|
  {
    if t != [] {
      var k := |t| - 1;
      CountWhereIsCardinality(t[..k], p);
      var before := set i | 0 <= i < k && p(t[..k][i]);
      var all := set i | 0 <= i < |t| && p(t[i]);
      assert before == set i | 0 <= i < k && p(t[i]);
      if p(t[k]) {
        assert all == before + {k};
      } else {
        assert all == before;
      }
    }
  }

  /** Counting a weaker condition never gives less; it gives more as soon as
      one slot satisfies only the weaker one. */
  lemma {:induction false} CountWhereMono(t: seq<FlagEvent>, p: FlagEvent -> bool, q: FlagEvent -> bool, j: int)
    requires forall e :: p(e) ==> q(e)
    ensures CountWhere(t, p) <= CountWhere(t, q)
    ensures 0 <= j < |t| && q(t[j]) && !p(t[j]) ==> CountWhere(t, p) < CountWhere(t, q)
  {
    if t != [] {
      var k := |t| - 1;
      CountWhereMono(t[..k], p, q, j);
    }
  }

  // ---------------------------------------------------------------------------
  // Looking up a slot (matchEVID)

  /** The first slot satisfying `p`, or -1. */
  function FirstWhere(t: seq<FlagEvent>, p: FlagEvent -> bool): (r: int)
    ensures -1 <= r < |t|
    ensures r >= 0 ==> p(t[r]) && forall j :: 0 <= j < r ==> !p(t[j])
    ensures r == -1 <==> forall j :: 0 <= j < |t| ==> !p(t[j])
  {
    if t == [] then -1
    else if p(t[0]) then 0
    else
      var k := FirstWhere(t[1..], p);
      if k < 0 then -1 else k + 1
  }

  /** `matchEVID`: the first slot holding `id`, or -1. */
  function FirstIndex(t: seq<FlagEvent>, id: int): (r: int)
    ensures -1 <= r < |t|
    ensures r >= 0 ==> t[r].eventID == id && forall j :: 0 <= j < r ==> t[j].eventID != id
    ensures r == -1 <==> forall j :: 0 <= j < |t| ==> t[j].eventID != id
  {
    FirstWhere(t, (e: FlagEvent) => e.eventID == id)
  }

  /** No positive id is held by two slots. */
  predicate UniqueIds(t: seq<FlagEvent>) {
    forall i, j :: 0 <= i < j < |t| && t[i].eventID > 0 ==> t[i].eventID != t[j].eventID
  }

  /** `t'` holds, slot by slot, either the id of `t` or the empty id. */
  predicate IdsKeptOrCleared(t: seq<FlagEvent>, t': seq<FlagEvent>) {
    |t'| == |t| && forall i :: 0 <= i < |t| ==> t'[i].eventID == t[i].eventID || t'[i].eventID == 0
  }

  /** Keeping or clearing slots never makes two of them share an id. */
  lemma KeptOrClearedKeepsIdsUnique(t: seq<FlagEvent>, t': seq<FlagEvent>)
    requires UniqueIds(t) && IdsKeptOrCleared(t, t')
    ensures UniqueIds(t')
  {
    forall i, j | 0 <= i < j < |t'| && t'[i].eventID > 0
      ensures t'[i].eventID != t'[j].eventID
    {
      assert t'[i].eventID == t[i].eventID;
    }
  }

  // ---------------------------------------------------------------------------
  // Purging (purgeEvents)

  /** A slot that holds an event which can never be in force again: not
      valid, without a beginning, or with an end already past. */
  predicate Stale(e: FlagEvent, now: int) {
    e.eventID > 0 && (!e.valid || e.gmtBegin == 0 || (e.gmtEnd != 0 && e.gmtEnd < now))
  }

  function Purged(t: seq<FlagEvent>, now: int): (r: seq<FlagEvent>)
    ensures |r| == |t|
    ensures forall i :: 0 <= i < |t| ==> r[i] == if Stale(t[i], now) then NullEvent else t[i]
  {
    seq(|t|, i requires 0 <= i < |t| => if Stale(t[i], now) then NullEvent else t[i])
  }

  /** The number of slots a purge clears. */
  function StaleCount(t: seq<FlagEvent>, now: int): (n: nat)
    ensures n <= |t|
  {
    CountWhere(t, (e: FlagEvent) => Stale(e, now))
  }

  /** After a purge no slot is stale, a second purge changes nothing and
      every slot keeps its id or is emptied. */
  lemma PurgeIsComplete(t: seq<FlagEvent>, now: int)
    ensures forall i :: 0 <= i < |t| ==> !Stale(Purged(t, now)[i], now)
    ensures Purged(Purged(t, now), now) == Purged(t, now)
    ensures StaleCount(Purged(t, now), now) == 0
    ensures IdsKeptOrCleared(t, Purged(t, now))
  {
    var p := Purged(t, now);
    CountWhereIsCardinality(p, (e: FlagEvent) => Stale(e, now));
    assert (set i | 0 <= i < |p| && ((e: FlagEvent) => Stale(e, now))(p[i])) == {};
  }

  /** A purge changes exactly the stale slots, as many as `StaleCount` says. */
  lemma PurgeChangesStaleSlots(t: seq<FlagEvent>, now: int)
    ensures StaleCount(t, now) == |set i | 0 <= i < |t| && Stale(t[i], now)|
    ensures StaleCount(t, now) == 0 <==> Purged(t, now) == t
  {
    CountWhereIsCardinality(t, (e: FlagEvent) => Stale(e, now));
    var s := set i | 0 <= i < |t| && Stale(t[i], now);
    assert s == set i | 0 <= i < |t| && ((e: FlagEvent) => Stale(e, now))(t[i]);
    if s != {} {
      var i :| i in s;
      assert Purged(t, now)[i] != t[i];
    } else {
      assert forall i :: 0 <= i < |t| ==> !Stale(t[i], now) by {
        forall i | 0 <= i < |t| ensures !Stale(t[i], now) {
          assert i !in s;
        }
      }
    }
  }

  // ---------------------------------------------------------------------------
  // Storing a submitted event (the table logic of receiveEvent)

  /** The table after a submission, the code returned, and whether the table
      is then reprocessed. */
  datatype StoreOutcome = StoreOutcome(table: seq<FlagEvent>, code: ERC, reprocess: bool)

  /** `receiveEvent` up to the call of `reprocessEvents`, on an event
      already decoded: malformed events are refused, an event whose id is
      stored replaces (or deletes) that slot unless its version is lower, a
      new event goes, after a purge, into the first empty slot. */
  function Stored(t: seq<FlagEvent>, n: FlagEvent, cfg: Config, now: int): (r: StoreOutcome)
    ensures |r.table| == |t|
    ensures r.code == PARSE_ERROR <==> n.eventID <= 0 || !n.valid
    ensures r.code in {SUCCESS, PARSE_ERROR, EVL_OVERFLOW}
    ensures r.code != SUCCESS ==> !r.reprocess
    // a lower version of a stored event is acknowledged and ignored
    ensures (n.valid && n.eventID > 0 && FirstIndex(t, n.eventID) >= 0
             && n.eventVer < t[FirstIndex(t, n.eventID)].eventVer) ==> r == StoreOutcome(t, SUCCESS, false)
    // an equal or higher version replaces the stored one, or deletes it
    ensures (n.valid && n.eventID > 0 && FirstIndex(t, n.eventID) >= 0
             && n.eventVer >= t[FirstIndex(t, n.eventID)].eventVer) ==>
              r == StoreOutcome(t[FirstIndex(t, n.eventID) := if n.isDelete then NullEvent else Admitted(n, cfg)],
                                SUCCESS, true)
    // deleting an event that is not stored changes nothing
    ensures n.valid && n.eventID > 0 && FirstIndex(t, n.eventID) < 0 && n.isDelete ==> r == StoreOutcome(t, SUCCESS, false)
    // a new event lands in the first empty slot left after a purge
    ensures (n.valid && n.eventID > 0 && FirstIndex(t, n.eventID) < 0 && !n.isDelete
             && FirstIndex(Purged(t, now), 0) >= 0) ==>
              r == StoreOutcome(Purged(t, now)[FirstIndex(Purged(t, now), 0) := Admitted(n, cfg)], SUCCESS, true)
    // overflow only when no slot is empty even after the purge, and then nothing changed
    ensures r.code == EVL_OVERFLOW ==>
              r.table == t && forall i :: 0 <= i < |t| ==> t[i].eventID != 0 && !Stale(t[i], now)
  {
    if n.eventID <= 0 || !n.valid then StoreOutcome(t, PARSE_ERROR, false)
    else
      var idx := FirstIndex(t, n.eventID);
      if idx >= 0 then
        if n.eventVer < t[idx].eventVer then StoreOutcome(t, SUCCESS, false)
        else if n.isDelete then StoreOutcome(t[idx := NullEvent], SUCCESS, true)
        else StoreOutcome(t[idx := Admitted(n, cfg)], SUCCESS, true)
      else if n.isDelete then StoreOutcome(t, SUCCESS, false)
      else
        var p := Purged(t, now);
        var slot := FirstIndex(p, 0);
        if slot < 0 then
          assert forall i :: 0 <= i < |t| ==> !Stale(t[i], now) by {
            forall i | 0 <= i < |t| ensures !Stale(t[i], now) {
              assert p[i].eventID != 0;
            }
          }
          assert p == t;
          StoreOutcome(p, EVL_OVERFLOW, false)
        else StoreOutcome(p[slot := Admitted(n, cfg)], SUCCESS, true)
  }

  /** The submission is a new event for the table: well formed, not a
      delete, and its id is not stored. Only this path purges (and saves)
      before storing. */
  predicate AddsNew(t: seq<FlagEvent>, n: FlagEvent) {
    n.valid && n.eventID > 0 && !n.isDelete && FirstIndex(t, n.eventID) < 0
  }

  /** Storing never makes two slots share an id. */
  lemma StoredKeepsIdsUnique(t: seq<FlagEvent>, n: FlagEvent, cfg: Config, now: int)
    requires UniqueIds(t)
    ensures UniqueIds(Stored(t, n, cfg, now).table)
  {
    var r := Stored(t, n, cfg, now);
    if n.eventID > 0 && n.valid {
      var idx := FirstIndex(t, n.eventID);
      if idx >= 0 {
        assert IdsKeptOrCleared(t, t[idx := NullEvent]);
        if r.table != t && !n.isDelete {
          assert r.table == t[idx := Admitted(n, cfg)];
          assert IdsKeptOrCleared(t, r.table);
        }
        KeptOrClearedKeepsIdsUnique(t, r.table);
      } else if !n.isDelete {
        var p := Purged(t, now);
        PurgeIsComplete(t, now);
        KeptOrClearedKeepsIdsUnique(t, p);
        var slot := FirstIndex(p, 0);
        if slot >= 0 {
          forall i, j | 0 <= i < j < |r.table| && r.table[i].eventID > 0
            ensures r.table[i].eventID != r.table[j].eventID
          {
            if i == slot {
              assert p[j].eventID == t[j].eventID || p[j].eventID == 0;
            } else if j == slot {
              assert p[i].eventID == t[i].eventID;
            }
          }
        }
      }
    }
  }

  /** After a successful store of a non-delete whose version is not lower,
      the event's id is found and its slot holds the event with `applies`
      recomputed. */
  lemma StoredEventIsFound(t: seq<FlagEvent>, n: FlagEvent, cfg: Config, now: int)
    requires UniqueIds(t)
    requires n.valid && n.eventID > 0 && !n.isDelete
    requires FirstIndex(t, n.eventID) >= 0 ==> n.eventVer >= t[FirstIndex(t, n.eventID)].eventVer
    requires Stored(t, n, cfg, now).code == SUCCESS
    ensures var r := Stored(t, n, cfg, now).table;
            FirstIndex(r, n.eventID) >= 0 && r[FirstIndex(r, n.eventID)] == Admitted(n, cfg)
  {
    var r := Stored(t, n, cfg, now).table;
    var idx := FirstIndex(t, n.eventID);
    StoredKeepsIdsUnique(t, n, cfg, now);
    var k: int;
    if idx >= 0 {
      k := idx;
    } else {
      k := FirstIndex(Purged(t, now), 0);
    }
    assert r[k] == Admitted(n, cfg);
    var f := FirstIndex(r, n.eventID);
    assert 0 <= f <= k;
    assert r[f].eventID == n.eventID == r[k].eventID;
  }

  // ---------------------------------------------------------------------------
  // Re-reading the time marks (reprocessEvents)

  /** The member `parseTimeMark` for this configuration: the free parser,
      whose result 0 is the failure. */
  function MarkInstant(mark: string, hf: char, cfg: Config, sun: SunModel): (r: Option<int>)
    ensures r.None? <==> ParseTimeMark(mark, hf, cfg.lat, cfg.lng, cfg.tzOffset, cfg.doDST, sun) == 0
    ensures r.Some? ==> r.value == ParseTimeMark(mark, hf, cfg.lat, cfg.lng, cfg.tzOffset, cfg.doDST, sun) && r.value != 0
  {
    var t := ParseTimeMark(mark, hf, cfg.lat, cfg.lng, cfg.tzOffset, cfg.doDST, sun);
    if t == 0 then None else Some(t)
  }

  /** One slot re-read under the configuration: an invalid slot, or one whose
      beginning ('H') or end ('F') mark no longer parses, is cleared; any
      other takes the new instants and its applicability is recomputed. */
  function ReprocessSlot(e: FlagEvent, cfg: Config, sun: SunModel): (r: FlagEvent)
    ensures !e.valid ==> r == NullEvent
    ensures e.valid && MarkInstant(e.bmk, 'H', cfg, sun).Some? && MarkInstant(e.emk, 'F', cfg, sun).Some? ==>
              r == e.(gmtBegin := MarkInstant(e.bmk, 'H', cfg, sun).value,
                      gmtEnd := MarkInstant(e.emk, 'F', cfg, sun).value,
                      applies := EventApplies(e, cfg))
    ensures e.valid && (MarkInstant(e.bmk, 'H', cfg, sun).None? || MarkInstant(e.emk, 'F', cfg, sun).None?) ==> r == NullEvent
  {
    if !e.valid then NullEvent
    else match MarkInstant(e.bmk, 'H', cfg, sun)
      case None => NullEvent
      case Some(b) =>
        match MarkInstant(e.emk, 'F', cfg, sun)
        case None => NullEvent
        case Some(f) => e.(gmtBegin := b, gmtEnd := f, applies := EventApplies(e, cfg))
  }

  /** A slot that survives re-reading has both instants nonzero, so it is
      neither open-ended nor without a beginning. */
  lemma ReprocessedSlotHasInstants(e: FlagEvent, cfg: Config, sun: SunModel)
    ensures var r := ReprocessSlot(e, cfg, sun);
            r == NullEvent || (r.valid && r.eventID == e.eventID && r.gmtBegin != 0 && r.gmtEnd != 0
                               && r.applies == EventApplies(r, cfg))
  {
  }

  function Reprocessed(t: seq<FlagEvent>, cfg: Config, sun: SunModel): (r: seq<FlagEvent>)
    ensures |r| == |t|
    ensures forall i :: 0 <= i < |t| ==> r[i] == ReprocessSlot(t[i], cfg, sun)
  {
    seq(|t|, i requires 0 <= i < |t| => ReprocessSlot(t[i], cfg, sun))
  }

  lemma ReprocessKeepsIdsUnique(t: seq<FlagEvent>, cfg: Config, sun: SunModel)
    requires UniqueIds(t)
    ensures UniqueIds(Reprocessed(t, cfg, sun))
  {
    KeptOrClearedKeepsIdsUnique(t, Reprocessed(t, cfg, sun));
  }

  // ---------------------------------------------------------------------------
  // Resolving the ordered station (setNextEvent)

  /** The end of an event, an open end being 30 days from now. */
  function EndOf(e: FlagEvent, now: int): int {
    if e.gmtEnd == 0 then now + NULL_HORIZON else e.gmtEnd
  }

  predicate IsFuture(e: FlagEvent, now: int) {
    e.gmtBegin > now
  }

  /** Begun (with a real beginning) and not yet ended. */
  predicate IsCurrent(e: FlagEvent, now: int) {
    !IsFuture(e, now) && e.gmtBegin > 0 && EndOf(e, now) > now
  }

  /** An applicable slot that is neither future nor current is cleared;
      every other slot is kept. */
  function ClassifySlot(e: FlagEvent, now: int): (r: FlagEvent)
    ensures r == e || r == NullEvent
    ensures r == NullEvent <==> e == NullEvent || (e.applies && !IsFuture(e, now) && !IsCurrent(e, now))
  {
    if e.applies && !IsFuture(e, now) && !IsCurrent(e, now) then NullEvent else e
  }

  function Classified(t: seq<FlagEvent>, now: int): (r: seq<FlagEvent>)
    ensures |r| == |t| && IdsKeptOrCleared(t, r)
    ensures forall i :: 0 <= i < |t| ==> r[i] == ClassifySlot(t[i], now)
  {
    seq(|t|, i requires 0 <= i < |t| => ClassifySlot(t[i], now))
  }

  /** Some applicable event is in force now. */
  predicate InProgress(t: seq<FlagEvent>, now: int) {
    exists i :: 0 <= i < |t| && t[i].applies && IsCurrent(t[i], now)
  }

  /** Some applicable event lies ahead. */
  predicate Waiting(t: seq<FlagEvent>, now: int) {
    exists i :: 0 <= i < |t| && t[i].applies && IsFuture(t[i], now)
  }

  /** The latest end among applicable current events, and at least now. */
  function CurrentEnd(t: seq<FlagEvent>, now: int): (m: int)
    ensures m >= now
    ensures forall i :: 0 <= i < |t| && t[i].applies && IsCurrent(t[i], now) ==> EndOf(t[i], now) <= m
    ensures m == now || exists i :: 0 <= i < |t| && t[i].applies && IsCurrent(t[i], now) && EndOf(t[i], now) == m
  {
    if t == [] then now
    else
      var k := |t| - 1;
      var m := CurrentEnd(t[..k], now);
      assert forall i :: 0 <= i < k ==> t[..k][i] == t[i];
      if t[k].applies && IsCurrent(t[k], now) && EndOf(t[k], now) > m then EndOf(t[k], now) else m
  }

  /** The earliest beginning among applicable future events, and at most
      30 days from now. */
  function EarliestBegin(t: seq<FlagEvent>, now: int): (b: int)
    ensures b <= now + NULL_HORIZON
    ensures forall i :: 0 <= i < |t| && t[i].applies && IsFuture(t[i], now) ==> b <= t[i].gmtBegin
    ensures b == now + NULL_HORIZON || exists i :: 0 <= i < |t| && t[i].applies && IsFuture(t[i], now) && t[i].gmtBegin == b
  {
    if t == [] then now + NULL_HORIZON
    else
      var k := |t| - 1;
      var b := EarliestBegin(t[..k], now);
      assert forall i :: 0 <= i < k ==> t[..k][i] == t[i];
      if t[k].applies && IsFuture(t[k], now) && t[k].gmtBegin < b then t[k].gmtBegin else b
  }

  /** No applicable future event begins by `m` and ends after it: the HALF
      window ending at `m` cannot be extended. */
  ghost predicate Closed(t: seq<FlagEvent>, now: int, m: int) {
    forall i :: 0 <= i < |t| && t[i].applies && IsFuture(t[i], now) && t[i].gmtBegin <= m ==> EndOf(t[i], now) <= m
  }

  /** `m` ends the merged HALF window: the least closed instant at or after
      the end of the current events. */
  ghost predicate IsMergedEnd(t: seq<FlagEvent>, now: int, m: int) {
    m >= CurrentEnd(t, now) && Closed(t, now, m)
    && forall m' :: m' >= CurrentEnd(t, now) && Closed(t, now, m') ==> m <= m'
  }

  /** The merged end, when it exists, is unique. */
  lemma MergedEndUnique(t: seq<FlagEvent>, now: int, m1: int, m2: int)
    requires IsMergedEnd(t, now, m1) && IsMergedEnd(t, now, m2)
    ensures m1 == m2
  {
  }

  /** Future events chained onto the current ones are swallowed by the
      merged window: one that begins no later than the end of a current
      event, or than the end of another swallowed event, ends no later
      than the merged end. */
  lemma MergedWindowSwallowsOverlaps(t: seq<FlagEvent>, now: int, m: int, c: int, f: int, g: int)
    requires IsMergedEnd(t, now, m)
    requires 0 <= c < |t| && t[c].applies && IsCurrent(t[c], now)
    requires 0 <= f < |t| && t[f].applies && IsFuture(t[f], now) && t[f].gmtBegin <= EndOf(t[c], now)
    requires 0 <= g < |t| && t[g].applies && IsFuture(t[g], now) && t[g].gmtBegin <= EndOf(t[f], now)
    ensures EndOf(t[f], now) <= m && EndOf(t[g], now) <= m
    ensures m > now
  {
  }

  /** The number of applicable future events that end after `m`: the
      measure by which the window-growing loop terminates. */
  function CountAbove(t: seq<FlagEvent>, now: int, m: int): (n: nat)
    ensures n <= |t|
  {
    CountWhere(t, (e: FlagEvent) => e.applies && IsFuture(e, now) && EndOf(e, now) > m)
  }

  /** Growing the window to the end of an event that ends beyond it makes
      fewer events end beyond it. */
  lemma CountAboveDrops(t: seq<FlagEvent>, now: int, m: int, j: int)
    requires 0 <= j < |t| && t[j].applies && IsFuture(t[j], now) && EndOf(t[j], now) > m
    ensures CountAbove(t, now, EndOf(t[j], now)) < CountAbove(t, now, m)
  {
    var m' := EndOf(t[j], now);
    CountWhereMono(t, (e: FlagEvent) => e.applies && IsFuture(e, now) && EndOf(e, now) > m',
                      (e: FlagEvent) => e.applies && IsFuture(e, now) && EndOf(e, now) > m, j);
  }

  /** The instant of the next ordered change is never in the past: the end
      of a current window lies after now, and so does a future beginning. */
  lemma NextChangeIsAhead(t: seq<FlagEvent>, now: int, m: int)
    ensures InProgress(t, now) && IsMergedEnd(t, now, m) ==> m > now
    ensures EarliestBegin(t, now) > now
  {
  }

  /** `ordered`, `change` and `next` are what `setNextEvent` outputs for the
      purged table `p`: HALF until the merged end while an event is in force,
      else FULL until the earliest beginning while one lies ahead, else FULL
      with nothing scheduled. */
  ghost predicate Resolves(p: seq<FlagEvent>, now: int, ordered: FlagStation, change: int, next: FlagStation) {
    (InProgress(p, now) ==> ordered == FLAG_HALF && next == FLAG_FULL && IsMergedEnd(p, now, change))
    && (!InProgress(p, now) && Waiting(p, now) ==>
          ordered == FLAG_FULL && next == FLAG_HALF && change == EarliestBegin(p, now))
    && (!InProgress(p, now) && !Waiting(p, now) ==> ordered == FLAG_FULL && change == 0 && next == FLAG_UNKNOWN)
  }

  /** The outputs are determined by the table and the clock; the flag is
      ordered to HALF exactly while an event is in force; a scheduled change
      is always ahead of now and goes to the other station. */
  lemma ResolutionIsDetermined(p: seq<FlagEvent>, now: int, o1: FlagStation, c1: int, n1: FlagStation,
                               o2: FlagStation, c2: int, n2: FlagStation)
    requires Resolves(p, now, o1, c1, n1) && Resolves(p, now, o2, c2, n2)
    ensures o1 == o2 && c1 == c2 && n1 == n2
    ensures o1 == FLAG_HALF <==> InProgress(p, now)
    ensures c1 == 0 || c1 > now
    ensures c1 != 0 ==> n1 != o1 && n1 != FLAG_UNKNOWN
  {
    if InProgress(p, now) {
      MergedEndUnique(p, now, c1, c2);
      NextChangeIsAhead(p, now, c1);
    } else if Waiting(p, now) {
      NextChangeIsAhead(p, now, c1);
    }
  }

  /** After purging and classification every remaining applicable slot is
      future or current, and no slot that was future or current was lost. */
  lemma ClassificationKeepsLiveEvents(t: seq<FlagEvent>, now: int)
    ensures var c := Classified(t, now);
            (forall i :: 0 <= i < |t| && c[i].applies ==> IsFuture(c[i], now) || IsCurrent(c[i], now))
            && (forall i :: 0 <= i < |t| && t[i].applies && (IsFuture(t[i], now) || IsCurrent(t[i], now)) ==> c[i] == t[i])
            && (InProgress(c, now) <==> InProgress(t, now))
            && (Waiting(c, now) <==> Waiting(t, now))
  {
    var c := Classified(t, now);
    if InProgress(t, now) {
      var i :| 0 <= i < |t| && t[i].applies && IsCurrent(t[i], now);
      assert c[i] == t[i];
    }
    if Waiting(t, now) {
      var i :| 0 <= i < |t| && t[i].applies && IsFuture(t[i], now);
      assert c[i] == t[i];
    }
  }

  // ---------------------------------------------------------------------------
  // Choosing the wake-up instant (updEventTimer)

  /** The sunrise-based check instant: 30 minutes before today's sunrise, or
      else before tomorrow's, or else one hour from now, whichever first is
      available and not already past. */
  function SunCheck(now: int, sun: SunModel): (r: int)
    ensures r >= now
    ensures var today := sun.sunriseOnDay(now / SECONDS_PER_DAY);
            var tomorrow := sun.sunriseOnDay(now / SECONDS_PER_DAY + 1);
            (today.Some? && today.value - SUNRISE_LEAD >= now ==> r == today.value - SUNRISE_LEAD)
            && (!(today.Some? && today.value - SUNRISE_LEAD >= now) && tomorrow.Some? && tomorrow.value - SUNRISE_LEAD >= now
                ==> r == tomorrow.value - SUNRISE_LEAD)
            && (!(today.Some? && today.value - SUNRISE_LEAD >= now) && !(tomorrow.Some? && tomorrow.value - SUNRISE_LEAD >= now)
                ==> r == now + FALLBACK_WAIT)
  {
    var today := sun.sunriseOnDay(now / SECONDS_PER_DAY);
    if today.Some? && today.value - SUNRISE_LEAD >= now then today.value - SUNRISE_LEAD
    else
      var tomorrow := sun.sunriseOnDay(now / SECONDS_PER_DAY + 1);
      if tomorrow.Some? && tomorrow.value - SUNRISE_LEAD >= now then tomorrow.value - SUNRISE_LEAD
      else now + FALLBACK_WAIT
  }

  /** The instant the scheduler next wakes: the sunrise-based check, brought
      forward to the next ordered change when one is scheduled. */
  function WakeInstant(now: int, nextChange: int, sun: SunModel): (r: int)
    ensures r <= SunCheck(now, sun)
    ensures nextChange != 0 ==> r <= nextChange
    ensures r == SunCheck(now, sun) || r == nextChange
    ensures nextChange == 0 || nextChange >= now ==> r >= now
  {
    var check := SunCheck(now, sun);
    if nextChange == 0 || check <= nextChange then check else nextChange
  }

  /** `msUntilNext`: milliseconds until the wake instant, stored in an
      unsigned 32-bit variable. */
  function WaitMs(now: int, wake: int): (ms: u32)
    ensures 0 <= wake - now && (wake - now) * 1000 < MOD32 ==> ms == (wake - now) * 1000
  {
    ToU32((wake - now) * 1000)
  }

  /** With nothing scheduled and no usable sunrise the wait is one hour. */
  lemma FallbackWaitIsOneHour(now: int, sun: SunModel)
    requires sun.sunriseOnDay(now / SECONDS_PER_DAY).None? && sun.sunriseOnDay(now / SECONDS_PER_DAY + 1).None?
    ensures WaitMs(now, WakeInstant(now, 0, sun)) == 3600000
  {
  }

  // ---------------------------------------------------------------------------
  // Reading the table (getNEvents, firstActiveEvent)

  /** A valid applicable slot, as `getNEvents` counts them. */
  predicate ValidApplicable(e: FlagEvent) { e.valid && e.applies }

  /** The slot test of `firstActiveEvent` as written: valid, applicable,
      with a beginning that is not after now and an end after now -- so an
      open end (0) never passes. */
  predicate ActiveAsWritten(e: FlagEvent, now: int) {
    e.valid && e.applies && e.gmtBegin != 0 && e.gmtBegin <= now && e.gmtEnd > now
  }

  /** The slot test its comment describes: the end is either open (TBD) or
      after now. */
  predicate Active(e: FlagEvent, now: int) {
    e.valid && e.applies && e.gmtBegin != 0 && e.gmtBegin <= now && (e.gmtEnd == 0 || e.gmtEnd > now)
  }

  /** The id of the first slot passing `firstActiveEvent`'s test as written, or -1. */
  function ActiveIdAsWritten(t: seq<FlagEvent>, now: int): (r: int)
    ensures (forall i :: 0 <= i < |t| ==> !ActiveAsWritten(t[i], now)) ==> r == -1
    // when some slot passes, the first one that does gives the id
    ensures (exists i :: 0 <= i < |t| && ActiveAsWritten(t[i], now)) ==>
              exists i :: 0 <= i < |t| && ActiveAsWritten(t[i], now) && t[i].eventID == r
                          && forall j :: 0 <= j < i ==> !ActiveAsWritten(t[j], now)
    ensures r != -1 ==> exists i :: 0 <= i < |t| && ActiveAsWritten(t[i], now) && t[i].eventID == r
                                    && forall j :: 0 <= j < i ==> !ActiveAsWritten(t[j], now)
  {
    var k := FirstWhere(t, (e: FlagEvent) => ActiveAsWritten(e, now));
    if k < 0 then -1 else t[k].eventID
  }

  /** The id of the first active slot, or -1. */
  function ActiveId(t: seq<FlagEvent>, now: int): (r: int)
    ensures (forall i :: 0 <= i < |t| ==> !Active(t[i], now)) ==> r == -1
    // when some slot is active, the first active one gives the id
    ensures (exists i :: 0 <= i < |t| && Active(t[i], now)) ==>
              exists i :: 0 <= i < |t| && Active(t[i], now) && t[i].eventID == r
                          && forall j :: 0 <= j < i ==> !Active(t[j], now)
    ensures r != -1 ==> exists i :: 0 <= i < |t| && Active(t[i], now) && t[i].eventID == r
                                    && forall j :: 0 <= j < i ==> !Active(t[j], now)
  {
    var k := FirstWhere(t, (e: FlagEvent) => Active(e, now));
    if k < 0 then -1 else t[k].eventID
  }

  /** The two tests differ exactly on open-ended events; for events with a
      positive beginning the corrected test is the resolver's "current". */
  lemma ActiveTestsDifferOnOpenEnds(e: FlagEvent, now: int)
    ensures ActiveAsWritten(e, now) ==> Active(e, now)
    ensures now >= 0 ==> (Active(e, now) && !ActiveAsWritten(e, now) <==> Active(e, now) && e.gmtEnd == 0)
    ensures e.gmtBegin > 0 ==> (Active(e, now) <==> ValidApplicable(e) && IsCurrent(e, now))
  {
  }

  /** An open-ended event that has begun puts the flag at HALF for the
      resolver, yet the as-written scan reports no active event while the
      corrected one reports it. */
  lemma OpenEndedEventMissed(now: int)
    requires now > 0
    ensures var e := FlagEvent(true, true, false, 7, 1, now, "US", "US", 0, "", "");
            InProgress([e], now) && ActiveIdAsWritten([e], now) == -1 && ActiveId([e], now) == 7
  {
    var e := FlagEvent(true, true, false, 7, 1, now, "US", "US", 0, "", "");
    assert [e][0].applies && IsCurrent([e][0], now);
    assert !ActiveAsWritten([e][0], now) && Active([e][0], now);
  }

  /** Receiving an event, reprocessing, purging and classifying the table
      never makes two slots share an id. */
  lemma ReceiveKeepsIdsUnique(t: seq<FlagEvent>, n: FlagEvent, cfg: Config, sun: SunModel, now: int)
    requires UniqueIds(t)
    ensures var s := Stored(t, n, cfg, now).table;
            var r := Purged(Reprocessed(s, cfg, sun), now);
            UniqueIds(s) && UniqueIds(Classified(r, now))
  {
    var s := Stored(t, n, cfg, now).table;
    StoredKeepsIdsUnique(t, n, cfg, now);
    var r := Reprocessed(s, cfg, sun);
    ReprocessKeepsIdsUnique(s, cfg, sun);
    KeptOrClearedKeepsIdsUnique(r, Purged(r, now));
    KeptOrClearedKeepsIdsUnique(Purged(r, now), Classified(Purged(r, now), now));
  }
}
