/** The records of the flag-event scheduler (EventManager.h): a flag event,
    the error codes, the scheduler configuration, the applicability rule and
    the fixed-width record the scheduler persists. */
module EventRecords {

  /** Number of event slots in the table (`EventManager::nEvents`). */
  const N_EVENTS: int := 20

  /** Flag code of the federal flag (`federalFlag`). */
  const FEDERAL_FLAG: string := "US"

  /** One flag event. `gmtBegin`/`gmtEnd` are `time_t` instants (seconds,
      UTC); an end of 0 means open-ended. A slot with `eventID == 0` is empty. */
  datatype FlagEvent = FlagEvent(
    valid: bool,        // parsing succeeded
    applies: bool,      // jurisdiction and flag match this unit
    isDelete: bool,     // the DEL field of the submission
    eventID: int,
    eventVer: int,
    gmtBegin: int,
    eventJur: string,
    eventFlag: string,
    gmtEnd: int,
    bmk: string,        // begin time mark, as received
    emk: string)        // end time mark, as received

  /** The default-initialised event, which is what `clearEvent` writes. */
  const NullEvent: FlagEvent := FlagEvent(false, false, false, 0, 0, 0, "", "", 0, "", "")

  /** Result codes of the scheduler (`enum ERC`). */
  datatype ERC = SUCCESS | GENFAIL | NOT_HF | BAD_SUNEVENT | NOT_SRSS | NOT_ZL | PARSE_ERROR | EVL_OVERFLOW

  /** The integer a caller receives for a code: its position in the enum. */
  function Code(e: ERC): (r: int)
    ensures 0 <= r < 8
    ensures r == 0 <==> e == SUCCESS
    ensures e == PARSE_ERROR ==> r == 6
    ensures e == EVL_OVERFLOW ==> r == 7
  {
    match e
    case SUCCESS => 0
    case GENFAIL => 1
    case NOT_HF => 2
    case BAD_SUNEVENT => 3
    case NOT_SRSS => 4
    case NOT_ZL => 5
    case PARSE_ERROR => 6
    case EVL_OVERFLOW => 7
  }

  /** Flag stations the scheduler orders. */
  datatype FlagStation = FLAG_FULL | FLAG_HALF | FLAG_UNKNOWN

  /** `staToLetter`: the one-letter display code of a station. */
  function StaToLetter(station: FlagStation): (r: string)
    ensures |r| == 1
    ensures r == "F" <==> station == FLAG_FULL
    ensures r == "H" <==> station == FLAG_HALF
    ensures r == "?" <==> station == FLAG_UNKNOWN
  {
    match station
    case FLAG_FULL => "F"
    case FLAG_HALF => "H"
    case FLAG_UNKNOWN => "?"
  }

  /** The scheduler configuration (the LAT, LNG, STD, DST, ZIP, FED, STA, FPR
      and FLG fields). The time-zone offset is held in whole hours, the unit
      in which the time-mark parser consumes it. */
  datatype Config = Config(
    upperFlag: string,
    upperFlagPrio: int,
    lat: real,
    lng: real,
    jurFederal: string,
    jurState: string,
    postalCode: string,
    tzOffset: int,
    doDST: bool)

  const DefaultConfig: Config := Config("", 0, 0.0, 0.0, "", "", "", 0, false)

  // ---------------------------------------------------------------------------
  // Applicability (EventManager.cpp:44-61)

  /** ASCII `tolower`. */
  function Lower(c: char): char {
    if 'A' <= c <= 'Z' then (c as int + 32) as char else c
  }

  /** `String::substring(0, n)`: the first `n` characters, clamped. */
  function Prefix(s: string, n: nat): (r: string)
    ensures |r| == if n <= |s| then n else |s|
    ensures r <= s
  {
    if n <= |s| then s[..n] else s
  }

  /** `String::equalsIgnoreCase`. */
  predicate EqualsIgnoreCase(a: string, b: string) {
    |a| == |b| && forall i :: 0 <= i < |a| ==> Lower(a[i]) == Lower(b[i])
  }

  /** `sub` is, ignoring case, a leading part of `pub`. */
  ghost predicate PrefixIgnoringCase(sub: string, pub: string) {
    |sub| <= |pub| && forall i :: 0 <= i < |sub| ==> Lower(sub[i]) == Lower(pub[i])
  }

  /** `jurMatch(pubJur, subJur)`: truncate the published jurisdiction to the
      length of the subscribed one and compare without case. */
  function JurMatch(pubJur: string, subJur: string): (r: bool)
    ensures r <==> PrefixIgnoringCase(subJur, pubJur)
    ensures subJur == "" ==> r
    ensures |subJur| > |pubJur| ==> !r
  {
    EqualsIgnoreCase(subJur, Prefix(pubJur, |subJur|))
  }

  /** `eventApplies`: the jurisdiction matches the federal or the state one,
      and the flag is the federal flag or the unit's top flag. */
  function EventApplies(e: FlagEvent, cfg: Config): (r: bool)
    ensures r <==> (PrefixIgnoringCase(cfg.jurFederal, e.eventJur) || PrefixIgnoringCase(cfg.jurState, e.eventJur))
                   && (e.eventFlag == FEDERAL_FLAG || e.eventFlag == cfg.upperFlag)
  {
    (JurMatch(e.eventJur, cfg.jurFederal) || JurMatch(e.eventJur, cfg.jurState))
    && (e.eventFlag == FEDERAL_FLAG || e.eventFlag == cfg.upperFlag)
  }

  /** A submitted event as it is stored: its `applies` flag recomputed. */
  function Admitted(e: FlagEvent, cfg: Config): (r: FlagEvent)
    ensures r.applies == EventApplies(e, cfg)
    ensures r.(applies := e.applies) == e
  {
    e.(applies := EventApplies(e, cfg))
  }

  // ---------------------------------------------------------------------------
  // Persisted layout (EventManager.h:13-26, 157-184)

  const S_EE_TYP: char := 'S'
  const S_EE_VER: int := 1

  /** Sizes of the character arrays of the persisted record, terminator included. */
  const JUR_SIZE: nat := 10
  const FLAG_SIZE: nat := 3
  const MARK_SIZE: nat := 25
  const POSTAL_SIZE: nat := 6

  /** A string as it comes back from a `char[size]` field: at most
      `size - 1` characters. */
  function Truncated(s: string, size: nat): (r: string)
    requires size > 0
    ensures |r| <= size - 1
    ensures r <= s
    ensures |s| < size ==> r == s
  {
    if |s| < size then s else s[..size - 1]
  }

  /** A configuration string as `putEE` stores it: `strncpy` of the whole
      field, so at most `size` characters, and a string that fills the field
      keeps no terminator inside it. */
  function FieldCopy(s: string, size: nat): (r: string)
    ensures |r| == if |s| <= size then |s| else size
    ensures r <= s
  {
    if |s| <= size then s else s[..size]
  }

  /** `s_EEevent`. */
  datatype EERecord = EERecord(
    eventID: int,
    eventVer: int,
    gmtBegin: int,
    gmtEnd: int,
    eventJur: string,
    eventFlag: string,
    bmk: string,
    emk: string)

  const BlankRecord: EERecord := EERecord(0, 0, 0, 0, "", "", "", "")

  /** `s_EEdata`: the scheduler block of the EEPROM. */
  datatype EEData = EEData(
    segType: char,
    segVers: int,
    upperFlag: string,
    upperFlagPrio: int,
    lat: real,
    lng: real,
    jurFederal: string,
    jurState: string,
    postalCode: string,
    tzOffset: int,
    doDST: bool,
    events: seq<EERecord>,
    putCount: int)

  /** The block carries the expected type tag and structure version. */
  predicate Loadable(ee: EEData) {
    ee.segType == S_EE_TYP && ee.segVers == S_EE_VER
  }

  /** What `putEE` writes for one slot: a valid slot's fields, truncated to
      their widths, or the blank record. */
  function ToRecord(e: FlagEvent): (r: EERecord)
    ensures !e.valid ==> r == BlankRecord
    ensures e.valid ==> r.eventID == e.eventID && r.eventVer == e.eventVer
                        && r.gmtBegin == e.gmtBegin && r.gmtEnd == e.gmtEnd
    ensures |r.eventJur| < JUR_SIZE && |r.eventFlag| < FLAG_SIZE
    ensures |r.bmk| < MARK_SIZE && |r.emk| < MARK_SIZE
  {
    if e.valid then
      EERecord(e.eventID, e.eventVer, e.gmtBegin, e.gmtEnd,
               Truncated(e.eventJur, JUR_SIZE), Truncated(e.eventFlag, FLAG_SIZE),
               Truncated(e.bmk, MARK_SIZE), Truncated(e.emk, MARK_SIZE))
    else BlankRecord
  }

  /** What `getEE` makes of slot `prior` from record `r`: a positive id loads
      the record's fields and marks the slot valid (its `applies` and
      `isDelete` flags are left as they were); any other id empties the slot. */
  function FromRecord(prior: FlagEvent, r: EERecord): (e: FlagEvent)
    ensures r.eventID <= 0 ==> e == NullEvent
    ensures r.eventID > 0 ==> e.valid && e.eventID == r.eventID && e.eventVer == r.eventVer
                              && e.gmtBegin == r.gmtBegin && e.gmtEnd == r.gmtEnd
                              && e.applies == prior.applies && e.isDelete == prior.isDelete
  {
    if r.eventID > 0 then
      prior.(valid := true, eventID := r.eventID, eventVer := r.eventVer,
             gmtBegin := r.gmtBegin, gmtEnd := r.gmtEnd,
             eventJur := r.eventJur, eventFlag := r.eventFlag, bmk := r.bmk, emk := r.emk)
    else NullEvent
  }

  /** The block `putEE` writes for a configuration and a table, stamped
      with the write counter `count`. */
  function Block(cfg: Config, table: seq<FlagEvent>, count: int): (r: EEData)
    ensures Loadable(r) && r.putCount == count
    ensures |r.events| == |table|
    ensures forall i :: 0 <= i < |table| ==> r.events[i] == ToRecord(table[i])
    // the numeric settings are stored as they are
    ensures r.upperFlagPrio == cfg.upperFlagPrio && r.lat == cfg.lat && r.lng == cfg.lng
            && r.tzOffset == cfg.tzOffset && r.doDST == cfg.doDST
    // each string keeps its leading characters, as many as its field holds
    ensures r.upperFlag <= cfg.upperFlag && |r.upperFlag| == Min(|cfg.upperFlag|, FLAG_SIZE)
    ensures r.jurFederal <= cfg.jurFederal && |r.jurFederal| == Min(|cfg.jurFederal|, JUR_SIZE)
    ensures r.jurState <= cfg.jurState && |r.jurState| == Min(|cfg.jurState|, JUR_SIZE)
    ensures r.postalCode <= cfg.postalCode && |r.postalCode| == Min(|cfg.postalCode|, POSTAL_SIZE)
    // a configuration whose strings fit is stored whole
    ensures FitsBlock(cfg) ==> LoadedConfig(r) == cfg
  {
    EEData(S_EE_TYP, S_EE_VER,
           FieldCopy(cfg.upperFlag, FLAG_SIZE), cfg.upperFlagPrio, cfg.lat, cfg.lng,
           FieldCopy(cfg.jurFederal, JUR_SIZE), FieldCopy(cfg.jurState, JUR_SIZE),
           FieldCopy(cfg.postalCode, POSTAL_SIZE), cfg.tzOffset, cfg.doDST,
           seq(|table|, i requires 0 <= i < |table| => ToRecord(table[i])),
           count)
  }

  /** The write counter `putEE` starts from: the scheduler's own, unless the
      block found in EEPROM has the wrong tag or version, which restarts it
      from 0. */
  function CountBase(ee: EEData, putCount: int): int {
    if Loadable(ee) then putCount else 0
  }

  /** The block `putEE` writes over the block `ee` found in EEPROM: the
      counter is incremented once per write. */
  function Saved(ee: EEData, putCount: int, cfg: Config, table: seq<FlagEvent>): (r: EEData)
    ensures Loadable(r)
    ensures |r.events| == |table|
    ensures forall i :: 0 <= i < |table| ==> r.events[i] == ToRecord(table[i])
    ensures r.putCount == (if Loadable(ee) then putCount else 0) + 1
  {
    Block(cfg, table, CountBase(ee, putCount) + 1)
  }

  function Min(a: nat, b: nat): nat {
    if a <= b then a else b
  }

  /** The configuration `getEE` restores from a block. */
  function LoadedConfig(ee: EEData): (c: Config)
    ensures c.upperFlag == ee.upperFlag && c.upperFlagPrio == ee.upperFlagPrio
    ensures c.lat == ee.lat && c.lng == ee.lng && c.tzOffset == ee.tzOffset && c.doDST == ee.doDST
    ensures c.jurFederal == ee.jurFederal && c.jurState == ee.jurState && c.postalCode == ee.postalCode
  {
    Config(ee.upperFlag, ee.upperFlagPrio, ee.lat, ee.lng, ee.jurFederal, ee.jurState,
           ee.postalCode, ee.tzOffset, ee.doDST)
  }

  /** The table `getEE` restores from a block over the table `prior`. */
  function LoadedTable(prior: seq<FlagEvent>, ee: EEData): (r: seq<FlagEvent>)
    requires |ee.events| == |prior|
    ensures |r| == |prior|
    ensures forall i :: 0 <= i < |prior| ==> r[i] == FromRecord(prior[i], ee.events[i])
  {
    seq(|prior|, i requires 0 <= i < |prior| => FromRecord(prior[i], ee.events[i]))
  }

  /** Every string of the event already fits its persisted field. */
  predicate FitsRecord(e: FlagEvent) {
    |e.eventJur| < JUR_SIZE && |e.eventFlag| < FLAG_SIZE && |e.bmk| < MARK_SIZE && |e.emk| < MARK_SIZE
  }

  /** Every string of the configuration already fits its persisted field. */
  predicate FitsBlock(cfg: Config) {
    |cfg.upperFlag| < FLAG_SIZE && |cfg.jurFederal| < JUR_SIZE && |cfg.jurState| < JUR_SIZE
    && |cfg.postalCode| < POSTAL_SIZE
  }

  /** A table slot as the scheduler keeps it: empty, or a valid event with a
      positive id. */
  predicate WellFormedSlot(e: FlagEvent) {
    e == NullEvent || (e.valid && e.eventID > 0)
  }

  /** Save then load, slot by slot: a valid slot with a positive id keeps its
      id, version and instants and gets its strings back truncated to 9, 2,
      24 and 24 characters; an invalid slot comes back as the default event. */
  lemma SaveLoadSlot(prior: FlagEvent, e: FlagEvent)
    ensures var l := FromRecord(prior, ToRecord(e));
            (e.valid && e.eventID > 0 ==>
               l.valid && l.eventID == e.eventID && l.eventVer == e.eventVer
               && l.gmtBegin == e.gmtBegin && l.gmtEnd == e.gmtEnd
               && l.eventJur == Truncated(e.eventJur, JUR_SIZE)
               && l.eventFlag == Truncated(e.eventFlag, FLAG_SIZE)
               && l.bmk == Truncated(e.bmk, MARK_SIZE) && l.emk == Truncated(e.emk, MARK_SIZE))
            && (!e.valid ==> l == NullEvent)
  {
  }

  /** Saving a table and loading it back over itself gives the same table and
      configuration when every slot is well formed and every string fits its
      field; so the applicability of every slot is unchanged as well. */
  lemma {:induction false} SaveLoadRoundTrip(ee: EEData, putCount: int, cfg: Config, table: seq<FlagEvent>)
    requires forall i :: 0 <= i < |table| ==> WellFormedSlot(table[i]) && FitsRecord(table[i])
    requires FitsBlock(cfg)
    ensures var saved := Saved(ee, putCount, cfg, table);
            Loadable(saved)
            && LoadedTable(table, saved) == table
            && LoadedConfig(saved) == cfg
            && forall i :: 0 <= i < |table| ==>
                 EventApplies(LoadedTable(table, saved)[i], LoadedConfig(saved)) == EventApplies(table[i], cfg)
  {
    var saved := Saved(ee, putCount, cfg, table);
    var loaded := LoadedTable(table, saved);
    forall i | 0 <= i < |table|
      ensures loaded[i] == table[i]
    {
      var e := table[i];
      if e != NullEvent {
        assert ToRecord(e) == EERecord(e.eventID, e.eventVer, e.gmtBegin, e.gmtEnd,
                                      e.eventJur, e.eventFlag, e.bmk, e.emk);
      }
    }
    assert loaded == table;
  }
}
