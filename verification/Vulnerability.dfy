/**
 * Consents, and the vulnerability records that rest on them
 * (packages/core/src/case-file).
 */
module Vulnerability {
  import opened Prelude

  type Id = string

  datatype Consent = Consent(
    clientId: Id,
    condition: Option<string>,
    granted: bool,
    grantedAt: int,
    expiresAt: Option<int>,
    withdrawnAt: Option<int>)

  datatype Driver = Health | LifeEvent | Resilience | Capability
  datatype Severity = Possible | Present | Significant
  datatype Status = Active | Resolved | Superseded | Withdrawn

  /** A record without a driver says that an assessment found nothing. */
  datatype Record = Record(
    clientId: Id,
    driver: Option<Driver>,
    severity: Option<Severity>,
    special: bool,
    consentId: Option<Id>,
    detail: Option<string>,
    disclosable: bool,
    wording: Option<string>,
    status: Status)

  type Consents = map<Id, Consent>
  type Records = map<Id, Record>

  datatype Gap = NoConsent | WrongClient | Refused | TakenBack | Expired | NoCondition

  datatype FileError =
    | ConsentRequired(gap: Gap)
    | WordingMissing
    | ContradictsFile
    | TextMissing
    | NotFound
    | RejectedByDatabase

  datatype Closing = AsResolved | AsWithdrawn

  // ---------------------------------------------------------------------------
  // Text
  // ---------------------------------------------------------------------------

  predicate Space(c: char) { c == ' ' || c == '\t' || c == '\n' || c == '\r' }

  function Trim(s: string): (t: string) {
    if |s| > 0 && Space(s[0]) then Trim(s[1..])
    else if |s| > 0 && Space(s[|s| - 1]) then Trim(s[..|s| - 1])
    else s
  }

  predicate Blank(s: Option<string>) { s.None? || Trim(s.value) == "" }

  /** `coalesce(btrim(condition), '') = ''`, which strips spaces only. */
  predicate BlankColumn(s: Option<string>) { s.None? || forall i :: 0 <= i < |s.value| ==> s.value[i] == ' ' }

  lemma {:induction false} TrimmedIsNotBlank(s: string)
    ensures Trim(s) != "" ==> !BlankColumn(Some(Trim(s)))
  {
    if |s| > 0 && Space(s[0]) {
      TrimmedIsNotBlank(s[1..]);
    } else if |s| > 0 && Space(s[|s| - 1]) {
      TrimmedIsNotBlank(s[..|s| - 1]);
    }
  }

  // ---------------------------------------------------------------------------
  // Which consent permits special-category processing
  // ---------------------------------------------------------------------------

  predicate Permits(c: Consent, clientId: Id, now: int) {
    c.clientId == clientId && c.granted && c.withdrawnAt.None?
    && (c.expiresAt.None? || c.expiresAt.value > now) && !BlankColumn(c.condition)
  }

  /** An empty id counts as none given. */
  predicate Named(consentId: Option<Id>) { consentId.Some? && consentId.value != "" }

  function Candidates(consents: Consents, clientId: Id, consentId: Option<Id>, now: int): set<Id> {
    set id | id in consents && Permits(consents[id], clientId, now) && (Named(consentId) ==> id == consentId.value)
  }

  /** The reason given is the first one, in this order, that is true. */
  predicate GapHolds(consents: Consents, clientId: Id, consentId: Option<Id>, now: int, gap: Gap) {
    if !Named(consentId) || consentId.value !in consents then gap == NoConsent
    else
      var c := consents[consentId.value];
      if c.clientId != clientId then gap == WrongClient
      else if !c.granted then gap == Refused
      else if c.withdrawnAt.Some? then gap == TakenBack
      else if c.expiresAt.Some? && c.expiresAt.value <= now then gap == Expired
      else gap == NoCondition && BlankColumn(c.condition)
  }

  /** The latest granted of those that permit. */
  method ConsentPermitting(consents: Consents, clientId: Id, consentId: Option<Id>, now: int) returns (r: Option<Id>)
    ensures r.None? <==> Candidates(consents, clientId, consentId, now) == {}
    ensures r.Some? ==> r.value in Candidates(consents, clientId, consentId, now)
    ensures r.Some? ==> forall id :: id in Candidates(consents, clientId, consentId, now) ==>
      consents[id].grantedAt <= consents[r.value].grantedAt
  {
    var todo := Candidates(consents, clientId, consentId, now);
    r := None;
    while todo != {}
      invariant todo <= Candidates(consents, clientId, consentId, now)
      invariant r.Some? ==> r.value in Candidates(consents, clientId, consentId, now)
      invariant forall id :: id in Candidates(consents, clientId, consentId, now) - todo ==>
        r.Some? && consents[id].grantedAt <= consents[r.value].grantedAt
      decreases todo
    {
      var id :| id in todo;
      if r.None? || consents[r.value].grantedAt < consents[id].grantedAt { r := Some(id); }
      todo := todo - {id};
    }
  }

  method RequireConsent(consents: Consents, clientId: Id, consentId: Option<Id>, now: int) returns (r: Result<Id, Gap>)
    ensures r.Ok? <==> Candidates(consents, clientId, consentId, now) != {}
    ensures r.Ok? ==> r.value in Candidates(consents, clientId, consentId, now)
    ensures r.Err? ==> GapHolds(consents, clientId, consentId, now, r.error)
  {
    var permitting := ConsentPermitting(consents, clientId, consentId, now);
    if permitting.Some? { return Ok(permitting.value); }
    if !Named(consentId) || consentId.value !in consents { return Err(NoConsent); }
    var c := consents[consentId.value];
    assert consentId.value !in Candidates(consents, clientId, consentId, now);
    if c.clientId != clientId { return Err(WrongClient); }
    if !c.granted { return Err(Refused); }
    if c.withdrawnAt.Some? { return Err(TakenBack); }
    if c.expiresAt.Some? && c.expiresAt.value <= now { return Err(Expired); }
    return Err(NoCondition);
  }

  // ---------------------------------------------------------------------------
  // What each statement does to the tables
  // ---------------------------------------------------------------------------

  predicate FoundNothing(r: Record) { r.driver.None? && r.status == Active }

  predicate FoundSomething(r: Record) { r.driver.Some? && r.status == Active }

  function SupersedeNothing(records: Records, clientId: Id): Records {
    map id | id in records ::
      if records[id].clientId == clientId && FoundNothing(records[id]) then records[id].(status := Superseded)
      else records[id]
  }

  function Captured(clientId: Id, condition: Option<string>, granted: bool, now: int, expiresAt: Option<int>): Consent {
    Consent(clientId, if Blank(condition) then None else Some(Trim(condition.value)), granted, now, expiresAt, None)
  }

  function WithdrawRow(consents: Consents, id: Id, now: int): Consents
    requires id in consents
  {
    consents[id := consents[id].(withdrawnAt := Some(now))]
  }

  datatype Changes = Changes(
    severity: Option<Severity>,
    detail: Option<Option<string>>,
    consentId: Option<Id>,
    disclosable: Option<bool>,
    wording: Option<string>)

  function Amended(r: Record, changes: Changes): Record {
    r.(severity := if changes.severity.Some? then changes.severity else r.severity,
       detail := if changes.detail.Some? then changes.detail.value else r.detail,
       consentId := if changes.consentId.Some? then changes.consentId else r.consentId,
       disclosable := if changes.disclosable.Some? then changes.disclosable.value else r.disclosable,
       wording := if changes.wording.Some? then changes.wording else r.wording)
  }

  /** The table's own checks: severity goes with a driver, special goes with a consent, consents exist. */
  predicate RowAllowed(r: Record, consents: Consents) {
    (r.driver.None? <==> r.severity.None?) && (r.special ==> r.consentId.Some?)
    && (r.consentId.Some? ==> r.consentId.value in consents)
  }

  // ---------------------------------------------------------------------------
  // What the file always satisfies
  // ---------------------------------------------------------------------------

  /** An active "found nothing" is the only active record of its client. */
  ghost predicate NoContradiction(records: Records) {
    forall a, b :: (a in records && b in records && FoundNothing(records[a]) && records[b].status == Active
                    && records[a].clientId == records[b].clientId) ==> a == b
  }

  predicate WellFormed(r: Record) {
    (r.driver.None? <==> r.severity.None?)
    && (r.driver == Some(Health) ==> r.special)
    && (r.disclosable ==> !Blank(r.wording))
  }

  /** The consent was good for this client at the time, whatever happened to it afterwards. */
  predicate LiveAt(c: Consent, clientId: Id, at: int) {
    c.clientId == clientId && c.granted && !BlankColumn(c.condition)
    && (c.expiresAt.None? || c.expiresAt.value > at) && (c.withdrawnAt.None? || c.withdrawnAt.value >= at)
  }

  /** One insertion or amendment of a special-category record. */
  datatype Write = Write(recordId: Id, clientId: Id, consentId: Id, at: int)

  predicate Backed(w: Write, consents: Consents) {
    w.consentId in consents && LiveAt(consents[w.consentId], w.clientId, w.at)
  }

  ghost predicate EveryWriteBacked(writes: seq<Write>, consents: Consents, clock: int) {
    forall i :: 0 <= i < |writes| ==> Backed(writes[i], consents) && writes[i].at <= clock
  }

  predicate WrittenAs(id: Id, r: Record, w: Write) {
    w.recordId == id && w.clientId == r.clientId && r.consentId == Some(w.consentId)
  }

  ghost predicate EverySpecialWritten(records: Records, writes: seq<Write>) {
    forall id :: id in records && records[id].special ==> exists w :: w in writes && WrittenAs(id, records[id], w)
  }

  ghost predicate Consistent(consents: Consents, records: Records, writes: seq<Write>, clock: int) {
    NoContradiction(records) && "" !in consents
    && (forall id :: id in records ==> WellFormed(records[id]))
    && EveryWriteBacked(writes, consents, clock)
    && EverySpecialWritten(records, writes)
  }

  /** No record disappears, changes client or driver, or stops being special. */
  predicate KeepsRecords(before: Records, after: Records) {
    forall id :: id in before ==>
      id in after && after[id].clientId == before[id].clientId
      && after[id].driver == before[id].driver && after[id].special == before[id].special
  }

  /** What it means for the file: a special-category record names a granted Article 9 consent of its own client. */
  lemma SpecialNamesItsConsent(consents: Consents, records: Records, writes: seq<Write>, clock: int, id: Id)
    requires Consistent(consents, records, writes, clock) && id in records
    requires records[id].special || records[id].driver == Some(Health)
    ensures records[id].consentId.Some? && records[id].consentId.value in consents
    ensures var c := consents[records[id].consentId.value];
      c.granted && c.clientId == records[id].clientId && !BlankColumn(c.condition)
  {
    var w :| w in writes && WrittenAs(id, records[id], w);
    assert Backed(w, consents);
  }

  // ---------------------------------------------------------------------------
  // Each change keeps it so
  // ---------------------------------------------------------------------------

  lemma CaptureKeeps(consents: Consents, records: Records, writes: seq<Write>, clock: int, id: Id, c: Consent, now: int)
    requires Consistent(consents, records, writes, clock) && id !in consents && id != "" && clock <= now
    ensures Consistent(consents[id := c], records, writes, now)
  {
    forall i | 0 <= i < |writes| ensures Backed(writes[i], consents[id := c]) {
      assert Backed(writes[i], consents);
    }
  }

  lemma WithdrawKeeps(consents: Consents, records: Records, writes: seq<Write>, clock: int, id: Id, now: int)
    requires Consistent(consents, records, writes, clock) && clock <= now
    requires id in consents && consents[id].withdrawnAt.None?
    ensures Consistent(WithdrawRow(consents, id, now), records, writes, now)
  {
    forall i | 0 <= i < |writes| ensures Backed(writes[i], WithdrawRow(consents, id, now)) {
      assert Backed(writes[i], consents);
    }
  }

  /** A row inserted or amended, with its entry in the log if it is special. */
  function Logged(writes: seq<Write>, id: Id, r: Record, now: int): seq<Write> {
    if r.special && r.consentId.Some? then writes + [Write(id, r.clientId, r.consentId.value, now)] else writes
  }

  lemma WriteKeeps(
    consents: Consents, records: Records, records': Records, writes: seq<Write>, clock: int, id: Id, r: Record, now: int)
    requires Consistent(consents, records, writes, clock) && clock <= now
    requires WellFormed(r) && NoContradiction(records')
    requires r.special ==>
      r.consentId.Some? && r.consentId.value in consents && LiveAt(consents[r.consentId.value], r.clientId, now)
    requires id in records' && records'[id] == r
    requires forall k :: k in records' && k != id ==>
      k in records && records'[k] == records[k].(status := records'[k].status)
    ensures Consistent(consents, records', Logged(writes, id, r, now), now)
  {
    var writes' := Logged(writes, id, r, now);
    forall k | k in records' && records'[k].special ensures exists w :: w in writes' && WrittenAs(k, records'[k], w) {
      if k == id {
        assert WrittenAs(id, r, writes'[|writes|]);
      } else {
        var w :| w in writes && WrittenAs(k, records[k], w);
        assert w in writes' && WrittenAs(k, records'[k], w);
      }
    }
  }

  lemma AmendKeeps(
    consents: Consents, records: Records, writes: seq<Write>, clock: int, id: Id, r: Record, now: int)
    requires Consistent(consents, records, writes, clock) && clock <= now && id in records
    requires r == records[id].(severity := r.severity, detail := r.detail, consentId := r.consentId,
                               disclosable := r.disclosable, wording := r.wording)
    requires RowAllowed(r, consents) && (r.disclosable ==> !Blank(r.wording))
    requires r.special ==> Candidates(consents, r.clientId, r.consentId, now) != {}
    ensures Consistent(consents, records[id := r], Logged(writes, id, r, now), now)
  {
    var records' := records[id := r];
    if r.special {
      var k :| k in Candidates(consents, r.clientId, r.consentId, now);
    }
    assert NoContradiction(records');
    WriteKeeps(consents, records, records', writes, clock, id, r, now);
  }

  lemma InsertKeeps(
    consents: Consents, records: Records, writes: seq<Write>, clock: int, id: Id, r: Record, now: int)
    requires Consistent(consents, records, writes, clock) && clock <= now && id !in records
    requires FoundSomething(r) && WellFormed(r)
    requires r.special ==>
      r.consentId.Some? && r.consentId.value in consents && LiveAt(consents[r.consentId.value], r.clientId, now)
    ensures Consistent(consents, SupersedeNothing(records, r.clientId)[id := r], Logged(writes, id, r, now), now)
    ensures KeepsRecords(records, SupersedeNothing(records, r.clientId)[id := r])
  {
    var records' := SupersedeNothing(records, r.clientId)[id := r];
    assert NoContradiction(records');
    WriteKeeps(consents, records, records', writes, clock, id, r, now);
  }

  /** An assessment that found nothing, for a client with nothing active on file. */
  lemma NothingKeeps(
    consents: Consents, records: Records, writes: seq<Write>, clock: int, id: Id, r: Record, now: int)
    requires Consistent(consents, records, writes, clock) && clock <= now && id !in records
    requires WellFormed(r) && !r.special
    requires forall k :: k in records && records[k].clientId == r.clientId ==> records[k].status != Active
    ensures Consistent(consents, records[id := r], writes, now) && KeepsRecords(records, records[id := r])
  {
    var after := records[id := r];
    assert NoContradiction(after);
    assert forall k :: k in after && after[k].special ==> k in records && after[k] == records[k];
  }

  // ---------------------------------------------------------------------------
  // The program
  // ---------------------------------------------------------------------------

  datatype Input = Input(
    clientId: Id,
    driver: Driver,
    severity: Severity,
    forcedSpecial: bool,
    consentId: Option<Id>,
    detail: Option<string>,
    disclosable: bool,
    wording: Option<string>)

  predicate IsSpecial(input: Input) { input.driver == Health || input.forcedSpecial }

  class ClientFile {
    var consents: Consents
    var records: Records
    ghost var writes: seq<Write>
    ghost var clock: int

    ghost predicate Valid()
      reads this
    {
      Consistent(consents, records, writes, clock)
    }

    constructor (now: int)
      ensures Valid() && consents == map[] && records == map[] && writes == [] && clock == now
    {
      consents, records, writes, clock := map[], map[], [], now;
    }

    /** `id` is the fresh identifier the database hands out. */
    method CaptureConsent(
      id: Id, now: int, clientId: Id, purpose: string, statement: string, condition: Option<string>,
      granted: bool, expiresAt: Option<int>) returns (r: Result<Id, FileError>)
      requires Valid() && id !in consents && id != "" && clock <= now
      modifies this
      ensures Valid() && clock == now && records == old(records) && writes == old(writes)
      ensures r.Err? <==> Trim(statement) == "" || Trim(purpose) == ""
      ensures r.Err? ==> r == Err(TextMissing) && consents == old(consents)
      ensures r.Ok? ==>
        r == Ok(id) && consents == old(consents)[id := Captured(clientId, condition, granted, now, expiresAt)]
    {
      CaptureKeeps(consents, records, writes, clock, id, Captured(clientId, condition, granted, now, expiresAt), now);
      clock := now;
      if Trim(statement) == "" || Trim(purpose) == "" { return Err(TextMissing); }
      consents := consents[id := Captured(clientId, condition, granted, now, expiresAt)];
      return Ok(id);
    }

    /** Withdraws once: a later call leaves the first date as it was. */
    method WithdrawConsent(id: Id, now: int, reason: string) returns (error: Option<FileError>)
      requires Valid() && clock <= now
      modifies this
      ensures Valid() && clock == now && records == old(records) && writes == old(writes)
      ensures error == if Trim(reason) == "" then Some(TextMissing) else if id !in old(consents) then Some(NotFound) else None
      ensures consents ==
        if error.None? && old(consents)[id].withdrawnAt.None? then WithdrawRow(old(consents), id, now) else old(consents)
    {
      clock := now;
      if Trim(reason) == "" { return Some(TextMissing); }
      if id !in consents { return Some(NotFound); }
      if consents[id].withdrawnAt.None? {
        WithdrawKeeps(consents, records, writes, old(clock), id, now);
        consents := WithdrawRow(consents, id, now);
      }
      return None;
    }

    method RecordVulnerability(id: Id, now: int, input: Input) returns (r: Result<Id, FileError>)
      requires Valid() && id !in records && clock <= now
      modifies this
      ensures Valid() && clock == now && consents == old(consents) && KeepsRecords(old(records), records)
      ensures r.Ok? <==>
        (IsSpecial(input) ==> Candidates(consents, input.clientId, input.consentId, now) != {})
        && (input.disclosable ==> !Blank(input.wording))
      ensures r.Err? ==> records == old(records) && writes == old(writes)
      ensures r.Err? ==>
        if IsSpecial(input) && Candidates(consents, input.clientId, input.consentId, now) == {}
        then r.error.ConsentRequired? && GapHolds(consents, input.clientId, input.consentId, now, r.error.gap)
        else r.error == WordingMissing
      ensures r.Ok? ==>
        r == Ok(id) && id in records
        && records == SupersedeNothing(old(records), input.clientId)[id := records[id]]
        && records[id] == Record(input.clientId, Some(input.driver), Some(input.severity), IsSpecial(input),
                                 records[id].consentId, input.detail, input.disclosable, input.wording, Active)
        && (if IsSpecial(input)
            then records[id].consentId.Some?
                 && records[id].consentId.value in Candidates(consents, input.clientId, input.consentId, now)
            else records[id].consentId.None?)
        && writes == Logged(old(writes), id, records[id], now)
    {
      clock := now;
      var consentId: Option<Id> := None;
      if IsSpecial(input) {
        var permitting := RequireConsent(consents, input.clientId, input.consentId, now);
        if permitting.Err? { return Err(ConsentRequired(permitting.error)); }
        consentId := Some(permitting.value);
      }
      if input.disclosable && Blank(input.wording) { return Err(WordingMissing); }
      var row := Record(input.clientId, Some(input.driver), Some(input.severity), IsSpecial(input), consentId,
                        input.detail, input.disclosable, input.wording, Active);
      InsertKeeps(consents, records, writes, old(clock), id, row, now);
      records := SupersedeNothing(records, input.clientId);
      records := records[id := row];
      writes := Logged(writes, id, row, now);
      return Ok(id);
    }

    /** Saying twice that nothing was found gives back the first record. */
    method RecordNoIndicators(id: Id, now: int, clientId: Id, detail: Option<string>) returns (r: Result<Id, FileError>)
      requires Valid() && id !in records && clock <= now
      modifies this
      ensures Valid() && clock == now && consents == old(consents) && writes == old(writes)
      ensures KeepsRecords(old(records), records)
      ensures r.Err? <==> exists k :: k in old(records) && old(records)[k].clientId == clientId && FoundSomething(old(records)[k])
      ensures r.Err? ==> r == Err(ContradictsFile) && records == old(records)
      ensures r.Ok? ==>
        r.value in records && records[r.value].clientId == clientId && FoundNothing(records[r.value])
        && (if r.value in old(records) then records == old(records)
            else r.value == id && records == old(records)[id := Record(clientId, None, None, false, None, detail, false, None, Active)]
                 && forall k :: k in old(records) && old(records)[k].clientId == clientId ==> old(records)[k].status != Active)
    {
      clock := now;
      var live := set k | k in records && records[k].clientId == clientId && FoundSomething(records[k]);
      if live != {} {
        var k :| k in live;
        return Err(ContradictsFile);
      }
      var existing := set k | k in records && records[k].clientId == clientId && FoundNothing(records[k]);
      if existing != {} {
        var k :| k in existing;
        return Ok(k);
      }
      var row := Record(clientId, None, None, false, None, detail, false, None, Active);
      forall k | k in records && records[k].clientId == clientId ensures records[k].status != Active {
        assert k !in live && k !in existing;
      }
      NothingKeeps(consents, records, writes, old(clock), id, row, now);
      records := records[id := row];
      return Ok(id);
    }

    /** A special-category record can only be changed under a consent that permits it now. */
    method AmendVulnerability(id: Id, now: int, changes: Changes, reason: string) returns (error: Option<FileError>)
      requires Valid() && clock <= now
      modifies this
      ensures Valid() && clock == now && consents == old(consents) && KeepsRecords(old(records), records)
      ensures error.None? <==>
        Trim(reason) != "" && id in old(records)
        && var was, row := old(records)[id], Amended(old(records)[id], changes);
           (was.special ==> Candidates(consents, was.clientId, row.consentId, now) != {})
           && (row.disclosable ==> !Blank(row.wording)) && RowAllowed(row, consents)
      ensures error.Some? ==> records == old(records) && writes == old(writes)
      ensures error.Some? && error.value.ConsentRequired? ==>
        id in old(records)
        && GapHolds(consents, old(records)[id].clientId, Amended(old(records)[id], changes).consentId, now, error.value.gap)
      ensures error.None? ==>
        records == old(records)[id := Amended(old(records)[id], changes)]
        && writes == Logged(old(writes), id, records[id], now)
    {
      clock := now;
      if Trim(reason) == "" { return Some(TextMissing); }
      if id !in records { return Some(NotFound); }
      var was := records[id];
      var row := Amended(was, changes);
      if was.special {
        var permitting := RequireConsent(consents, was.clientId, row.consentId, now);
        if permitting.Err? { return Some(ConsentRequired(permitting.error)); }
      }
      if row.disclosable && Blank(row.wording) { return Some(WordingMissing); }
      if !RowAllowed(row, consents) { return Some(RejectedByDatabase); }
      AmendKeeps(consents, records, writes, old(clock), id, row, now);
      records := records[id := row];
      writes := Logged(writes, id, row, now);
      return None;
    }

    method CloseVulnerability(id: Id, now: int, closing: Closing, reason: string) returns (error: Option<FileError>)
      requires Valid() && clock <= now
      modifies this
      ensures Valid() && clock == now && consents == old(consents) && writes == old(writes)
      ensures KeepsRecords(old(records), records)
      ensures error == if Trim(reason) == "" then Some(TextMissing) else if id !in old(records) then Some(NotFound) else None
      ensures records == if error.Some? then old(records) else
        old(records)[id := old(records)[id].(status := if closing == AsResolved then Resolved else Withdrawn)]
    {
      clock := now;
      if Trim(reason) == "" { return Some(TextMissing); }
      if id !in records { return Some(NotFound); }
      records := records[id := records[id].(status := if closing == AsResolved then Resolved else Withdrawn)];
      return None;
    }
  }

  /** A consent just captured with an Article 9 condition permits recording under it until it expires. */
  lemma CapturedPermits(
    consents: Consents, id: Id, clientId: Id, condition: string, at: int, expiresAt: Option<int>, now: int)
    requires id != "" && Trim(condition) != ""
    ensures var after := consents[id := Captured(clientId, Some(condition), true, at, expiresAt)];
      Candidates(after, clientId, Some(id), now) == (if expiresAt.None? || now < expiresAt.value then {id} else {})
  {
    TrimmedIsNotBlank(condition);
  }
}
