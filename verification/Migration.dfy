/**
 * Running a migration and reconciling it (packages/migration/src/runner.ts): one
 * record after the other, with a ledger of outcomes and a map of new ids.
 */
module Migration {
  import opened Prelude
  import opened MigrationPlan

  datatype Key = Key(entity: Entity, sourceId: string)

  datatype Outcome = Created | Updated | Skipped | Failed | Deferred

  datatype Reason = MissingId | Filtered | Unbuildable | DryRun | NothingToWrite | Refused | Written

  /** What was recorded about one source record. */
  datatype Entry = Entry(key: Key, outcome: Outcome, reason: Reason, targetId: Option<string>)

  type Target = map<string, Value>

  datatype Row = Row(table: string, values: Target, id: string)

  datatype Mode = DryRunMode | LiveMode

  /**
   * What is not decided here: the value a field's transform gives, and whether the database takes a row
   * and under which identifier, which may differ from one record to the next.
   */
  datatype World = World(
    apply: (Field, SourceRecord) -> Result<Value, string>,
    insert: (string, Target, nat) -> Option<string>)

  ghost predicate IdsNotEmpty(world: World) { forall table, target, n :: world.insert(table, target, n) != Some("") }

  // ---------------------------------------------------------------------------
  // One record
  // ---------------------------------------------------------------------------

  /** `String(record[field] ?? '')`. */
  function Shown(record: SourceRecord, field: string): string {
    if field !in record then ""
    else match record[field]
      case Null => ""
      case Text(s) => s
      case Other(shown) => shown
  }

  predicate MatchesFilter(record: SourceRecord, filter: map<string, set<Value>>) {
    forall key :: key in filter ==> key in record && record[key] in filter[key]
  }

  predicate IsReference(target: string) { |target| >= 3 && target[|target| - 3..] == "_id" }

  /** The entity a column like `client_id` refers to. */
  function Referred(target: string): Entity
    requires IsReference(target)
  {
    target[..|target| - 3]
  }

  /** A source id that has been migrated becomes the new id; anything else stays as it is. */
  function Resolve(target: string, value: Value, identity: map<Key, string>): Value {
    if IsReference(target) && value.Text? && value.s != "" && Key(Referred(target), value.s) in identity
       && identity[Key(Referred(target), value.s)] != ""
    then Text(identity[Key(Referred(target), value.s)]) else value
  }

  function BuildField(field: Field, record: SourceRecord, identity: map<Key, string>, world: World): Result<Value, string> {
    var raw := world.apply(field, record);
    if raw.Err? then raw
    else
      var value := Resolve(field.target, raw.value, identity);
      if field.required && value in {Null, Text("")} then Err("required") else Ok(value)
  }

  function BuildFields(fields: seq<Field>, record: SourceRecord, identity: map<Key, string>, world: World)
    : Result<Target, string>
  {
    if |fields| == 0 then Ok(map[])
    else
      var last := fields[|fields| - 1];
      var init := BuildFields(fields[..|fields| - 1], record, identity, world);
      if init.Err? then init
      else
        var value := BuildField(last, record, identity, world);
        if value.Err? then Err(value.error) else Ok(init.value[last.target := value.value])
  }

  // ---------------------------------------------------------------------------
  // A run as a function of what it reads
  // ---------------------------------------------------------------------------

  /** `log` has one entry for each source record so far; the rest is what the run stores. */
  datatype State = State(ledger: map<Key, Entry>, identity: map<Key, string>, written: seq<Row>, log: seq<Entry>)

  const EMPTY := State(map[], map[], [], [])

  /** `INSERT … ON CONFLICT DO NOTHING`: the first entry for a source id stays. */
  function Note(s: State, entry: Entry): State {
    s.(ledger := if entry.key in s.ledger then s.ledger else s.ledger[entry.key := entry], log := s.log + [entry])
  }

  function KeyOf(mapping: EntityMapping, record: SourceRecord): Key {
    var id := Shown(record, mapping.idField);
    Key(mapping.entity, if id == "" then "(missing " + mapping.idField + ")" else id)
  }

  function EntryFor(s: State, mapping: EntityMapping, record: SourceRecord, mode: Mode, world: World): Entry {
    var key := KeyOf(mapping, record);
    if Shown(record, mapping.idField) == "" then Entry(key, Failed, MissingId, None)
    else if !MatchesFilter(record, mapping.filter) then Entry(key, Skipped, Filtered, None)
    else
      var target := BuildFields(mapping.fields, record, s.identity, world);
      if target.Err? then Entry(key, Failed, Unbuildable, None)
      else if mode == DryRunMode then Entry(key, Created, DryRun, None)
      else if target.value == map[] then Entry(key, Failed, NothingToWrite, None)
      else
        var id := world.insert(mapping.table, target.value, |s.log|);
        if id.None? then Entry(key, Failed, Refused, None) else Entry(key, Created, Written, id)
  }

  function Step(s: State, mapping: EntityMapping, record: SourceRecord, mode: Mode, world: World): State {
    var entry := EntryFor(s, mapping, record, mode, world);
    var t := if entry.targetId.None? then s
             else s.(identity := s.identity[entry.key := entry.targetId.value],
                     written := s.written + [Row(
                       mapping.table, BuildFields(mapping.fields, record, s.identity, world).value, entry.targetId.value)]);
    Note(t, entry)
  }

  function Pass(s: State, mapping: EntityMapping, records: seq<SourceRecord>, mode: Mode, world: World): State {
    if |records| == 0 then s
    else Step(Pass(s, mapping, records[..|records| - 1], mode, world), mapping, records[|records| - 1], mode, world)
  }

  type Source = map<Entity, seq<SourceRecord>>

  function RecordsOf(source: Source, entity: Entity): seq<SourceRecord> {
    if entity in source then source[entity] else []
  }

  function RunPlan(plan: seq<EntityMapping>, source: Source, mode: Mode, world: World): State {
    if |plan| == 0 then EMPTY
    else
      var last := plan[|plan| - 1];
      Pass(RunPlan(plan[..|plan| - 1], source, mode, world), last, RecordsOf(source, last.entity), mode, world)
  }

  // ---------------------------------------------------------------------------
  // Counting
  // ---------------------------------------------------------------------------

  function Count(log: seq<Entry>, outcome: Outcome): nat {
    if |log| == 0 then 0
    else Count(log[..|log| - 1], outcome) + if log[|log| - 1].outcome == outcome then 1 else 0
  }

  lemma {:induction false} CountAll(log: seq<Entry>)
    ensures |log| == Count(log, Created) + Count(log, Updated) + Count(log, Skipped) + Count(log, Failed) + Count(log, Deferred)
  {
    if |log| > 0 { CountAll(log[..|log| - 1]); }
  }

  lemma {:induction false} NothingUpdated(log: seq<Entry>)
    requires OutcomesOnly(log)
    ensures Count(log, Updated) == 0 == Count(log, Deferred)
  {
    if |log| > 0 { NothingUpdated(log[..|log| - 1]); }
  }

  // ---------------------------------------------------------------------------
  // The program
  // ---------------------------------------------------------------------------

  datatype EntityOutcome = EntityOutcome(
    entity: Entity, read: nat, created: nat, updated: nat, skipped: nat, failed: nat, unmapped: set<string>)

  datatype Totals = Totals(read: nat, written: nat, skipped: nat, failed: nat)

  datatype Report = Report(entities: seq<EntityOutcome>, totals: Totals, clean: bool)

  /** A run that ends early: the database refused a row and takes no further statement in that transaction. */
  datatype Aborted = Aborted

  /** The source fields some mapping consumes. */
  function MappedSources(mapping: EntityMapping): set<string> {
    (set f | f in mapping.fields && f.source.Some? :: f.source.value)
    + (set f, name | f in mapping.fields && name in f.joined :: name)
    + {mapping.idField}
  }

  /** The fields nobody mapped, of the records that have an id. */
  function Unmapped(mapping: EntityMapping, records: seq<SourceRecord>): set<string> {
    if |records| == 0 then {}
    else Unmapped(mapping, records[..|records| - 1]) + UnmappedOf(mapping, records[|records| - 1])
  }

  function UnmappedOf(mapping: EntityMapping, record: SourceRecord): set<string> {
    if Shown(record, mapping.idField) == "" then {}
    else set name | name in record && name !in MappedSources(mapping)
  }

  /** The counters of a pass are what the log of that pass says. */
  ghost predicate Tallied(created: nat, skipped: nat, failed: nat, log: seq<Entry>) {
    created == Count(log, Created) && skipped == Count(log, Skipped) && failed == Count(log, Failed)
    && Count(log, Updated) == 0 == Count(log, Deferred)
  }

  ghost predicate Tallies(o: EntityOutcome, log: seq<Entry>) {
    o.read == |log| && o.updated == 0 && Tallied(o.created, o.skipped, o.failed, log)
  }

  class Runner {
    var ledger: map<Key, Entry>
    var identity: map<Key, string>
    var written: seq<Row>
    /** How many records have been dealt with, and in the proof what became of each. */
    var handled: nat
    ghost var log: seq<Entry>

    ghost predicate Valid()
      reads this
    {
      handled == |log|
    }

    ghost function Now(): State
      reads this
    {
      State(ledger, identity, written, log)
    }

    constructor ()
      ensures Valid() && Now() == EMPTY
    {
      ledger, identity, written, handled, log := map[], map[], [], 0, [];
    }

    method RecordOutcome(entry: Entry)
      requires Valid()
      modifies this`ledger, this`handled, this`log
      ensures Valid() && Now() == Note(old(Now()), entry)
    {
      if entry.key !in ledger { ledger := ledger[entry.key := entry]; }
      handled, log := handled + 1, log + [entry];
    }

    method BuildTarget(mapping: EntityMapping, record: SourceRecord, world: World) returns (r: Result<Target, string>)
      ensures r == BuildFields(mapping.fields, record, identity, world)
    {
      var target: Target := map[];
      var fields := mapping.fields;
      for i := 0 to |fields|
        invariant BuildFields(fields[..i], record, identity, world) == Ok(target)
      {
        assert fields[..i + 1][..i] == fields[..i];
        var value := BuildField(fields[i], record, identity, world);
        if value.Err? {
          BuildStops(fields, i + 1, record, identity, world);
          return Err(value.error);
        }
        target := target[fields[i].target := value.value];
      }
      assert fields[..|fields|] == fields;
      return Ok(target);
    }

    /** One source record: what is noted about it, and its row if there is to be one. */
    method MigrateRecord(mapping: EntityMapping, record: SourceRecord, mode: Mode, world: World, survives: bool)
      returns (r: Result<Outcome, Aborted>)
      requires Valid()
      modifies this
      ensures Valid()
      ensures r.Err? <==> !survives && EntryFor(old(Now()), mapping, record, mode, world).reason == Refused
      ensures r.Ok? ==>
        Now() == Step(old(Now()), mapping, record, mode, world)
        && r.value == EntryFor(old(Now()), mapping, record, mode, world).outcome
    {
      var sourceId := Shown(record, mapping.idField);
      if sourceId == "" {
        RecordOutcome(Entry(Key(mapping.entity, "(missing " + mapping.idField + ")"), Failed, MissingId, None));
        return Ok(Failed);
      }
      var key := Key(mapping.entity, sourceId);
      if !MatchesFilter(record, mapping.filter) {
        RecordOutcome(Entry(key, Skipped, Filtered, None));
        return Ok(Skipped);
      }
      var target := BuildTarget(mapping, record, world);
      if target.Err? {
        RecordOutcome(Entry(key, Failed, Unbuildable, None));
        return Ok(Failed);
      }
      if mode == DryRunMode {
        RecordOutcome(Entry(key, Created, DryRun, None));
        return Ok(Created);
      }
      if target.value == map[] {
        RecordOutcome(Entry(key, Failed, NothingToWrite, None));
        return Ok(Failed);
      }
      var id := world.insert(mapping.table, target.value, handled);
      if id.None? {
        if !survives { return Err(Aborted); }
        RecordOutcome(Entry(key, Failed, Refused, None));
        return Ok(Failed);
      }
      written := written + [Row(mapping.table, target.value, id.value)];
      identity := identity[key := id.value];
      RecordOutcome(Entry(key, Created, Written, id));
      return Ok(Created);
    }

    method MigrateEntity(mapping: EntityMapping, records: seq<SourceRecord>, mode: Mode, world: World, survives: bool)
      returns (r: Result<EntityOutcome, Aborted>)
      requires Valid()
      modifies this
      ensures Valid()
      ensures var after := Pass(old(Now()), mapping, records, mode, world);
        (r.Err? <==> !survives && RefusedFrom(after.log, |old(log)|))
        && (r.Ok? ==>
              Now() == after && |after.log| == |old(log)| + |records|
              && r.value.entity == mapping.entity && r.value.read == |records|
              && r.value.unmapped == Unmapped(mapping, records) && Tallies(r.value, after.log[|old(log)|..])
              && |records| == r.value.created + r.value.updated + r.value.skipped + r.value.failed)
    {
      var unmapped: set<string> := {};
      var created, skipped, failed := 0, 0, 0;
      ghost var s := Now();
      for i := 0 to |records|
        invariant Valid() && Now() == Pass(s, mapping, records[..i], mode, world)
        invariant |log| == |s.log| + i
        invariant !survives ==> !RefusedFrom(log, |s.log|)
        invariant unmapped == Unmapped(mapping, records[..i])
        invariant Tallied(created, skipped, failed, log[|s.log|..])
      {
        RecordNext(s, mapping, records, i, mode, world);
        RecordTallied(s, mapping, records, i, mode, world, created, skipped, failed);
        var outcome := MigrateRecord(mapping, records[i], mode, world, survives);
        if outcome.Err? { return Err(Aborted); }
        unmapped := unmapped + UnmappedOf(mapping, records[i]);
        match outcome.value
        case Created => created := created + 1;
        case Skipped => skipped := skipped + 1;
        case _ => failed := failed + 1;
      }
      assert records[..|records|] == records;
      CountAll(log[|s.log|..]);
      return Ok(EntityOutcome(mapping.entity, |records|, created, 0, skipped, failed, unmapped));
    }

    /** A new run: nothing of it is stored yet, and nothing stays stored if it ends early. */
    method RunMigration(plan: seq<EntityMapping>, source: Source, mode: Mode, world: World, survives: bool)
      returns (r: Result<Report, Aborted>)
      requires Valid() && Now() == EMPTY
      modifies this
      ensures Valid()
      ensures r.Err? <==> !survives && RefusedFrom(RunPlan(plan, source, mode, world).log, 0)
      ensures r.Err? ==> Now() == EMPTY
      ensures r.Ok? ==> Now() == RunPlan(plan, source, mode, world) && ReportMeans(r.value, plan, source, log)
    {
      var entities := RunEntities(plan, source, mode, world, survives);
      if entities.Err? {
        ledger, identity, written, handled, log := map[], map[], [], 0, [];
        return Err(Aborted);
      }
      var totals := TotalsOf(entities.value);
      var unmapped := exists i :: 0 <= i < |entities.value| && entities.value[i].unmapped != {};
      RunOutcomes(plan, source, mode, world);
      return Ok(Report(entities.value, totals, totals.failed == 0 && !unmapped));
    }

    method RunEntities(plan: seq<EntityMapping>, source: Source, mode: Mode, world: World, survives: bool)
      returns (r: Result<seq<EntityOutcome>, Aborted>)
      requires Valid() && Now() == EMPTY
      modifies this
      ensures Valid()
      ensures r.Err? <==> !survives && RefusedFrom(RunPlan(plan, source, mode, world).log, 0)
      ensures r.Ok? ==>
        Now() == RunPlan(plan, source, mode, world)
        && PassesReported(r.value, plan, source) && TotalsOf(r.value) == TotalsIn(log)
    {
      var entities: seq<EntityOutcome> := [];
      for i := 0 to |plan|
        invariant Valid() && Now() == RunPlan(plan[..i], source, mode, world)
        invariant !survives ==> !RefusedFrom(log, 0)
        invariant PassesReported(entities, plan[..i], source)
        invariant TotalsOf(entities) == TotalsIn(log)
      {
        ghost var before := log;
        RunNext(plan, i, source, mode, world);
        var outcome := MigrateEntity(plan[i], RecordsOf(source, plan[i].entity), mode, world, survives);
        if outcome.Err? {
          RefusedSplit(before, RunPlan(plan[..i + 1], source, mode, world).log);
          RunKeepsRefusal(plan, i + 1, source, mode, world);
          return Err(Aborted);
        }
        RefusedSplit(before, log);
        TotalsStep(entities, outcome.value, before, log);
        ReportedStep(entities, outcome.value, plan, i, source);
        entities := entities + [outcome.value];
      }
      assert plan[..|plan|] == plan;
      return Ok(entities);
    }
  }

  lemma TotalsStep(entities: seq<EntityOutcome>, o: EntityOutcome, before: seq<Entry>, after: seq<Entry>)
    requires |before| <= |after| && after[..|before|] == before
    requires TotalsOf(entities) == TotalsIn(before) && Tallies(o, after[|before|..])
    ensures TotalsOf(entities + [o]) == TotalsIn(after)
  {
    TotalsSplit(before, after);
    assert (entities + [o])[..|entities|] == entities;
  }

  lemma ReportedStep(entities: seq<EntityOutcome>, o: EntityOutcome, plan: seq<EntityMapping>, i: nat, source: Source)
    requires i < |plan| && PassesReported(entities, plan[..i], source)
    requires o.entity == plan[i].entity && o.read == |RecordsOf(source, plan[i].entity)|
    requires o.unmapped == Unmapped(plan[i], RecordsOf(source, plan[i].entity))
    requires o.read == o.created + o.updated + o.skipped + o.failed
    ensures PassesReported(entities + [o], plan[..i + 1], source)
  {
    assert plan[..i + 1] == plan[..i] + [plan[i]];
  }

  predicate OutcomesOnly(log: seq<Entry>) {
    forall i :: 0 <= i < |log| ==> log[i].outcome in {Created, Skipped, Failed}
  }

  lemma OutcomesExtend(before: seq<Entry>, after: seq<Entry>, mapping: EntityMapping, records: seq<SourceRecord>)
    requires OutcomesOnly(before) && PassLogged(before, after, mapping, records)
    ensures OutcomesOnly(after)
  {
    forall i | 0 <= i < |after| ensures after[i].outcome in {Created, Skipped, Failed} {
      if i < |before| {
        assert after[i] == after[..|before|][i] == before[i];
      } else {
        var k := i - |before|;
        assert after[|before| + k].key == KeyOf(mapping, records[k]);
      }
    }
  }

  lemma {:induction false} RunOutcomesOnly(
    plan: seq<EntityMapping>, n: nat, source: Source, mode: Mode, world: World)
    requires n <= |plan|
    ensures OutcomesOnly(RunPlan(plan[..n], source, mode, world).log)
  {
    if n > 0 {
      RunOutcomesOnly(plan, n - 1, source, mode, world);
      RunNext(plan, n - 1, source, mode, world);
      OutcomesExtend(RunPlan(plan[..n - 1], source, mode, world).log, RunPlan(plan[..n], source, mode, world).log,
                     plan[n - 1], RecordsOf(source, plan[n - 1].entity));
    }
  }

  /** Every record that was read was created, skipped or failed. */
  lemma RunOutcomes(plan: seq<EntityMapping>, source: Source, mode: Mode, world: World)
    ensures var log := RunPlan(plan, source, mode, world).log;
      OutcomesOnly(log) && |log| == Count(log, Created) + Count(log, Skipped) + Count(log, Failed)
  {
    RunOutcomesOnly(plan, |plan|, source, mode, world);
    assert plan[..|plan|] == plan;
    var log := RunPlan(plan, source, mode, world).log;
    CountAll(log);
    NothingUpdated(log);
  }

  function TotalsOf(entities: seq<EntityOutcome>): Totals {
    if |entities| == 0 then Totals(0, 0, 0, 0)
    else
      var t, o := TotalsOf(entities[..|entities| - 1]), entities[|entities| - 1];
      Totals(t.read + o.read, t.written + o.created + o.updated, t.skipped + o.skipped, t.failed + o.failed)
  }

  function TotalsIn(log: seq<Entry>): Totals {
    Totals(|log|, Count(log, Created), Count(log, Skipped), Count(log, Failed))
  }

  predicate PassesReported(entities: seq<EntityOutcome>, plan: seq<EntityMapping>, source: Source) {
    |entities| == |plan|
    && forall i :: 0 <= i < |plan| ==>
         entities[i].entity == plan[i].entity && entities[i].read == |RecordsOf(source, plan[i].entity)|
         && entities[i].unmapped == Unmapped(plan[i], RecordsOf(source, plan[i].entity))
         && entities[i].read == entities[i].created + entities[i].updated + entities[i].skipped + entities[i].failed
  }

  /** The report: what was read is what was written, skipped or failed, and it is clean if nothing failed or was lost. */
  ghost predicate ReportMeans(r: Report, plan: seq<EntityMapping>, source: Source, log: seq<Entry>) {
    PassesReported(r.entities, plan, source) && r.totals == TotalsIn(log)
    && r.totals.read == r.totals.written + r.totals.skipped + r.totals.failed
    && (r.clean <==> (r.totals.failed == 0
                      && forall i :: 0 <= i < |plan| ==> Unmapped(plan[i], RecordsOf(source, plan[i].entity)) == {}))
  }

  lemma RunNext(plan: seq<EntityMapping>, i: nat, source: Source, mode: Mode, world: World)
    requires i < |plan|
    ensures RunPlan(plan[..i + 1], source, mode, world) ==
            Pass(RunPlan(plan[..i], source, mode, world), plan[i], RecordsOf(source, plan[i].entity), mode, world)
    ensures var before, after := RunPlan(plan[..i], source, mode, world).log, RunPlan(plan[..i + 1], source, mode, world).log;
      PassLogged(before, after, plan[i], RecordsOf(source, plan[i].entity))
  {
    assert plan[..i + 1][..i] == plan[..i];
    PassLog(RunPlan(plan[..i], source, mode, world), plan[i], RecordsOf(source, plan[i].entity), mode, world);
  }

  lemma {:induction false} RunKeepsRefusal(plan: seq<EntityMapping>, n: nat, source: Source, mode: Mode, world: World)
    requires n <= |plan| && RefusedFrom(RunPlan(plan[..n], source, mode, world).log, 0)
    ensures RefusedFrom(RunPlan(plan, source, mode, world).log, 0)
    decreases |plan| - n
  {
    if n == |plan| {
      assert plan[..n] == plan;
    } else {
      RunNext(plan, n, source, mode, world);
      var before, after := RunPlan(plan[..n], source, mode, world).log, RunPlan(plan[..n + 1], source, mode, world).log;
      RefusedSplit(before, after);
      RunKeepsRefusal(plan, n + 1, source, mode, world);
    }
  }

  lemma RefusedSplit(before: seq<Entry>, after: seq<Entry>)
    requires |before| <= |after| && after[..|before|] == before
    ensures RefusedFrom(after, 0) <==> RefusedFrom(before, 0) || RefusedFrom(after, |before|)
  {
    assert forall i :: 0 <= i < |before| ==> after[i] == before[i];
    if RefusedFrom(before, 0) {
      var i :| 0 <= i < |before| && before[i].reason == Refused;
      assert after[i].reason == Refused;
    }
    if RefusedFrom(after, 0) && !RefusedFrom(after, |before|) {
      var i :| 0 <= i < |after| && after[i].reason == Refused;
      assert before[i].reason == Refused;
    }
  }

  lemma {:induction false} CountAppend(a: seq<Entry>, b: seq<Entry>, outcome: Outcome)
    ensures Count(a + b, outcome) == Count(a, outcome) + Count(b, outcome)
  {
    if |b| == 0 {
      assert a + b == a;
    } else {
      assert (a + b)[..|a + b| - 1] == a + b[..|b| - 1];
      CountAppend(a, b[..|b| - 1], outcome);
    }
  }

  lemma TotalsSplit(before: seq<Entry>, after: seq<Entry>)
    requires |before| <= |after| && after[..|before|] == before
    ensures var t, u, all := TotalsIn(before), TotalsIn(after[|before|..]), TotalsIn(after);
      all == Totals(t.read + u.read, t.written + u.written, t.skipped + u.skipped, t.failed + u.failed)
  {
    assert after == before + after[|before|..];
    CountAppend(before, after[|before|..], Created);
    CountAppend(before, after[|before|..], Skipped);
    CountAppend(before, after[|before|..], Failed);
  }

  predicate RefusedFrom(log: seq<Entry>, from: nat) { exists i :: from <= i < |log| && log[i].reason == Refused }

  lemma SegmentGrows(before: seq<Entry>, entry: Entry, from: nat)
    requires from <= |before|
    ensures (before + [entry])[from..] == before[from..] + [entry]
    ensures forall outcome ::
      Count((before + [entry])[from..], outcome) == Count(before[from..], outcome) + if entry.outcome == outcome then 1 else 0
    ensures RefusedFrom(before + [entry], from) <==> RefusedFrom(before, from) || entry.reason == Refused
  {
    var after := before[from..] + [entry];
    assert (before + [entry])[from..] == after;
    assert after[..|after| - 1] == before[from..];
    if RefusedFrom(before, from) {
      var i :| from <= i < |before| && before[i].reason == Refused;
      assert (before + [entry])[i].reason == Refused;
    }
    if entry.reason == Refused { assert (before + [entry])[|before|].reason == Refused; }
  }

  lemma TallyNext(created: nat, skipped: nat, failed: nat, before: seq<Entry>, entry: Entry, from: nat)
    requires from <= |before| && entry.outcome in {Created, Skipped, Failed}
    requires Tallied(created, skipped, failed, before[from..])
    ensures Tallied(
      created + if entry.outcome == Created then 1 else 0, skipped + if entry.outcome == Skipped then 1 else 0,
      failed + if entry.outcome == Failed then 1 else 0, (before + [entry])[from..])
    ensures RefusedFrom(before + [entry], from) <==> RefusedFrom(before, from) || entry.reason == Refused
  {
    SegmentGrows(before, entry, from);
  }

  lemma StepLog(s: State, mapping: EntityMapping, record: SourceRecord, mode: Mode, world: World)
    ensures var entry := EntryFor(s, mapping, record, mode, world);
      Step(s, mapping, record, mode, world).log == s.log + [entry]
      && entry.key == KeyOf(mapping, record) && entry.outcome in {Created, Skipped, Failed}
  {}

  lemma PassNext(s: State, mapping: EntityMapping, records: seq<SourceRecord>, i: nat, mode: Mode, world: World)
    requires i < |records|
    ensures Pass(s, mapping, records[..i + 1], mode, world) ==
            Step(Pass(s, mapping, records[..i], mode, world), mapping, records[i], mode, world)
  {
    assert records[..i + 1][..i] == records[..i];
  }

  /** What the next record does to the counters, and that a refused row stays refused to the end of the pass. */
  lemma RecordTallied(
    s: State, mapping: EntityMapping, records: seq<SourceRecord>, i: nat, mode: Mode, world: World,
    created: nat, skipped: nat, failed: nat)
    requires i < |records|
    requires var now := Pass(s, mapping, records[..i], mode, world);
      |now.log| == |s.log| + i && Tallied(created, skipped, failed, now.log[|s.log|..])
    ensures var now := Pass(s, mapping, records[..i], mode, world);
      var entry := EntryFor(now, mapping, records[i], mode, world);
      var after := now.log + [entry];
      && Tallied(created + if entry.outcome == Created then 1 else 0, skipped + if entry.outcome == Skipped then 1 else 0,
                 failed + if entry.outcome == Failed then 1 else 0, after[|s.log|..])
      && (RefusedFrom(after, |s.log|) <==> RefusedFrom(now.log, |s.log|) || entry.reason == Refused)
      && (entry.reason == Refused ==> RefusedFrom(Pass(s, mapping, records, mode, world).log, |s.log|))
  {
    var now := Pass(s, mapping, records[..i], mode, world);
    var entry := EntryFor(now, mapping, records[i], mode, world);
    RecordNext(s, mapping, records, i, mode, world);
    TallyNext(created, skipped, failed, now.log, entry, |s.log|);
    if entry.reason == Refused { PassKeepsRefusal(s, mapping, records, i + 1, mode, world); }
  }

  lemma RecordNext(s: State, mapping: EntityMapping, records: seq<SourceRecord>, i: nat, mode: Mode, world: World)
    requires i < |records|
    ensures var now := Pass(s, mapping, records[..i], mode, world);
      var entry := EntryFor(now, mapping, records[i], mode, world);
      && Pass(s, mapping, records[..i + 1], mode, world) == Step(now, mapping, records[i], mode, world)
      && Step(now, mapping, records[i], mode, world).log == now.log + [entry]
      && entry.outcome in {Created, Skipped, Failed}
    ensures Unmapped(mapping, records[..i + 1]) == Unmapped(mapping, records[..i]) + UnmappedOf(mapping, records[i])
  {
    PassNext(s, mapping, records, i, mode, world);
    StepLog(Pass(s, mapping, records[..i], mode, world), mapping, records[i], mode, world);
    assert records[..i + 1][..i] == records[..i];
  }

  /** A pass adds one entry a record, under that record's key, and takes none away. */
  lemma {:induction false} PassLog(s: State, mapping: EntityMapping, records: seq<SourceRecord>, mode: Mode, world: World)
    ensures PassLogged(s.log, Pass(s, mapping, records, mode, world).log, mapping, records)
  {
    if |records| > 0 {
      var n := |records| - 1;
      var before := Pass(s, mapping, records[..n], mode, world);
      PassLog(s, mapping, records[..n], mode, world);
      StepLog(before, mapping, records[n], mode, world);
      LoggedNext(s.log, before.log, mapping, records, EntryFor(before, mapping, records[n], mode, world));
    }
  }

  ghost predicate PassLogged(before: seq<Entry>, after: seq<Entry>, mapping: EntityMapping, records: seq<SourceRecord>) {
    |after| == |before| + |records| && after[..|before|] == before
    && forall i :: 0 <= i < |records| ==>
         after[|before| + i].key == KeyOf(mapping, records[i]) && after[|before| + i].outcome in {Created, Skipped, Failed}
  }

  lemma LoggedNext(
    before: seq<Entry>, after: seq<Entry>, mapping: EntityMapping, records: seq<SourceRecord>, entry: Entry)
    requires |records| > 0 && PassLogged(before, after, mapping, records[..|records| - 1])
    requires entry.key == KeyOf(mapping, records[|records| - 1]) && entry.outcome in {Created, Skipped, Failed}
    ensures PassLogged(before, after + [entry], mapping, records)
  {
    var all, n := after + [entry], |records| - 1;
    assert all[..|before|] == after[..|before|];
    forall i | 0 <= i < |records|
      ensures all[|before| + i].key == KeyOf(mapping, records[i]) && all[|before| + i].outcome in {Created, Skipped, Failed}
    {
      if i < n { assert all[|before| + i] == after[|before| + i] && records[..n][i] == records[i]; }
    }
  }

  lemma {:induction false} PassKeepsRefusal(
    s: State, mapping: EntityMapping, records: seq<SourceRecord>, n: nat, mode: Mode, world: World)
    requires n <= |records|
    requires RefusedFrom(Pass(s, mapping, records[..n], mode, world).log, |s.log|)
    ensures RefusedFrom(Pass(s, mapping, records, mode, world).log, |s.log|)
    decreases |records| - n
  {
    if n == |records| {
      assert records[..n] == records;
    } else {
      var log, next := Pass(s, mapping, records[..n], mode, world).log, Pass(s, mapping, records[..n + 1], mode, world).log;
      assert records[..n + 1][..n] == records[..n];
      var i :| |s.log| <= i < |log| && log[i].reason == Refused;
      assert next[i] == log[i];
      PassKeepsRefusal(s, mapping, records, n + 1, mode, world);
    }
  }

  /** The first field that cannot be built decides the error. */
  lemma {:induction false} BuildStops(
    fields: seq<Field>, n: nat, record: SourceRecord, identity: map<Key, string>, world: World)
    requires n <= |fields| && BuildFields(fields[..n], record, identity, world).Err?
    ensures BuildFields(fields, record, identity, world) == BuildFields(fields[..n], record, identity, world)
    decreases |fields| - n
  {
    if n == |fields| {
      assert fields[..n] == fields;
    } else {
      assert fields[..n + 1][..n] == fields[..n];
      BuildStops(fields, n + 1, record, identity, world);
    }
  }
}
