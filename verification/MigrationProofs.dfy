/** What a whole migration run guarantees (packages/migration/src/runner.ts). */
module MigrationProofs {
  import opened Prelude
  import opened MigrationPlan
  import opened Migration

  ghost predicate DistinctEntities(plan: seq<EntityMapping>) {
    forall i, j :: 0 <= i < j < |plan| ==> plan[i].entity != plan[j].entity
  }

  // ---------------------------------------------------------------------------
  // The ledger keeps the first entry for a source id, the identity map the last
  // ---------------------------------------------------------------------------

  function First(log: seq<Entry>, key: Key): Option<Entry> {
    if |log| == 0 then None
    else if First(log[..|log| - 1], key).Some? then First(log[..|log| - 1], key)
    else if log[|log| - 1].key == key then Some(log[|log| - 1])
    else None
  }

  function LatestId(log: seq<Entry>, key: Key): Option<string> {
    if |log| == 0 then None
    else if log[|log| - 1].key == key && log[|log| - 1].targetId.Some? then log[|log| - 1].targetId
    else LatestId(log[..|log| - 1], key)
  }

  ghost predicate Books(s: State) { forall key :: BooksOf(s, key) }

  predicate BooksOf(s: State, key: Key) {
    (if First(s.log, key).Some? then key in s.ledger && s.ledger[key] == First(s.log, key).value else key !in s.ledger)
    && (if LatestId(s.log, key).Some? then key in s.identity && s.identity[key] == LatestId(s.log, key).value
        else key !in s.identity)
  }

  lemma StepBooks(s: State, mapping: EntityMapping, record: SourceRecord, mode: Mode, world: World)
    requires Books(s)
    ensures Books(Step(s, mapping, record, mode, world))
  {
    var entry := EntryFor(s, mapping, record, mode, world);
    var t := Step(s, mapping, record, mode, world);
    forall key ensures BooksOf(t, key) {
      assert BooksOf(s, key) && BooksOf(s, entry.key);
      EntryBooks(s, t, entry, key);
    }
  }

  lemma EntryBooks(s: State, t: State, entry: Entry, key: Key)
    requires BooksOf(s, key) && BooksOf(s, entry.key) && t.log == s.log + [entry]
    requires t.ledger == if entry.key in s.ledger then s.ledger else s.ledger[entry.key := entry]
    requires t.identity == if entry.targetId.Some? then s.identity[entry.key := entry.targetId.value] else s.identity
    ensures BooksOf(t, key)
  {
    assert t.log[..|t.log| - 1] == s.log;
  }

  lemma {:induction false} PassBooks(s: State, mapping: EntityMapping, records: seq<SourceRecord>, mode: Mode, world: World)
    requires Books(s)
    ensures Books(Pass(s, mapping, records, mode, world))
  {
    if |records| > 0 {
      var init := records[..|records| - 1];
      PassBooks(s, mapping, init, mode, world);
      StepBooks(Pass(s, mapping, init, mode, world), mapping, records[|records| - 1], mode, world);
    }
  }

  lemma {:induction false} RunBooks(plan: seq<EntityMapping>, source: Source, mode: Mode, world: World)
    ensures Books(RunPlan(plan, source, mode, world))
  {
    if |plan| > 0 {
      var init, last := plan[..|plan| - 1], plan[|plan| - 1];
      RunBooks(init, source, mode, world);
      PassBooks(RunPlan(init, source, mode, world), last, RecordsOf(source, last.entity), mode, world);
    }
  }

  lemma {:induction false} FirstIs(log: seq<Entry>, i: nat)
    requires i < |log| && forall j :: 0 <= j < i ==> log[j].key != log[i].key
    ensures First(log, log[i].key) == Some(log[i])
  {
    var init := log[..|log| - 1];
    if i < |init| {
      FirstIs(init, i);
    } else {
      NotYet(init, log[i].key);
    }
  }

  lemma {:induction false} NotYet(log: seq<Entry>, key: Key)
    ensures First(log, key).None? <==> forall j :: 0 <= j < |log| ==> log[j].key != key
    ensures First(log, key).Some? ==> First(log, key).value in log && First(log, key).value.key == key
  {
    if |log| > 0 {
      NotYet(log[..|log| - 1], key);
      assert log == log[..|log| - 1] + [log[|log| - 1]];
    }
  }

  lemma {:induction false} LatestIs(log: seq<Entry>, i: nat)
    requires i < |log| && log[i].targetId.Some?
    requires forall j :: i < j < |log| ==> log[j].key != log[i].key || log[j].targetId.None?
    ensures LatestId(log, log[i].key) == log[i].targetId
  {
    if i < |log| - 1 { LatestIs(log[..|log| - 1], i); }
  }

  /** No two inserts get the same id. */
  ghost predicate FreshIds(world: World) {
    forall table, target, n, table', target', n' :: n != n' && world.insert(table, target, n).Some? ==>
      world.insert(table, target, n) != world.insert(table', target', n')
  }

  /** The new id of the i-th record is the one its own insert gave. */
  ghost predicate OwnIds(log: seq<Entry>, world: World) {
    forall i :: 0 <= i < |log| && log[i].targetId.Some? ==> Inserts(world, i, log[i].targetId)
  }

  ghost predicate Inserts(world: World, n: nat, id: Option<string>) {
    exists table, target :: world.insert(table, target, n) == id
  }

  lemma {:induction false} PassOwnIds(s: State, mapping: EntityMapping, records: seq<SourceRecord>, mode: Mode, world: World)
    requires OwnIds(s.log, world)
    ensures OwnIds(Pass(s, mapping, records, mode, world).log, world)
  {
    if |records| > 0 {
      PassOwnIds(s, mapping, records[..|records| - 1], mode, world);
      var before := Pass(s, mapping, records[..|records| - 1], mode, world);
      var entry := EntryFor(before, mapping, records[|records| - 1], mode, world);
      assert entry.targetId.Some? ==> Inserts(world, |before.log|, entry.targetId);
    }
  }

  lemma {:induction false} RunOwnIds(plan: seq<EntityMapping>, source: Source, mode: Mode, world: World)
    ensures OwnIds(RunPlan(plan, source, mode, world).log, world)
  {
    if |plan| > 0 {
      var init, last := plan[..|plan| - 1], plan[|plan| - 1];
      RunOwnIds(init, source, mode, world);
      PassOwnIds(RunPlan(init, source, mode, world), last, RecordsOf(source, last.entity), mode, world);
    }
  }

  /** A source id written twice: the ledger names the first row, references lead to the last, which is another. */
  lemma LedgerAndReferencesPart(plan: seq<EntityMapping>, source: Source, mode: Mode, world: World, i: nat, j: nat)
    requires var log := RunPlan(plan, source, mode, world).log;
      i <= j < |log| && log[i].key == log[j].key && log[j].targetId.Some?
      && (forall k :: 0 <= k < i ==> log[k].key != log[i].key)
      && (forall k :: j < k < |log| ==> log[k].key != log[j].key || log[k].targetId.None?)
    ensures var s := RunPlan(plan, source, mode, world);
      s.log[i].key in s.ledger && s.ledger[s.log[i].key] == s.log[i]
      && s.log[i].key in s.identity && Some(s.identity[s.log[i].key]) == s.log[j].targetId
      && (FreshIds(world) ==> (Some(s.identity[s.log[i].key]) == s.ledger[s.log[i].key].targetId <==> i == j))
  {
    var s := RunPlan(plan, source, mode, world);
    RunBooks(plan, source, mode, world);
    assert BooksOf(s, s.log[i].key);
    FirstIs(s.log, i);
    LatestIs(s.log, j);
    RunOwnIds(plan, source, mode, world);
    if FreshIds(world) && i < j && s.log[i].targetId.Some? { DifferentIds(s.log, world, i, j); }
  }

  lemma DifferentIds(log: seq<Entry>, world: World, i: nat, j: nat)
    requires FreshIds(world) && OwnIds(log, world) && i < j < |log| && log[i].targetId.Some? && log[j].targetId.Some?
    ensures log[i].targetId != log[j].targetId
  {
    assert Inserts(world, i, log[i].targetId) && Inserts(world, j, log[j].targetId);
    var table, target :| world.insert(table, target, i) == log[i].targetId;
    var table', target' :| world.insert(table', target', j) == log[j].targetId;
  }

  // ---------------------------------------------------------------------------
  // References
  // ---------------------------------------------------------------------------

  /** New ids of one entity's records. */
  ghost predicate SameIds(a: map<Key, string>, b: map<Key, string>, entity: Entity) {
    forall id :: (Key(entity, id) in a <==> Key(entity, id) in b)
                 && (Key(entity, id) in a ==> a[Key(entity, id)] == b[Key(entity, id)])
  }

  lemma {:induction false} PassSameIds(
    s: State, mapping: EntityMapping, records: seq<SourceRecord>, mode: Mode, world: World, entity: Entity)
    requires mapping.entity != entity
    ensures SameIds(s.identity, Pass(s, mapping, records, mode, world).identity, entity)
  {
    if |records| > 0 { PassSameIds(s, mapping, records[..|records| - 1], mode, world, entity); }
  }

  lemma {:induction false} RunSameIds(
    plan: seq<EntityMapping>, n: nat, source: Source, mode: Mode, world: World, entity: Entity)
    requires n <= |plan| && forall i :: n <= i < |plan| ==> plan[i].entity != entity
    ensures SameIds(RunPlan(plan[..n], source, mode, world).identity, RunPlan(plan, source, mode, world).identity, entity)
    decreases |plan| - n
  {
    if n == |plan| {
      assert plan[..n] == plan;
    } else {
      RunNext(plan, n, source, mode, world);
      PassSameIds(RunPlan(plan[..n], source, mode, world), plan[n], RecordsOf(source, plan[n].entity), mode, world, entity);
      RunSameIds(plan, n + 1, source, mode, world, entity);
    }
  }

  lemma {:induction false} TargetHolds(
    fields: seq<Field>, f: nat, record: SourceRecord, identity: map<Key, string>, world: World)
    requires f < |fields| && BuildFields(fields, record, identity, world).Ok?
    requires forall i, j :: 0 <= i < j < |fields| ==> fields[i].target != fields[j].target
    ensures var target := BuildFields(fields, record, identity, world).value;
      fields[f].target in target && BuildField(fields[f], record, identity, world) == Ok(target[fields[f].target])
  {
    if f < |fields| - 1 { TargetHolds(fields[..|fields| - 1], f, record, identity, world); }
  }

  /** The state in which the j-th record of the p-th entity is dealt with. */
  function StateAt(plan: seq<EntityMapping>, source: Source, mode: Mode, world: World, p: nat, j: nat): State
    requires p < |plan| && j <= |RecordsOf(source, plan[p].entity)|
  {
    Pass(RunPlan(plan[..p], source, mode, world), plan[p], RecordsOf(source, plan[p].entity)[..j], mode, world)
  }

  /**
   * In a live run of an accepted plan, a column that names a needed entity and holds a source id migrated in
   * this run is written with that record's new id.
   */
  lemma ReferenceResolved(
    plan: seq<EntityMapping>, source: Source, world: World, p: nat, j: nat, f: nat, need: Entity, id: string)
    requires Accepted(plan) && DistinctEntities(plan) && IdsNotEmpty(world)
    requires p < |plan| && Needs(plan[p].entity, need)
    requires j < |RecordsOf(source, plan[p].entity)| && f < |plan[p].fields|
    requires plan[p].fields[f].target == need + "_id"
    requires world.apply(plan[p].fields[f], RecordsOf(source, plan[p].entity)[j]) == Ok(Text(id)) && id != ""
    requires Key(need, id) in RunPlan(plan, source, LiveMode, world).identity
    ensures var s, record := StateAt(plan, source, LiveMode, world, p, j), RecordsOf(source, plan[p].entity)[j];
      var target := BuildFields(plan[p].fields, record, s.identity, world);
      target.Ok? ==>
        need + "_id" in target.value
        && target.value[need + "_id"] == Text(RunPlan(plan, source, LiveMode, world).identity[Key(need, id)])
  {
    var records := RecordsOf(source, plan[p].entity);
    var s := StateAt(plan, source, LiveMode, world, p, j);
    var target := BuildFields(plan[p].fields, records[j], s.identity, world);
    var q := DependencyEarlier(plan, p, need);
    assert plan[p].entity != need;
    RunSameIds(plan, p, source, LiveMode, world, need);
    PassSameIds(RunPlan(plan[..p], source, LiveMode, world), plan[p], records[..j], LiveMode, world, need);
    NewIdsNotEmpty(plan, source, LiveMode, world);
    if target.Ok? {
      TargetHolds(plan[p].fields, f, records[j], s.identity, world);
      assert Referred(need + "_id") == need;
    }
  }

  lemma {:induction false} PassKeepsRow(
    s: State, mapping: EntityMapping, records: seq<SourceRecord>, n: nat, mode: Mode, world: World, row: Row)
    requires n <= |records| && row in Pass(s, mapping, records[..n], mode, world).written
    ensures row in Pass(s, mapping, records, mode, world).written
    decreases |records| - n
  {
    if n == |records| {
      assert records[..n] == records;
    } else {
      PassNext(s, mapping, records, n, mode, world);
      PassKeepsRow(s, mapping, records, n + 1, mode, world, row);
    }
  }

  lemma {:induction false} RunKeepsRow(
    plan: seq<EntityMapping>, n: nat, source: Source, mode: Mode, world: World, row: Row)
    requires n <= |plan| && row in RunPlan(plan[..n], source, mode, world).written
    ensures row in RunPlan(plan, source, mode, world).written
    decreases |plan| - n
  {
    if n == |plan| {
      assert plan[..n] == plan;
    } else {
      RunNext(plan, n, source, mode, world);
      var s, records := RunPlan(plan[..n], source, mode, world), RecordsOf(source, plan[n].entity);
      assert records[..0] == [];
      PassKeepsRow(s, plan[n], records, 0, mode, world, row);
      RunKeepsRow(plan, n + 1, source, mode, world, row);
    }
  }

  /** So the row the database receives for such a record holds the new id that the record it refers to has got. */
  lemma ReferenceWritten(
    plan: seq<EntityMapping>, source: Source, world: World, p: nat, j: nat, f: nat, need: Entity, id: string)
    returns (row: Row)
    requires Accepted(plan) && DistinctEntities(plan) && IdsNotEmpty(world)
    requires p < |plan| && Needs(plan[p].entity, need)
    requires j < |RecordsOf(source, plan[p].entity)| && f < |plan[p].fields|
    requires plan[p].fields[f].target == need + "_id"
    requires world.apply(plan[p].fields[f], RecordsOf(source, plan[p].entity)[j]) == Ok(Text(id)) && id != ""
    requires Key(need, id) in RunPlan(plan, source, LiveMode, world).identity
    requires var s := StateAt(plan, source, LiveMode, world, p, j);
      EntryFor(s, plan[p], RecordsOf(source, plan[p].entity)[j], LiveMode, world).reason == Written
    ensures row in RunPlan(plan, source, LiveMode, world).written
    ensures var s := StateAt(plan, source, LiveMode, world, p, j);
      Some(row.id) == EntryFor(s, plan[p], RecordsOf(source, plan[p].entity)[j], LiveMode, world).targetId
    ensures need + "_id" in row.values
    ensures row.values[need + "_id"] == Text(RunPlan(plan, source, LiveMode, world).identity[Key(need, id)])
  {
    var records, before := RecordsOf(source, plan[p].entity), RunPlan(plan[..p], source, LiveMode, world);
    var s := StateAt(plan, source, LiveMode, world, p, j);
    ReferenceResolved(plan, source, world, p, j, f, need, id);
    row := NewRow(s, plan[p], records[j], world);
    PassNext(before, plan[p], records, j, LiveMode, world);
    PassKeepsRow(before, plan[p], records, j + 1, LiveMode, world, row);
    RunNext(plan, p, source, LiveMode, world);
    RunKeepsRow(plan, p + 1, source, LiveMode, world, row);
  }

  lemma NewRow(s: State, mapping: EntityMapping, record: SourceRecord, world: World) returns (row: Row)
    requires EntryFor(s, mapping, record, LiveMode, world).reason == Written
    ensures BuildFields(mapping.fields, record, s.identity, world).Ok?
    ensures row.values == BuildFields(mapping.fields, record, s.identity, world).value
    ensures Some(row.id) == EntryFor(s, mapping, record, LiveMode, world).targetId
    ensures row in Step(s, mapping, record, LiveMode, world).written
  {
    var written := Step(s, mapping, record, LiveMode, world).written;
    row := written[|written| - 1];
  }

  // An entity named twice is migrated twice, and a row in between refers to what the first pass wrote.

  const CLIENTS :=
    EntityMapping("client", "clients", "id", [Field("name", Some("name"), {}, false, false)], map[])
  const CASES :=
    EntityMapping("case", "cases", "id", [Field("client_id", Some("client"), {}, false, false)], map[])

  function TwiceSource(): Source {
    map["client" := [map["id" := Text("7")]], "case" := [map["id" := Text("1")]]]
  }

  function TwiceWorld(): World {
    World((field: Field, record: SourceRecord) => Ok(Text("7")),
          (table: string, target: Target, n: nat) => Some(IdOf(n)))
  }

  lemma OneRecord(s: State, mapping: EntityMapping, record: SourceRecord, mode: Mode, world: World)
    ensures Pass(s, mapping, [record], mode, world) == Step(s, mapping, record, mode, world)
  {
    assert [record][..0] == [];
    assert Pass(s, mapping, [], mode, world) == s;
  }

  lemma OneField(field: Field, record: SourceRecord, identity: map<Key, string>, world: World)
    requires BuildField(field, record, identity, world).Ok?
    ensures BuildFields([field], record, identity, world) ==
            Ok(map[field.target := BuildField(field, record, identity, world).value])
  {
    assert [field][..0] == [];
    assert BuildFields([], record, identity, world) == Ok(map[]);
  }

  lemma TwiceAccepted()
    ensures Accepted([CLIENTS, CASES, CLIENTS]) && !DistinctEntities([CLIENTS, CASES, CLIENTS])
  {
    var plan := [CLIENTS, CASES, CLIENTS];
    assert plan[0].entity == plan[2].entity;
    assert Position(plan, "client") == Some(0) && Position(plan, "case", 1) == Some(1) && Position(plan, "case") == Some(1);
    forall entity, need | Needs(entity, need) ensures Ordered(plan, entity, need) {}
  }

  function IdOf(n: nat): string { if n == 0 then "first" else if n == 1 then "case" else "second" }

  lemma ClientStep(s: State)
    ensures var t := Step(s, CLIENTS, map["id" := Text("7")], LiveMode, TwiceWorld());
      && t.written == s.written + [Row("clients", map["name" := Text("7")], IdOf(|s.log|))]
      && t.identity == s.identity[Key("client", "7") := IdOf(|s.log|)] && |t.log| == |s.log| + 1
  {
    var record: SourceRecord := map["id" := Text("7")];
    assert "name"[1..] != "_id" by { assert "name"[1..][0] == 'a'; }
    assert BuildField(CLIENTS.fields[0], record, s.identity, TwiceWorld()) == Ok(Text("7"));
    OneField(CLIENTS.fields[0], record, s.identity, TwiceWorld());
    assert CLIENTS.fields == [CLIENTS.fields[0]] && KeyOf(CLIENTS, record) == Key(CLIENTS.entity, "7");
    assert "name" in BuildFields(CLIENTS.fields, record, s.identity, TwiceWorld()).value;
    assert MatchesFilter(record, CLIENTS.filter);
    assert EntryFor(s, CLIENTS, record, LiveMode, TwiceWorld()).targetId == Some(IdOf(|s.log|));
  }

  lemma CaseStep(s: State)
    requires Key("client", "7") in s.identity && s.identity[Key("client", "7")] != ""
    ensures var t := Step(s, CASES, map["id" := Text("1")], LiveMode, TwiceWorld());
      && t.written == s.written + [Row("cases", map["client_id" := Text(s.identity[Key("client", "7")])], IdOf(|s.log|))]
      && |t.log| == |s.log| + 1
  {
    var record: SourceRecord := map["id" := Text("1")];
    assert IsReference("client_id") && Referred("client_id") == "client";
    assert BuildField(CASES.fields[0], record, s.identity, TwiceWorld()) == Ok(Text(s.identity[Key("client", "7")]));
    OneField(CASES.fields[0], record, s.identity, TwiceWorld());
    assert CASES.fields == [CASES.fields[0]] && KeyOf(CASES, record) == Key(CASES.entity, "1");
    assert "client_id" in BuildFields(CASES.fields, record, s.identity, TwiceWorld()).value;
    assert MatchesFilter(record, CASES.filter);
    assert EntryFor(s, CASES, record, LiveMode, TwiceWorld()).targetId == Some(IdOf(|s.log|));
  }

  lemma TwiceRuns()
    ensures var s := RunPlan([CLIENTS, CASES, CLIENTS], TwiceSource(), LiveMode, TwiceWorld());
      && |s.written| == 3 && s.written[1] == Row("cases", map["client_id" := Text("first")], "case")
      && Key("client", "7") in s.identity && s.identity[Key("client", "7")] == "second"
  {
    var client: SourceRecord, c: SourceRecord := map["id" := Text("7")], map["id" := Text("1")];
    var s1 := Step(EMPTY, CLIENTS, client, LiveMode, TwiceWorld());
    var s2 := Step(s1, CASES, c, LiveMode, TwiceWorld());
    ClientStep(EMPTY);
    CaseStep(s1);
    ClientStep(s2);
    ThreeSteps(CLIENTS, CASES, client, c, TwiceSource(), LiveMode, TwiceWorld());
  }

  /** A plan that comes back to its first entity, with one record of each. */
  lemma ThreeSteps(
    a: EntityMapping, b: EntityMapping, x: SourceRecord, y: SourceRecord, source: Source, mode: Mode, world: World)
    requires RecordsOf(source, a.entity) == [x] && RecordsOf(source, b.entity) == [y]
    ensures var s1 := Step(EMPTY, a, x, mode, world);
      var s2 := Step(s1, b, y, mode, world);
      RunPlan([a, b, a], source, mode, world) == Step(s2, a, x, mode, world)
  {
    assert [a, b, a][..2] == [a, b] && [a, b][..1] == [a] && [a][..0] == [];
    assert RunPlan([], source, mode, world) == EMPTY;
    var s1 := Step(EMPTY, a, x, mode, world);
    OneRecord(EMPTY, a, x, mode, world);
    assert RunPlan([a], source, mode, world) == s1;
    OneRecord(s1, b, y, mode, world);
    OneRecord(Step(s1, b, y, mode, world), a, x, mode, world);
  }

  /** Distinct entities are needed: the plan is accepted, and a row refers to another id than the map ends with. */
  lemma TwiceNamedRefersToFirst()
    ensures var plan := [CLIENTS, CASES, CLIENTS];
      var s := RunPlan(plan, TwiceSource(), LiveMode, TwiceWorld());
      && Accepted(plan) && !DistinctEntities(plan)
      && Row("cases", map["client_id" := Text("first")], "case") in s.written
      && Key("client", "7") in s.identity && s.identity[Key("client", "7")] == "second"
  {
    TwiceAccepted();
    TwiceRuns();
  }

  ghost predicate KnownIdsNotEmpty(s: State) { forall key :: key in s.identity ==> s.identity[key] != "" }

  lemma {:induction false} PassIdsNotEmpty(
    s: State, mapping: EntityMapping, records: seq<SourceRecord>, mode: Mode, world: World)
    requires IdsNotEmpty(world) && KnownIdsNotEmpty(s)
    ensures KnownIdsNotEmpty(Pass(s, mapping, records, mode, world))
  {
    if |records| > 0 {
      var init := records[..|records| - 1];
      PassIdsNotEmpty(s, mapping, init, mode, world);
    }
  }

  lemma {:induction false} NewIdsNotEmpty(plan: seq<EntityMapping>, source: Source, mode: Mode, world: World)
    requires IdsNotEmpty(world)
    ensures KnownIdsNotEmpty(RunPlan(plan, source, mode, world))
  {
    if |plan| > 0 {
      var init, last := plan[..|plan| - 1], plan[|plan| - 1];
      NewIdsNotEmpty(init, source, mode, world);
      PassIdsNotEmpty(RunPlan(init, source, mode, world), last, RecordsOf(source, last.entity), mode, world);
    }
  }

  /** Entities with a hyphen in their name are out of reach of columns without one. */
  lemma HyphenatedNotReferred(target: string)
    requires IsReference(target) && '-' !in target
    ensures Referred(target) !in {"financial-statement", "advice-decision", "custom-field"}
  {
    assert forall c :: c in Referred(target) ==> c in target;
    assert "financial-statement"[9] == '-' && "advice-decision"[6] == '-' && "custom-field"[6] == '-';
  }

  // ---------------------------------------------------------------------------
  // A dry run foretells the live run
  // ---------------------------------------------------------------------------

  /** Whether a record can be built does not depend on which ids have been resolved. */
  lemma {:induction false} BuildableRegardless(
    fields: seq<Field>, record: SourceRecord, a: map<Key, string>, b: map<Key, string>, world: World)
    ensures BuildFields(fields, record, a, world).Ok? <==> BuildFields(fields, record, b, world).Ok?
  {
    if |fields| > 0 { BuildableRegardless(fields[..|fields| - 1], record, a, b, world); }
  }

  /** The live run had a row to write and got none written. */
  predicate Lost(live: Entry) { live.reason in {NothingToWrite, Refused} }

  /** Same key, and same outcome unless the row was lost, which a dry run counts as created. */
  predicate Foretells(dry: Entry, live: Entry) {
    && dry.key == live.key
    && (dry.outcome == live.outcome <==> !Lost(live))
    && (Lost(live) ==> dry.outcome == Created && live.outcome == Failed)
  }

  predicate AllForetold(dry: seq<Entry>, live: seq<Entry>) {
    |dry| == |live| && forall i :: 0 <= i < |dry| ==> Foretells(dry[i], live[i])
  }

  lemma StepForetold(d: State, l: State, mapping: EntityMapping, record: SourceRecord, world: World)
    requires AllForetold(d.log, l.log)
    ensures AllForetold(Step(d, mapping, record, DryRunMode, world).log, Step(l, mapping, record, LiveMode, world).log)
    ensures Step(d, mapping, record, DryRunMode, world).written == d.written
    ensures Step(d, mapping, record, DryRunMode, world).identity == d.identity
  {
    BuildableRegardless(mapping.fields, record, d.identity, l.identity, world);
    StepLog(d, mapping, record, DryRunMode, world);
    StepLog(l, mapping, record, LiveMode, world);
  }

  lemma {:induction false} PassForetold(d: State, l: State, mapping: EntityMapping, records: seq<SourceRecord>, world: World)
    requires AllForetold(d.log, l.log)
    ensures AllForetold(Pass(d, mapping, records, DryRunMode, world).log, Pass(l, mapping, records, LiveMode, world).log)
    ensures Pass(d, mapping, records, DryRunMode, world).written == d.written
  {
    if |records| > 0 {
      var init, last := records[..|records| - 1], records[|records| - 1];
      PassForetold(d, l, mapping, init, world);
      StepForetold(Pass(d, mapping, init, DryRunMode, world), Pass(l, mapping, init, LiveMode, world), mapping, last, world);
    }
  }

  /** A dry run writes nothing and says, record by record, what a live run will do short of a refusal by the database. */
  lemma {:induction false} DryRunForetellsLive(plan: seq<EntityMapping>, source: Source, world: World)
    ensures RunPlan(plan, source, DryRunMode, world).written == []
    ensures AllForetold(RunPlan(plan, source, DryRunMode, world).log, RunPlan(plan, source, LiveMode, world).log)
  {
    if |plan| > 0 {
      var init, last := plan[..|plan| - 1], plan[|plan| - 1];
      DryRunForetellsLive(init, source, world);
      PassForetold(RunPlan(init, source, DryRunMode, world), RunPlan(init, source, LiveMode, world),
                   last, RecordsOf(source, last.entity), world);
    }
  }

  function LostIn(log: seq<Entry>): nat {
    if |log| == 0 then 0 else LostIn(log[..|log| - 1]) + if Lost(log[|log| - 1]) then 1 else 0
  }

  lemma {:induction false} LostCounted(dry: seq<Entry>, live: seq<Entry>)
    requires AllForetold(dry, live)
    ensures Count(dry, Created) == Count(live, Created) + LostIn(live)
    ensures Count(live, Failed) == Count(dry, Failed) + LostIn(live)
    ensures Count(live, Skipped) == Count(dry, Skipped) && Count(live, Updated) == Count(dry, Updated)
    ensures LostIn(live) == 0 <==> forall i :: 0 <= i < |live| ==> !Lost(live[i])
  {
    if |live| > 0 {
      var n := |live| - 1;
      LostCounted(dry[..n], live[..n]);
      assert Foretells(dry[n], live[n]);
      assert forall i :: 0 <= i < n ==> live[..n][i] == live[i];
    }
  }

  /** The two runs report the same totals exactly when the live run lost no row. */
  lemma SameReportIff(plan: seq<EntityMapping>, source: Source, world: World)
    ensures var dry, live := RunPlan(plan, source, DryRunMode, world).log, RunPlan(plan, source, LiveMode, world).log;
      TotalsIn(dry) == TotalsIn(live) <==> forall i :: 0 <= i < |live| ==> !Lost(live[i])
  {
    DryRunForetellsLive(plan, source, world);
    LostCounted(RunPlan(plan, source, DryRunMode, world).log, RunPlan(plan, source, LiveMode, world).log);
  }

  // ---------------------------------------------------------------------------
  // Reconciliation
  // ---------------------------------------------------------------------------

  datatype Line = Line(sourceCount: nat, migrated: nat, skipped: nat, failed: nat, accountedFor: bool)

  datatype Reconciliation = Reconciliation(lines: map<Entity, Line>, problems: set<Key>, balanced: bool)

  type Ledger = map<Key, Entry>

  function RowsOf(ledger: Ledger, entity: Entity): set<Key> { set key | key in ledger && key.entity == entity }

  function RowsWith(ledger: Ledger, entity: Entity, outcome: Outcome): set<Key> {
    set key | key in ledger && key.entity == entity && ledger[key].outcome == outcome
  }

  function LineFor(ledger: Ledger, entity: Entity, counts: map<Entity, nat>): Line {
    var migrated := |RowsWith(ledger, entity, Created)| + |RowsWith(ledger, entity, Updated)|;
    var skipped, failed := |RowsWith(ledger, entity, Skipped)|, |RowsWith(ledger, entity, Failed)|;
    var sourceCount := if entity in counts then counts[entity] else migrated + skipped + failed;
    Line(sourceCount, migrated, skipped, failed, migrated + skipped + failed == sourceCount)
  }

  /** Lines exist only for entities that have a row. */
  function Reconcile(ledger: Ledger, counts: map<Entity, nat>): Reconciliation {
    var entities := set key | key in ledger :: key.entity;
    var lines := map entity | entity in entities :: LineFor(ledger, entity, counts);
    var problems := set key | key in ledger && ledger[key].outcome in {Failed, Deferred};
    Reconciliation(lines, problems, (forall entity :: entity in lines ==> lines[entity].accountedFor) && problems == {})
  }

  predicate LedgerOutcomes(ledger: Ledger) {
    forall key :: key in ledger ==> ledger[key].outcome in {Created, Skipped, Failed}
  }

  lemma LineCountsRows(ledger: Ledger, entity: Entity)
    requires LedgerOutcomes(ledger)
    ensures |RowsOf(ledger, entity)| ==
      |RowsWith(ledger, entity, Created)| + |RowsWith(ledger, entity, Updated)|
      + |RowsWith(ledger, entity, Skipped)| + |RowsWith(ledger, entity, Failed)|
  {
    var created, skipped, failed :=
      RowsWith(ledger, entity, Created), RowsWith(ledger, entity, Skipped), RowsWith(ledger, entity, Failed);
    assert RowsWith(ledger, entity, Updated) == {};
    assert RowsOf(ledger, entity) == created + (skipped + failed);
    assert created !! (skipped + failed) && skipped !! failed;
  }

  /** Balanced means: each entity with a row has as many rows as it was said to have records, and none failed. */
  lemma BalancedMeaning(ledger: Ledger, counts: map<Entity, nat>)
    requires LedgerOutcomes(ledger)
    ensures Reconcile(ledger, counts).balanced <==>
      (forall key :: key in ledger ==> ledger[key].outcome != Failed)
      && forall key :: key in ledger && key.entity in counts ==> |RowsOf(ledger, key.entity)| == counts[key.entity]
  {
    var r := Reconcile(ledger, counts);
    forall key | key in ledger
      ensures r.lines[key.entity].accountedFor <==>
              (key.entity in counts ==> |RowsOf(ledger, key.entity)| == counts[key.entity])
    {
      LineCountsRows(ledger, key.entity);
    }
    if forall key :: key in ledger ==> ledger[key].outcome != Failed {
      assert r.problems == {};
    } else {
      var key :| key in ledger && ledger[key].outcome == Failed;
      assert key in r.problems;
    }
  }

  predicate DistinctKeys(mapping: EntityMapping, records: seq<SourceRecord>) {
    forall a, b :: 0 <= a < b < |records| ==> KeyOf(mapping, records[a]) != KeyOf(mapping, records[b])
  }

  function KeysOf(mapping: EntityMapping, records: seq<SourceRecord>): set<Key> {
    set i | 0 <= i < |records| :: KeyOf(mapping, records[i])
  }

  lemma DistinctStep(mapping: EntityMapping, records: seq<SourceRecord>, last: SourceRecord)
    ensures DistinctKeys(mapping, records + [last]) <==>
            DistinctKeys(mapping, records) && KeyOf(mapping, last) !in KeysOf(mapping, records)
  {
    var all, n := records + [last], |records|;
    assert all[n] == last && forall i :: 0 <= i < n ==> all[i] == records[i];
    if DistinctKeys(mapping, all) {
      forall a, b | 0 <= a < b < n ensures KeyOf(mapping, records[a]) != KeyOf(mapping, records[b]) {
        assert KeyOf(mapping, all[a]) != KeyOf(mapping, all[b]);
      }
      forall a | 0 <= a < n ensures KeyOf(mapping, records[a]) != KeyOf(mapping, last) {
        assert KeyOf(mapping, all[a]) != KeyOf(mapping, all[n]);
      }
    }
  }

  /** There are as many keys as records exactly when no two records share one. */
  lemma {:induction false} DistinctIffAsMany(mapping: EntityMapping, records: seq<SourceRecord>)
    ensures |KeysOf(mapping, records)| <= |records|
    ensures |KeysOf(mapping, records)| == |records| <==> DistinctKeys(mapping, records)
  {
    if |records| > 0 {
      var init, last := records[..|records| - 1], records[|records| - 1];
      assert records == init + [last];
      DistinctIffAsMany(mapping, init);
      KeysStep(mapping, init, last);
      DistinctStep(mapping, init, last);
    }
  }

  lemma KeysStep(mapping: EntityMapping, records: seq<SourceRecord>, last: SourceRecord)
    ensures KeysOf(mapping, records + [last]) == KeysOf(mapping, records) + {KeyOf(mapping, last)}
  {
    var all := records + [last];
    assert all[|records|] == last;
    assert forall i :: 0 <= i < |records| ==> all[i] == records[i];
  }

  predicate InLog(log: seq<Entry>, key: Key) { exists i :: 0 <= i < |log| && log[i].key == key }

  lemma PassKeys(before: seq<Entry>, after: seq<Entry>, mapping: EntityMapping, records: seq<SourceRecord>, key: Key)
    requires PassLogged(before, after, mapping, records)
    ensures InLog(after, key) <==> InLog(before, key) || key in KeysOf(mapping, records)
  {
    if InLog(before, key) {
      var i :| 0 <= i < |before| && before[i].key == key;
      assert after[i] == after[..|before|][i];
    }
    if key in KeysOf(mapping, records) {
      var i :| 0 <= i < |records| && KeyOf(mapping, records[i]) == key;
      assert after[|before| + i].key == key;
    }
    if InLog(after, key) {
      var i :| 0 <= i < |after| && after[i].key == key;
      if i < |before| {
        assert before[i] == after[..|before|][i];
      } else {
        var k := i - |before|;
        assert after[|before| + k].key == KeyOf(mapping, records[k]);
      }
    }
  }

  predicate Planned(plan: seq<EntityMapping>, n: nat, source: Source, key: Key)
    requires n <= |plan|
  {
    exists m :: 0 <= m < n && key in KeysOf(plan[m], RecordsOf(source, plan[m].entity))
  }

  lemma PlannedStep(plan: seq<EntityMapping>, n: nat, source: Source, key: Key)
    requires 0 < n <= |plan|
    ensures Planned(plan, n, source, key) <==>
            Planned(plan, n - 1, source, key) || key in KeysOf(plan[n - 1], RecordsOf(source, plan[n - 1].entity))
  {}

  lemma {:induction false} RunKeys(
    plan: seq<EntityMapping>, n: nat, source: Source, mode: Mode, world: World, key: Key)
    requires n <= |plan|
    ensures InLog(RunPlan(plan[..n], source, mode, world).log, key) <==> Planned(plan, n, source, key)
  {
    if n > 0 {
      RunKeys(plan, n - 1, source, mode, world, key);
      RunNext(plan, n - 1, source, mode, world);
      PlannedStep(plan, n, source, key);
      var before, after := RunPlan(plan[..n - 1], source, mode, world).log, RunPlan(plan[..n], source, mode, world).log;
      PassKeys(before, after, plan[n - 1], RecordsOf(source, plan[n - 1].entity), key);
    }
  }

  lemma LedgerKeys(plan: seq<EntityMapping>, source: Source, mode: Mode, world: World, key: Key)
    ensures key in RunPlan(plan, source, mode, world).ledger <==> Planned(plan, |plan|, source, key)
  {
    RunBooks(plan, source, mode, world);
    RunKeys(plan, |plan|, source, mode, world, key);
    assert plan[..|plan|] == plan;
    assert BooksOf(RunPlan(plan, source, mode, world), key);
    NotYet(RunPlan(plan, source, mode, world).log, key);
  }

  /** With distinct entities, the rows of one entity are those of its own pass. */
  lemma RowsOfPass(plan: seq<EntityMapping>, source: Source, mode: Mode, world: World, p: nat)
    requires DistinctEntities(plan) && p < |plan|
    ensures RowsOf(RunPlan(plan, source, mode, world).ledger, plan[p].entity) ==
            KeysOf(plan[p], RecordsOf(source, plan[p].entity))
  {
    var ledger := RunPlan(plan, source, mode, world).ledger;
    forall key
      ensures key in RowsOf(ledger, plan[p].entity) <==> key in KeysOf(plan[p], RecordsOf(source, plan[p].entity))
    {
      LedgerKeys(plan, source, mode, world, key);
      if key in RowsOf(ledger, plan[p].entity) {
        var m :| 0 <= m < |plan| && key in KeysOf(plan[m], RecordsOf(source, plan[m].entity));
        assert plan[m].entity == key.entity;
      }
    }
  }

  ghost predicate DistinctLog(log: seq<Entry>) { forall i, j :: 0 <= i < j < |log| ==> log[i].key != log[j].key }

  lemma PassDistinct(before: seq<Entry>, after: seq<Entry>, mapping: EntityMapping, records: seq<SourceRecord>)
    requires PassLogged(before, after, mapping, records) && DistinctLog(before) && DistinctKeys(mapping, records)
    requires forall i :: 0 <= i < |before| ==> before[i].key.entity != mapping.entity
    ensures DistinctLog(after)
  {
    forall i, j | 0 <= i < j < |after| ensures after[i].key != after[j].key {
      if i < |before| { assert after[i] == after[..|before|][i] == before[i]; }
      if j < |before| { assert after[j] == after[..|before|][j] == before[j]; }
      if j >= |before| {
        var b := j - |before|;
        assert after[|before| + b].key == KeyOf(mapping, records[b]);
        if i >= |before| {
          var a := i - |before|;
          assert after[|before| + a].key == KeyOf(mapping, records[a]);
        }
      }
    }
  }

  lemma {:induction false} RunDistinct(plan: seq<EntityMapping>, n: nat, source: Source, mode: Mode, world: World)
    requires n <= |plan| && DistinctEntities(plan)
    requires forall m :: 0 <= m < |plan| ==> DistinctKeys(plan[m], RecordsOf(source, plan[m].entity))
    ensures DistinctLog(RunPlan(plan[..n], source, mode, world).log)
  {
    if n > 0 {
      var log := RunPlan(plan[..n - 1], source, mode, world).log;
      RunDistinct(plan, n - 1, source, mode, world);
      RunNext(plan, n - 1, source, mode, world);
      forall i | 0 <= i < |log| ensures log[i].key.entity != plan[n - 1].entity {
        RunKeys(plan, n - 1, source, mode, world, log[i].key);
        assert InLog(log, log[i].key);
        var m :| 0 <= m < n - 1 && log[i].key in KeysOf(plan[m], RecordsOf(source, plan[m].entity));
      }
      PassDistinct(log, RunPlan(plan[..n], source, mode, world).log, plan[n - 1], RecordsOf(source, plan[n - 1].entity));
    }
  }

  lemma RunLedgerOutcomes(plan: seq<EntityMapping>, source: Source, mode: Mode, world: World)
    ensures LedgerOutcomes(RunPlan(plan, source, mode, world).ledger)
  {
    var s := RunPlan(plan, source, mode, world);
    RunBooks(plan, source, mode, world);
    RunOutcomes(plan, source, mode, world);
    forall key | key in s.ledger ensures s.ledger[key].outcome in {Created, Skipped, Failed} {
      assert BooksOf(s, key);
      NotYet(s.log, key);
      var i :| 0 <= i < |s.log| && s.log[i] == First(s.log, key).value;
    }
  }

  /** The counts a firm would give: how many records its export holds for each entity of the plan. */
  predicate TrueCounts(counts: map<Entity, nat>, plan: seq<EntityMapping>, source: Source) {
    forall p :: 0 <= p < |plan| ==>
      plan[p].entity in counts && counts[plan[p].entity] == |RecordsOf(source, plan[p].entity)|
  }

  ghost predicate NoneFailed(log: seq<Entry>) { forall i :: 0 <= i < |log| ==> log[i].outcome != Failed }

  predicate NoFailedRow(ledger: Ledger) { forall key :: key in ledger ==> ledger[key].outcome != Failed }

  ghost predicate EachHasItsOwnRow(plan: seq<EntityMapping>, source: Source) {
    forall p :: 0 <= p < |plan| ==> DistinctKeys(plan[p], RecordsOf(source, plan[p].entity))
  }

  /** Given true counts, a run balances exactly when every planned record has its own row and none failed. */
  lemma BalancedIff(plan: seq<EntityMapping>, source: Source, mode: Mode, world: World, counts: map<Entity, nat>)
    requires DistinctEntities(plan) && TrueCounts(counts, plan, source)
    ensures var s := RunPlan(plan, source, mode, world);
      Reconcile(s.ledger, counts).balanced <==> EachHasItsOwnRow(plan, source) && NoneFailed(s.log)
  {
    var s := RunPlan(plan, source, mode, world);
    RunLedgerOutcomes(plan, source, mode, world);
    BalancedMeaning(s.ledger, counts);
    if Reconcile(s.ledger, counts).balanced {
      OwnRows(plan, source, mode, world, counts);
      NoFailure(plan, source, mode, world);
    }
    if EachHasItsOwnRow(plan, source) && NoneFailed(s.log) {
      forall key | key in s.ledger ensures s.ledger[key].outcome != Failed {
        LedgerFromLog(plan, source, mode, world, key);
      }
      forall key | key in s.ledger && key.entity in counts
        ensures |RowsOf(s.ledger, key.entity)| == counts[key.entity]
      {
        RowsCounted(plan, source, mode, world, counts, key);
      }
    }
  }

  lemma OwnRows(plan: seq<EntityMapping>, source: Source, mode: Mode, world: World, counts: map<Entity, nat>)
    requires DistinctEntities(plan) && TrueCounts(counts, plan, source)
    requires var ledger := RunPlan(plan, source, mode, world).ledger;
      forall key :: key in ledger && key.entity in counts ==> |RowsOf(ledger, key.entity)| == counts[key.entity]
    ensures EachHasItsOwnRow(plan, source)
  {
    var ledger := RunPlan(plan, source, mode, world).ledger;
    forall p | 0 <= p < |plan| ensures DistinctKeys(plan[p], RecordsOf(source, plan[p].entity)) {
      var records := RecordsOf(source, plan[p].entity);
      RowsOfPass(plan, source, mode, world, p);
      DistinctIffAsMany(plan[p], records);
      if |records| > 0 {
        var key := KeyOf(plan[p], records[0]);
        assert key in KeysOf(plan[p], records);
        assert key in RowsOf(ledger, plan[p].entity);
      }
    }
  }

  lemma NoFailure(plan: seq<EntityMapping>, source: Source, mode: Mode, world: World)
    requires DistinctEntities(plan) && EachHasItsOwnRow(plan, source)
    requires NoFailedRow(RunPlan(plan, source, mode, world).ledger)
    ensures NoneFailed(RunPlan(plan, source, mode, world).log)
  {
    var s := RunPlan(plan, source, mode, world);
    RunDistinct(plan, |plan|, source, mode, world);
    assert plan[..|plan|] == plan;
    RunBooks(plan, source, mode, world);
    forall i | 0 <= i < |s.log| ensures s.log[i].outcome != Failed {
      var key := s.log[i].key;
      FirstIs(s.log, i);
      assert First(s.log, key) == Some(s.log[i]);
      assert BooksOf(s, key);
      assert key in s.ledger && s.ledger[key] == s.log[i];
      assert s.ledger[key].outcome != Failed;
    }
  }

  lemma LedgerFromLog(plan: seq<EntityMapping>, source: Source, mode: Mode, world: World, key: Key)
    requires key in RunPlan(plan, source, mode, world).ledger
    ensures var s := RunPlan(plan, source, mode, world); s.ledger[key] in s.log && s.ledger[key].key == key
  {
    RunBooks(plan, source, mode, world);
    assert BooksOf(RunPlan(plan, source, mode, world), key);
    NotYet(RunPlan(plan, source, mode, world).log, key);
  }

  lemma RowsCounted(
    plan: seq<EntityMapping>, source: Source, mode: Mode, world: World, counts: map<Entity, nat>, key: Key)
    requires DistinctEntities(plan) && TrueCounts(counts, plan, source) && EachHasItsOwnRow(plan, source)
    requires key in RunPlan(plan, source, mode, world).ledger
    ensures key.entity in counts && |RowsOf(RunPlan(plan, source, mode, world).ledger, key.entity)| == counts[key.entity]
  {
    LedgerKeys(plan, source, mode, world, key);
    var m :| 0 <= m < |plan| && key in KeysOf(plan[m], RecordsOf(source, plan[m].entity));
    assert plan[m].entity == key.entity;
    RowsOfPass(plan, source, mode, world, m);
    DistinctIffAsMany(plan[m], RecordsOf(source, plan[m].entity));
  }

  /** An entity with no row is not looked at, however many records the firm says it exported. */
  lemma AbsentEntityUnnoticed(ledger: Ledger, counts: map<Entity, nat>, entity: Entity, claimed: nat)
    requires LedgerOutcomes(ledger) && RowsOf(ledger, entity) == {}
    ensures Reconcile(ledger, counts[entity := claimed]).balanced == Reconcile(ledger, counts).balanced
  {
    BalancedMeaning(ledger, counts);
    BalancedMeaning(ledger, counts[entity := claimed]);
    forall key | key in ledger ensures key.entity != entity {
      assert key.entity == entity ==> key in RowsOf(ledger, entity);
    }
  }

  /** And records of an entity the plan does not name have no row at all. */
  lemma UnplannedHasNoRow(plan: seq<EntityMapping>, source: Source, mode: Mode, world: World, entity: Entity)
    requires forall p :: 0 <= p < |plan| ==> plan[p].entity != entity
    ensures RowsOf(RunPlan(plan, source, mode, world).ledger, entity) == {}
  {
    forall key | key in RunPlan(plan, source, mode, world).ledger ensures key.entity != entity {
      LedgerKeys(plan, source, mode, world, key);
    }
  }

  ghost predicate Names(plan: seq<EntityMapping>, entity: Entity) {
    exists p :: 0 <= p < |plan| && plan[p].entity == entity
  }

  /** As many rows as the source has records, for every entity of the source, planned or not. */
  ghost predicate AccountsFor(ledger: Ledger, source: Source) {
    forall entity: Entity :: |RowsOf(ledger, entity)| == |RecordsOf(source, entity)|
  }

  /**
   * A balanced run accounts for the whole source exactly when the plan names every entity the source has
   * records of: balancing itself says nothing about the others.
   */
  lemma WholeSourceIff(plan: seq<EntityMapping>, source: Source, mode: Mode, world: World, counts: map<Entity, nat>)
    requires DistinctEntities(plan) && TrueCounts(counts, plan, source)
    requires Reconcile(RunPlan(plan, source, mode, world).ledger, counts).balanced
    ensures AccountsFor(RunPlan(plan, source, mode, world).ledger, source) <==>
      forall entity: Entity :: |RecordsOf(source, entity)| > 0 ==> Names(plan, entity)
  {
    var ledger := RunPlan(plan, source, mode, world).ledger;
    BalancedIff(plan, source, mode, world, counts);
    forall entity: Entity
      ensures |RowsOf(ledger, entity)| == if Names(plan, entity) then |RecordsOf(source, entity)| else 0
    {
      if p :| 0 <= p < |plan| && plan[p].entity == entity {
        RowsOfPass(plan, source, mode, world, p);
        DistinctIffAsMany(plan[p], RecordsOf(source, entity));
      } else {
        UnplannedHasNoRow(plan, source, mode, world, entity);
      }
    }
  }
}
