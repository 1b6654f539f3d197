/** What a migration plan says and when it is accepted (packages/migration/src/mapping.ts). */
module MigrationPlan {
  import opened Prelude

  type Entity = string

  /** `Other` stands for numbers, dates and the like, with the text they read as. */
  datatype Value = Null | Text(s: string) | Other(shown: string)

  type SourceRecord = map<string, Value>

  datatype Field = Field(target: string, source: Option<string>, joined: set<string>, constant: bool, required: bool)

  /** A filter lists the values each named source field may have. */
  datatype EntityMapping = EntityMapping(
    entity: Entity,
    table: string,
    idField: string,
    fields: seq<Field>,
    filter: map<string, set<Value>>)

  datatype Issue =
    | TwoMappings(entity: Entity, target: string)
    | NoSource(entity: Entity, target: string)
    | RequiredUnmapped(entity: Entity, target: string)
    | MissingDependency(entity: Entity, need: Entity)
    | OutOfOrder(entity: Entity, need: Entity)

  /** What has to be migrated before an entity. */
  function Dependencies(): seq<(Entity, Entity)> {
    [("case", "client"), ("debt", "case"), ("financial-statement", "case"), ("advice-decision", "case"),
     ("document", "case"), ("communication", "case"), ("consent", "client"), ("vulnerability", "client"),
     ("task", "case")]
  }

  predicate Needs(entity: Entity, need: Entity) { (entity, need) in Dependencies() }

  /** The first position of an entity, or none. */
  function Position(plan: seq<EntityMapping>, entity: Entity, from: nat := 0): (p: Option<nat>)
    requires from <= |plan|
    ensures p.Some? ==> from <= p.value < |plan| && plan[p.value].entity == entity
    ensures forall i :: from <= i < (if p.Some? then p.value else |plan|) ==> plan[i].entity != entity
    decreases |plan| - from
  {
    if from == |plan| then None
    else if plan[from].entity == entity then Some(from)
    else Position(plan, entity, from + 1)
  }

  predicate Unsourced(field: Field) { field.source.None? && !field.constant }

  predicate FieldsAccepted(fields: seq<Field>) {
    (forall i, j :: 0 <= i < j < |fields| ==> fields[i].target != fields[j].target)
    && forall i :: 0 <= i < |fields| ==> !Unsourced(fields[i])
  }

  predicate Ordered(plan: seq<EntityMapping>, entity: Entity, need: Entity) {
    Position(plan, entity).None?
    || (Position(plan, need).Some? && Position(plan, need).value <= Position(plan, entity).value)
  }

  ghost predicate Accepted(plan: seq<EntityMapping>) {
    (forall i :: 0 <= i < |plan| ==> FieldsAccepted(plan[i].fields))
    && forall entity, need :: Needs(entity, need) ==> Ordered(plan, entity, need)
  }

  /** What an issue says about the fields of one mapping. */
  predicate FieldFlaw(mapping: EntityMapping, issue: Issue) {
    exists k :: 0 <= k < |mapping.fields| && FlawAt(mapping, k, issue)
  }

  predicate FlawAt(mapping: EntityMapping, k: nat, issue: Issue)
    requires k < |mapping.fields|
  {
    var field := mapping.fields[k];
    match issue
    case TwoMappings(entity, target) =>
      entity == mapping.entity && target == field.target && exists j :: 0 <= j < k && mapping.fields[j].target == target
    case NoSource(entity, target) => entity == mapping.entity && target == field.target && Unsourced(field)
    case RequiredUnmapped(entity, target) =>
      entity == mapping.entity && target == field.target && Unsourced(field) && field.required
    case _ => false
  }

  predicate Flaw(plan: seq<EntityMapping>, issue: Issue) {
    match issue
    case MissingDependency(entity, need) => Needs(entity, need) && Missing(plan, entity, need)
    case OutOfOrder(entity, need) => Needs(entity, need) && Late(plan, entity, need)
    case _ => FlawBefore(plan, |plan|, issue)
  }

  predicate FlawBefore(plan: seq<EntityMapping>, n: nat, issue: Issue)
    requires n <= |plan|
  {
    exists p :: 0 <= p < n && FieldFlaw(plan[p], issue)
  }

  /** The plan is accepted exactly when no issue was found, and the issues are exactly its flaws. */
  method ParseMigrationPlan(plan: seq<EntityMapping>) returns (r: Result<seq<EntityMapping>, seq<Issue>>)
    ensures r.Ok? <==> Accepted(plan)
    ensures r.Ok? ==> r.value == plan
    ensures r.Err? ==> r.error != [] && forall issue :: issue in r.error <==> Flaw(plan, issue)
  {
    var issues: seq<Issue> := [];
    for i := 0 to |plan|
      invariant issues == [] <==> forall k :: 0 <= k < i ==> FieldsAccepted(plan[k].fields)
      invariant forall issue :: issue in issues <==> FlawBefore(plan, i, issue)
    {
      var found := FieldIssues(plan[i]);
      forall issue ensures FlawBefore(plan, i + 1, issue) <==> FlawBefore(plan, i, issue) || FieldFlaw(plan[i], issue) {}
      issues := issues + found;
    }
    var ofDependencies := DependencyIssues(plan, Dependencies());
    forall issue ensures issue in issues + ofDependencies <==> Flaw(plan, issue) {
      if issue.MissingDependency? || issue.OutOfOrder? {
        assert (issue.entity, issue.need) in Dependencies() <==> Needs(issue.entity, issue.need);
        NoFieldFlaw(plan, issue);
      }
    }
    issues := issues + ofDependencies;
    if issues != [] { return Err(issues); }
    return Ok(plan);
  }

  lemma NoFieldFlaw(plan: seq<EntityMapping>, issue: Issue)
    requires issue.MissingDependency? || issue.OutOfOrder?
    ensures !FlawBefore(plan, |plan|, issue)
  {
    forall p | 0 <= p < |plan| ensures !FieldFlaw(plan[p], issue) {}
  }

  predicate Missing(plan: seq<EntityMapping>, entity: Entity, need: Entity) {
    Position(plan, entity).Some? && Position(plan, need).None?
  }

  predicate Late(plan: seq<EntityMapping>, entity: Entity, need: Entity) {
    Position(plan, entity).Some? && Position(plan, need).Some?
    && Position(plan, need).value > Position(plan, entity).value
  }

  method DependencyIssues(plan: seq<EntityMapping>, dependencies: seq<(Entity, Entity)>) returns (issues: seq<Issue>)
    ensures issues == [] <==> forall entity, need :: (entity, need) in dependencies ==> Ordered(plan, entity, need)
    ensures forall entity, need ::
      (MissingDependency(entity, need) in issues <==> (entity, need) in dependencies && Missing(plan, entity, need))
      && (OutOfOrder(entity, need) in issues <==> (entity, need) in dependencies && Late(plan, entity, need))
    ensures forall issue :: issue in issues ==> issue.MissingDependency? || issue.OutOfOrder?
  {
    issues := [];
    for n := 0 to |dependencies|
      invariant issues == [] <==>
        forall entity, need :: (entity, need) in dependencies[..n] ==> Ordered(plan, entity, need)
      invariant forall entity, need ::
        (MissingDependency(entity, need) in issues <==> (entity, need) in dependencies[..n] && Missing(plan, entity, need))
        && (OutOfOrder(entity, need) in issues <==> (entity, need) in dependencies[..n] && Late(plan, entity, need))
      invariant forall issue :: issue in issues ==> issue.MissingDependency? || issue.OutOfOrder?
    {
      var (entity, need) := dependencies[n];
      assert dependencies[..n + 1] == dependencies[..n] + [(entity, need)];
      var position := Position(plan, entity);
      if position.Some? {
        var needPosition := Position(plan, need);
        if needPosition.None? {
          issues := issues + [MissingDependency(entity, need)];
        } else if needPosition.value > position.value {
          issues := issues + [OutOfOrder(entity, need)];
        }
      }
    }
    assert dependencies[..|dependencies|] == dependencies;
  }

  predicate FlawsUpTo(mapping: EntityMapping, n: nat, issue: Issue)
    requires n <= |mapping.fields|
  {
    exists k :: 0 <= k < n && FlawAt(mapping, k, issue)
  }

  method FieldIssues(mapping: EntityMapping) returns (issues: seq<Issue>)
    ensures issues == [] <==> FieldsAccepted(mapping.fields)
    ensures forall issue :: issue in issues <==> FieldFlaw(mapping, issue)
  {
    issues := [];
    var targets: set<string> := {};
    var fields := mapping.fields;
    for i := 0 to |fields|
      invariant targets == set k | 0 <= k < i :: fields[k].target
      invariant issues == [] <==> FieldsAccepted(fields[..i])
      invariant forall issue :: issue in issues <==> FlawsUpTo(mapping, i, issue)
    {
      var field := fields[i];
      ghost var before := issues;
      if field.target in targets { issues := issues + [TwoMappings(mapping.entity, field.target)]; }
      targets := targets + {field.target};
      if Unsourced(field) {
        issues := issues + [NoSource(mapping.entity, field.target)];
      }
      if field.required && Unsourced(field) {
        issues := issues + [RequiredUnmapped(mapping.entity, field.target)];
      }
      forall issue ensures issue in issues <==> issue in before || FlawAt(mapping, i, issue) {}
      forall issue ensures FlawsUpTo(mapping, i + 1, issue) <==> FlawsUpTo(mapping, i, issue) || FlawAt(mapping, i, issue) {}
    }
    assert fields[..|fields|] == fields;
  }

  /** In an accepted plan without repeated entities, whatever an entity needs comes strictly earlier. */
  lemma DependencyEarlier(plan: seq<EntityMapping>, p: nat, need: Entity) returns (q: nat)
    requires Accepted(plan) && p < |plan| && Needs(plan[p].entity, need)
    requires forall i, j :: 0 <= i < j < |plan| ==> plan[i].entity != plan[j].entity
    ensures q < p && plan[q].entity == need
  {
    var entity := plan[p].entity;
    assert Ordered(plan, entity, need);
    assert Position(plan, entity) == Some(p);
    q := Position(plan, need).value;
  }
}
