/**
 * Saving and loading versions of a statement (packages/core/src/case-file/statement-entry.ts):
 * both tables are proved to be functions of the saves that happened.
 */
module StatementHistory {
  import opened Prelude
  import opened Money
  import opened Statement

  datatype Status = Draft | Current | Superseded

  /** A statement's id is its position in the table. */
  datatype Row = Row(
    caseId: string,
    clientId: string,
    version: nat,
    status: Status,
    income: int,
    expenditure: int,
    surplus: int,
    assets: int,
    exceedances: seq<Exceedance>,
    household: Household,
    supersededBy: Option<nat>)

  datatype LineRow = LineRow(statementId: nat, line: Line)

  datatype Saved = Saved(statementId: nat, version: nat, totals: Totals, exceedances: seq<Exceedance>)

  datatype SaveError = NegativeAmount | Unbuildable(error: MoneyError)

  datatype Loaded = Loaded(id: Option<nat>, version: nat, lines: seq<Line>)

  // ---------------------------------------------------------------------------
  // The tables as a function of what was saved
  // ---------------------------------------------------------------------------

  /** One accepted save, with what was built from it. */
  datatype Save = Save(caseId: string, clientId: string, input: Input, built: Built)

  predicate Acceptable(input: Input) {
    (forall i :: 0 <= i < |input.entries| ==> input.entries[i].amount >= 0) && Build(input).Ok?
  }

  predicate Faithful(s: Save) { Acceptable(s.input) && s.built == Build(s.input).value }

  ghost predicate AllFaithful(saves: seq<Save>) { forall i :: 0 <= i < |saves| ==> Faithful(saves[i]) }

  /** How many of the first `n` saves are for the case. */
  function CountTo(saves: seq<Save>, caseId: string, n: nat): nat
    requires n <= |saves|
  {
    if n == 0 then 0 else CountTo(saves, caseId, n - 1) + if saves[n - 1].caseId == caseId then 1 else 0
  }

  function Count(saves: seq<Save>, caseId: string): nat { CountTo(saves, caseId, |saves|) }

  /** The first save for the case from a position on. */
  function NextFrom(saves: seq<Save>, caseId: string, from: nat): (next: Option<nat>)
    requires from <= |saves|
    ensures next.Some? ==> from <= next.value < |saves| && saves[next.value].caseId == caseId
    ensures forall k :: from <= k < (if next.Some? then next.value else |saves|) ==> saves[k].caseId != caseId
    decreases |saves| - from
  {
    if from == |saves| then None
    else if saves[from].caseId == caseId then Some(from)
    else NextFrom(saves, caseId, from + 1)
  }

  function Version(saves: seq<Save>, i: nat): nat
    requires i < |saves|
  {
    CountTo(saves, saves[i].caseId, i + 1)
  }

  /** What the table holds about the i-th save: all of it follows from the saves before and after. */
  function RowAt(saves: seq<Save>, i: nat): Row
    requires i < |saves|
  {
    var save, built := saves[i], saves[i].built;
    var next := NextFrom(saves, save.caseId, i + 1);
    Row(save.caseId, save.clientId, Version(saves, i), if next.None? then Current else Superseded,
        built.totals.income, built.totals.expenditure, built.totals.surplus, 0,
        built.exceedances, save.input.household, next)
  }

  function Tagged(id: nat, lines: seq<Line>): (rows: seq<LineRow>)
    ensures |rows| == |lines|
  {
    seq(|lines|, i requires 0 <= i < |lines| => LineRow(id, lines[i]))
  }

  function LinesFor(saves: seq<Save>): seq<LineRow> {
    if |saves| == 0 then []
    else
      var last := |saves| - 1;
      LinesFor(saves[..last]) + Tagged(last, saves[last].built.lines)
  }

  function LinesOf(table: seq<LineRow>, id: nat): seq<Line> {
    if |table| == 0 then []
    else
      LinesOf(table[..|table| - 1], id)
      + if table[|table| - 1].statementId == id then [table[|table| - 1].line] else []
  }

  ghost predicate Mirrors(rows: seq<Row>, lines: seq<LineRow>, saves: seq<Save>) {
    |rows| == |saves| && lines == LinesFor(saves)
    && forall i :: 0 <= i < |saves| ==> rows[i] == RowAt(saves, i)
  }

  // ---------------------------------------------------------------------------
  // The statements the program issues
  // ---------------------------------------------------------------------------

  predicate Open(row: Row, caseId: string) { row.caseId == caseId && row.status != Superseded }

  function OpenIds(rows: seq<Row>, caseId: string): (ids: seq<nat>)
    ensures forall i :: i in ids <==> 0 <= i < |rows| && Open(rows[i], caseId)
  {
    if |rows| == 0 then []
    else
      OpenIds(rows[..|rows| - 1], caseId) + if Open(rows[|rows| - 1], caseId) then [|rows| - 1] else []
  }

  function Retire(rows: seq<Row>, caseId: string): (after: seq<Row>)
    ensures |after| == |rows|
  {
    seq(|rows|, i requires 0 <= i < |rows| => if Open(rows[i], caseId) then rows[i].(status := Superseded) else rows[i])
  }

  /** A row after a statement with this id has replaced it, if it was open. */
  function Moved(row: Row, caseId: string, id: nat): Row {
    if !Open(row, caseId) then row
    else row.(status := Superseded, supersededBy := if row.supersededBy.None? then Some(id) else row.supersededBy)
  }

  function NewStatement(caseId: string, clientId: string, version: nat, built: Built, household: Household): Row {
    Row(caseId, clientId, version, Current, built.totals.income, built.totals.expenditure, built.totals.surplus, 0,
        built.exceedances, household, None)
  }

  /** `coalesce(max(version), 0)` over the statements of a case. */
  function MaxVersion(rows: seq<Row>, caseId: string): nat {
    if |rows| == 0 then 0
    else
      var init, last := MaxVersion(rows[..|rows| - 1], caseId), rows[|rows| - 1];
      if last.caseId == caseId then Max(init, last.version) else init
  }

  class Statements {
    var rows: seq<Row>
    var lines: seq<LineRow>
    ghost var saves: seq<Save>

    ghost predicate Valid()
      reads this
    {
      Mirrors(rows, lines, saves) && AllFaithful(saves)
    }

    constructor ()
      ensures Valid() && saves == []
    {
      rows, lines, saves := [], [], [];
    }

    /**
     * Refuses a negative amount and figures it cannot add up, changing nothing. Otherwise the tables become
     * those of the history with this save at its end.
     */
    method SaveStatement(caseId: string, clientId: string, input: Input) returns (r: Result<Saved, SaveError>)
      requires Valid()
      modifies this
      ensures Valid()
      ensures r.Ok? <==> Acceptable(input)
      ensures r == Err(NegativeAmount) <==> exists i :: 0 <= i < |input.entries| && input.entries[i].amount < 0
      ensures r.Err? ==> rows == old(rows) && lines == old(lines) && saves == old(saves)
      ensures r.Ok? ==>
        saves == old(saves) + [Save(caseId, clientId, input, Build(input).value)]
        && r.value == Saved(|old(rows)|, Count(saves, caseId), Build(input).value.totals, Build(input).value.exceedances)
    {
      if exists i :: 0 <= i < |input.entries| && input.entries[i].amount < 0 { return Err(NegativeAmount); }
      var result := BuildStatement(input);
      if result.Err? { return Err(Unbuildable(result.error)); }
      var built := result.value;

      var version := Persist(caseId, clientId, input, built);
      return Ok(Saved(|rows| - 1, version, built.totals, built.exceedances));
    }

    method Persist(caseId: string, clientId: string, input: Input, built: Built) returns (version: nat)
      requires Valid() && Acceptable(input) && built == Build(input).value
      modifies this
      ensures Valid() && |rows| == |old(rows)| + 1
      ensures saves == old(saves) + [Save(caseId, clientId, input, built)] && version == Count(saves, caseId)
    {
      ghost var save := Save(caseId, clientId, input, built);
      version := Replace(caseId, clientId, built, input.household);
      SaveKeeps(old(rows), rows, old(lines), lines, saves, save);
      FaithfulAppend(saves, save);
      saves := saves + [save];
    }

    /** Retires what is open, inserts the new version and its lines, then points the retired rows at it. */
    method Replace(caseId: string, clientId: string, built: Built, household: Household) returns (version: nat)
      modifies this`rows, this`lines
      ensures |rows| == |old(rows)| + 1
      ensures forall i :: 0 <= i < |old(rows)| ==> rows[i] == Moved(old(rows)[i], caseId, |old(rows)|)
      ensures version == MaxVersion(Retire(old(rows), caseId), caseId) + 1
      ensures rows[|old(rows)|] == NewStatement(caseId, clientId, version, built, household)
      ensures lines == old(lines) + Tagged(|old(rows)|, built.lines)
    {
      var previous := OpenIds(rows, caseId);
      var id := |rows|;
      rows := Retire(rows, caseId);
      version := MaxVersion(rows, caseId) + 1;
      rows := rows + [NewStatement(caseId, clientId, version, built, household)];
      InsertLines(id, built.lines);
      PointAt(previous, id);
    }

    method InsertLines(id: nat, added: seq<Line>)
      modifies this`lines
      ensures lines == old(lines) + Tagged(id, added)
    {
      for i := 0 to |added|
        invariant lines == old(lines) + Tagged(id, added[..i])
      {
        lines := lines + [LineRow(id, added[i])];
        assert Tagged(id, added[..i + 1]) == Tagged(id, added[..i]) + [LineRow(id, added[i])];
      }
      assert added[..|added|] == added;
    }

    /** `UPDATE … SET superseded_by … WHERE id = … AND superseded_by IS NULL`, one row at a time. */
    method PointAt(previous: seq<nat>, id: nat)
      requires forall i :: i in previous ==> i < |rows|
      modifies this`rows
      ensures |rows| == |old(rows)|
      ensures forall i :: 0 <= i < |rows| ==>
        rows[i] == if i in previous && old(rows)[i].supersededBy.None?
                   then old(rows)[i].(supersededBy := Some(id)) else old(rows)[i]
    {
      for k := 0 to |previous|
        invariant |rows| == |old(rows)|
        invariant forall i :: 0 <= i < |rows| ==>
          rows[i] == if i in previous[..k] && old(rows)[i].supersededBy.None?
                     then old(rows)[i].(supersededBy := Some(id)) else old(rows)[i]
      {
        var at := previous[k];
        assert at in previous;
        if rows[at].supersededBy.None? {
          rows := rows[at := rows[at].(supersededBy := Some(id))];
        }
      }
      assert previous[..|previous|] == previous;
    }

    /** Gives back the lines of the latest save for the case, as they were built. */
    method LoadCurrentStatement(caseId: string) returns (loaded: Loaded)
      requires Valid()
      ensures Count(saves, caseId) == 0 <==> loaded.id.None?
      ensures loaded.id.None? ==> loaded == Loaded(None, 0, [])
      ensures loaded.id.Some? ==>
        var id := loaded.id.value;
        id < |saves| && saves[id].caseId == caseId && NextFrom(saves, caseId, id + 1).None?
        && loaded.version == Count(saves, caseId) && loaded.lines == Build(saves[id].input).value.lines
    {
      var best := LatestOpen(caseId);
      LastIsCurrent(saves, caseId);
      if best.None? { return Loaded(None, 0, []); }
      LinesOfSave(saves, best.value);
      NothingAfter(saves, best.value);
      return Loaded(best, rows[best.value].version, LinesOf(lines, best.value));
    }

    /** `ORDER BY version DESC LIMIT 1` over the open statements of the case. */
    method LatestOpen(caseId: string) returns (best: Option<nat>)
      ensures best.Some? ==> best.value < |rows| && Open(rows[best.value], caseId)
      ensures forall k :: 0 <= k < |rows| && Open(rows[k], caseId) ==>
        best.Some? && rows[k].version <= rows[best.value].version
    {
      best := None;
      for i := 0 to |rows|
        invariant best.Some? ==> best.value < i && Open(rows[best.value], caseId)
        invariant forall k :: 0 <= k < i && Open(rows[k], caseId) ==>
          best.Some? && rows[k].version <= rows[best.value].version
      {
        if Open(rows[i], caseId) && (best.None? || rows[best.value].version < rows[i].version) {
          best := Some(i);
        }
      }
    }
  }

  // ---------------------------------------------------------------------------
  // One save and the history
  // ---------------------------------------------------------------------------

  lemma {:induction false} NextAfterSave(saves: seq<Save>, s: Save, caseId: string, from: nat)
    requires from <= |saves|
    ensures NextFrom(saves + [s], caseId, from) ==
            if NextFrom(saves, caseId, from).Some? then NextFrom(saves, caseId, from)
            else if s.caseId == caseId then Some(|saves|) else None
    decreases |saves| - from
  {
    if from < |saves| { NextAfterSave(saves, s, caseId, from + 1); }
  }

  lemma {:induction false} CountPrefix(saves: seq<Save>, later: seq<Save>, caseId: string, n: nat)
    requires n <= |saves|
    ensures CountTo(saves + later, caseId, n) == CountTo(saves, caseId, n)
  {
    if n > 0 { CountPrefix(saves, later, caseId, n - 1); }
  }

  /** What a save does to an earlier row: the one that was current now points at the new one. */
  lemma RowAfter(saves: seq<Save>, s: Save, i: nat)
    requires i < |saves|
    ensures RowAt(saves + [s], i) ==
            var row := RowAt(saves, i);
            if Open(row, s.caseId) then row.(status := Superseded, supersededBy := Some(|saves|)) else row
  {
    NextAfterSave(saves, s, saves[i].caseId, i + 1);
    CountPrefix(saves, [s], saves[i].caseId, i + 1);
  }

  lemma MirrorsAfterSave(
    before: seq<Row>, after: seq<Row>, lines: seq<LineRow>, lines': seq<LineRow>, saves: seq<Save>, s: Save)
    requires Mirrors(before, lines, saves) && |after| == |before| + 1
    requires forall i :: 0 <= i < |before| ==> after[i] == Moved(before[i], s.caseId, |before|)
    requires after[|before|] ==
             NewStatement(s.caseId, s.clientId, Count(saves, s.caseId) + 1, s.built, s.input.household)
    requires lines' == lines + Tagged(|before|, s.built.lines)
    ensures Mirrors(after, lines', saves + [s])
  {
    var saves' := saves + [s];
    assert saves'[..|saves|] == saves;
    forall i | 0 <= i < |saves'| ensures after[i] == RowAt(saves', i) {
      if i < |saves| {
        assert saves'[i] == saves[i];
        RowAfter(saves, s, i);
      } else {
        NewRow(saves, s);
      }
    }
  }

  lemma FaithfulAppend(saves: seq<Save>, s: Save)
    requires AllFaithful(saves) && Faithful(s)
    ensures AllFaithful(saves + [s])
  {
    forall i | 0 <= i < |saves + [s]| ensures Faithful((saves + [s])[i]) {
      if i < |saves| { assert Faithful(saves[i]); }
    }
  }

  /** The tables after `Replace` are those of the history with the save at its end. */
  lemma SaveKeeps(
    before: seq<Row>, after: seq<Row>, lines: seq<LineRow>, lines': seq<LineRow>, saves: seq<Save>, s: Save)
    requires Mirrors(before, lines, saves) && |after| == |before| + 1
    requires forall i :: 0 <= i < |before| ==> after[i] == Moved(before[i], s.caseId, |before|)
    requires after[|before|] ==
             NewStatement(s.caseId, s.clientId, MaxVersion(Retire(before, s.caseId), s.caseId) + 1, s.built, s.input.household)
    requires lines' == lines + Tagged(|before|, s.built.lines)
    ensures Mirrors(after, lines', saves + [s])
    ensures MaxVersion(Retire(before, s.caseId), s.caseId) + 1 == Count(saves + [s], s.caseId)
  {
    RetiredMax(before, s.caseId);
    MaxIsCount(before, lines, saves, s.caseId);
    MirrorsAfterSave(before, after, lines, lines', saves, s);
    NewRow(saves, s);
  }

  lemma NewRow(saves: seq<Save>, s: Save)
    ensures Version(saves + [s], |saves|) == Count(saves, s.caseId) + 1 == Count(saves + [s], s.caseId)
    ensures NextFrom(saves + [s], s.caseId, |saves| + 1).None?
  {
    CountPrefix(saves, [s], s.caseId, |saves|);
  }

  lemma {:induction false} RetiredMax(rows: seq<Row>, caseId: string)
    ensures MaxVersion(Retire(rows, caseId), caseId) == MaxVersion(rows, caseId)
  {
    if |rows| > 0 {
      var init := rows[..|rows| - 1];
      RetiredMax(init, caseId);
      assert Retire(rows, caseId)[..|rows| - 1] == Retire(init, caseId);
    }
  }

  lemma MaxIsCount(rows: seq<Row>, lines: seq<LineRow>, saves: seq<Save>, caseId: string)
    requires Mirrors(rows, lines, saves)
    ensures MaxVersion(rows, caseId) == Count(saves, caseId)
  {
    forall i | 0 <= i < |rows| ensures rows[i].caseId == saves[i].caseId && rows[i].version == Version(saves, i) {}
    MaxIsCountTo(rows, saves, caseId);
  }

  lemma {:induction false} MaxIsCountTo(rows: seq<Row>, saves: seq<Save>, caseId: string)
    requires |rows| <= |saves|
    requires forall i :: 0 <= i < |rows| ==> rows[i].caseId == saves[i].caseId && rows[i].version == Version(saves, i)
    ensures MaxVersion(rows, caseId) == CountTo(saves, caseId, |rows|)
  {
    if |rows| > 0 { MaxIsCountTo(rows[..|rows| - 1], saves, caseId); }
  }

  lemma {:induction false} LinesOfSave(saves: seq<Save>, i: nat)
    ensures LinesOf(LinesFor(saves), i) == if i < |saves| then saves[i].built.lines else []
  {
    if |saves| > 0 {
      var last := |saves| - 1;
      LinesOfSave(saves[..last], i);
      LinesOfTagged(LinesFor(saves[..last]), last, saves[last].built.lines, i);
    }
  }

  lemma {:induction false} LinesOfTagged(table: seq<LineRow>, id: nat, added: seq<Line>, i: nat)
    ensures LinesOf(table + Tagged(id, added), i) == LinesOf(table, i) + if i == id then added else []
  {
    if |added| == 0 {
      assert table + Tagged(id, added) == table;
    } else {
      var init, last := added[..|added| - 1], added[|added| - 1];
      LinesOfTagged(table, id, init, i);
      TaggedLast(table, id, added);
      LinesOfOneMore(table + Tagged(id, init), LineRow(id, last), i);
      if i == id { assert added == init + [last]; }
    }
  }

  lemma TaggedLast(table: seq<LineRow>, id: nat, added: seq<Line>)
    requires |added| > 0
    ensures var last := |added| - 1;
      table + Tagged(id, added) == table + Tagged(id, added[..last]) + [LineRow(id, added[last])]
  {
    var last := |added| - 1;
    assert Tagged(id, added) == Tagged(id, added[..last]) + [LineRow(id, added[last])];
  }

  lemma LinesOfOneMore(table: seq<LineRow>, row: LineRow, i: nat)
    ensures LinesOf(table + [row], i) == LinesOf(table, i) + if row.statementId == i then [row.line] else []
  {
    assert (table + [row])[..|table|] == table;
  }

  // ---------------------------------------------------------------------------
  // The chain of versions of one case
  // ---------------------------------------------------------------------------

  lemma {:induction false} CountBetween(saves: seq<Save>, caseId: string, i: nat, j: nat)
    requires i <= j <= |saves|
    ensures CountTo(saves, caseId, i) <= CountTo(saves, caseId, j)
    ensures (forall k :: i <= k < j ==> saves[k].caseId != caseId) ==> CountTo(saves, caseId, i) == CountTo(saves, caseId, j)
  {
    if i < j { CountBetween(saves, caseId, i, j - 1); }
  }

  /** Versions of a case rise with every save. */
  lemma VersionsRise(saves: seq<Save>, i: nat, j: nat)
    requires i < j < |saves| && saves[i].caseId == saves[j].caseId
    ensures 1 <= Version(saves, i) < Version(saves, j) <= Count(saves, saves[i].caseId)
  {
    var c := saves[i].caseId;
    CountBetween(saves, c, i + 1, j);
    CountBetween(saves, c, j + 1, |saves|);
  }

  /** And every number from one to the number of saves is the version of one of them. */
  lemma EveryVersionExists(saves: seq<Save>, caseId: string, v: nat) returns (i: nat)
    requires 1 <= v <= Count(saves, caseId)
    ensures i < |saves| && saves[i].caseId == caseId && Version(saves, i) == v
  {
    i := VersionWithin(saves, caseId, v, |saves|);
  }

  lemma {:induction false} VersionWithin(saves: seq<Save>, caseId: string, v: nat, n: nat) returns (i: nat)
    requires n <= |saves| && 1 <= v <= CountTo(saves, caseId, n)
    ensures i < n && saves[i].caseId == caseId && Version(saves, i) == v
  {
    if v == CountTo(saves, caseId, n) && saves[n - 1].caseId == caseId {
      i := n - 1;
    } else {
      i := VersionWithin(saves, caseId, v, n - 1);
    }
  }

  lemma NextVersion(saves: seq<Save>, i: nat)
    requires i < |saves|
    ensures var c, n := saves[i].caseId, Count(saves, saves[i].caseId);
      var next := NextFrom(saves, c, i + 1);
      1 <= Version(saves, i) <= n
      && (next.None? ==> Version(saves, i) == n)
      && (next.Some? ==> Version(saves, i) < n && Version(saves, next.value) == Version(saves, i) + 1)
  {
    var c := saves[i].caseId;
    var next := NextFrom(saves, c, i + 1);
    CountBetween(saves, c, i + 1, |saves|);
    if next.Some? {
      CountBetween(saves, c, i + 1, next.value);
      CountBetween(saves, c, next.value + 1, |saves|);
    }
  }

  /** A superseded statement points at the next version of its case; only the last one is current. */
  lemma ChainOfVersions(saves: seq<Save>, i: nat)
    requires i < |saves|
    ensures var row, n := RowAt(saves, i), Count(saves, saves[i].caseId);
      1 <= row.version <= n
      && (row.status == Current <==> row.version == n)
      && (row.status == Current <==> row.supersededBy.None?)
      && (row.supersededBy.Some? ==>
            var j := row.supersededBy.value;
            i < j < |saves| && saves[j].caseId == row.caseId && RowAt(saves, j).version == row.version + 1)
  {
    NextVersion(saves, i);
  }

  lemma NothingAfter(saves: seq<Save>, i: nat)
    requires i < |saves| && RowAt(saves, i).status == Current
    ensures NextFrom(saves, saves[i].caseId, i + 1).None? && RowAt(saves, i).version == Count(saves, saves[i].caseId)
  {
    NextVersion(saves, i);
  }

  /** A case that has been saved has a current statement. */
  lemma LastIsCurrent(saves: seq<Save>, caseId: string)
    ensures Count(saves, caseId) == 0 <==> forall i :: 0 <= i < |saves| ==> !Open(RowAt(saves, i), caseId)
  {
    if Count(saves, caseId) > 0 {
      var i := EveryVersionExists(saves, caseId, Count(saves, caseId));
      ChainOfVersions(saves, i);
    }
    forall i | 0 <= i < |saves| && Open(RowAt(saves, i), caseId) ensures Count(saves, caseId) > 0 {
      ChainOfVersions(saves, i);
    }
  }

  /** Whatever is saved later, a stored statement's figures are those of its own stored lines. */
  lemma StoredTotalsMatchLines(saves: seq<Save>, i: nat)
    requires i < |saves| && Faithful(saves[i])
    ensures var row, stored := RowAt(saves, i), LinesOf(LinesFor(saves), i);
      row.income == Total(stored, BySection(Income))
      && row.expenditure == Total(stored, BySection(Expenditure))
      && row.surplus == row.income - row.expenditure
      && Build(saves[i].input).value.lines == stored
  {
    LinesOfSave(saves, i);
  }

  lemma {:induction false} NextLater(saves: seq<Save>, later: seq<Save>, caseId: string, from: nat)
    requires from <= |saves|
    ensures NextFrom(saves, caseId, from).Some? ==>
      NextFrom(saves + later, caseId, from) == NextFrom(saves, caseId, from)
    decreases |saves| - from
  {
    if from < |saves| { NextLater(saves, later, caseId, from + 1); }
  }

  /** No later save changes the figures, the version or the lines of an earlier statement. */
  lemma EarlierUnchanged(saves: seq<Save>, later: seq<Save>, i: nat)
    requires i < |saves|
    ensures var was, now := RowAt(saves, i), RowAt(saves + later, i);
      now == was.(status := now.status, supersededBy := now.supersededBy)
      && (was.status == Superseded ==> now == was)
    ensures LinesOf(LinesFor(saves + later), i) == LinesOf(LinesFor(saves), i)
  {
    LinesOfSave(saves, i);
    LinesOfSave(saves + later, i);
    CountPrefix(saves, later, saves[i].caseId, i + 1);
    NextLater(saves, later, saves[i].caseId, i + 1);
  }

  /** The total of the assets is computed, and the column meant for it is left at nought. */
  lemma AssetsNotStored(saves: seq<Save>, i: nat)
    requires i < |saves| && Faithful(saves[i])
    ensures RowAt(saves, i).assets == Build(saves[i].input).value.totals.assets <==>
            Total(LinesOf(LinesFor(saves), i), BySection(Asset)) == 0
  {
    LinesOfSave(saves, i);
  }
}
