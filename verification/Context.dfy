/** Assembling what a language model is allowed to see (packages/ai/src/context.ts). */
module Context {
  // Removing identifiers from a text is a parameter: it returns the cleaned text and the names of the
  // patterns that applied.

  import opened Prelude

  /** A value as code sees it. `Undefined` is what reading an absent property gives. */
  datatype Json =
    | Undefined
    | Null
    | Boolean(b: bool)
    | Number(n: real)
    | Text(s: string)
    | Arr(items: seq<Json>)
    | Obj(fields: map<string, Json>)

  datatype Scrubbed = Scrubbed(text: string, applied: set<string>)

  type Scrubber = string -> Scrubbed

  type Path = seq<string>

  // ---------------------------------------------------------------------------
  // Paths
  // ---------------------------------------------------------------------------

  predicate DotFree(segment: string) { forall i :: 0 <= i < |segment| ==> segment[i] != '.' }

  predicate Segments(path: Path) { |path| > 0 && forall i :: 0 <= i < |path| ==> DotFree(path[i]) }

  function FirstDot(text: string, from: nat := 0): (k: nat)
    requires from <= |text|
    ensures from <= k <= |text| && (k < |text| ==> text[k] == '.')
    ensures forall i :: from <= i < k ==> text[i] != '.'
    decreases |text| - from
  {
    if from == |text| || text[from] == '.' then from else FirstDot(text, from + 1)
  }

  function Split(text: string): (path: Path)
    ensures Segments(path)
    decreases |text|
  {
    var k := FirstDot(text);
    if k == |text| then [text] else [text[..k]] + Split(text[k + 1..])
  }

  function Join(path: Path): string {
    if |path| == 0 then "" else if |path| == 1 then path[0] else path[0] + "." + Join(path[1..])
  }

  lemma {:induction false} JoinSplit(text: string)
    ensures Join(Split(text)) == text
    decreases |text|
  {
    var k := FirstDot(text);
    if k < |text| {
      JoinSplit(text[k + 1..]);
      var rest := Split(text[k + 1..]);
      assert ([text[..k]] + rest)[1..] == rest;
      assert text == text[..k] + "." + text[k + 1..];
    }
  }

  lemma FirstDotAfter(segment: string, rest: string)
    requires DotFree(segment)
    ensures var text := segment + "." + rest;
      FirstDot(text) == |segment| && text[..|segment|] == segment && text[|segment| + 1..] == rest
  {
    var text, k := segment + "." + rest, |segment|;
    assert text[..k] == segment && text[k] == '.' && text[k + 1..] == rest;
    assert forall i :: 0 <= i < k ==> text[i] == segment[i];
  }

  lemma {:induction false} SplitJoin(path: Path)
    requires Segments(path)
    ensures Split(Join(path)) == path
  {
    var text := Join(path);
    if |path| == 1 {
      assert FirstDot(text) == |text|;
    } else {
      SplitJoin(path[1..]);
      FirstDotAfter(path[0], Join(path[1..]));
      assert path == [path[0]] + path[1..];
    }
  }

  predicate Prefix(p: Path, q: Path) { |p| <= |q| && q[..|p|] == p }

  // ---------------------------------------------------------------------------
  // Reading and writing inside a value
  // ---------------------------------------------------------------------------

  predicate Container(v: Json) { v.Obj? || v.Arr? }

  function Digits(text: string): Option<nat> {
    if |text| == 0 then Some(0)
    else if '0' <= text[|text| - 1] <= '9' then
      var init := Digits(text[..|text| - 1]);
      if init.None? then None else Some(10 * init.value + (text[|text| - 1] - '0') as nat)
    else None
  }

  /** The element a property name of a list stands for. */
  function Index(segment: string): Option<nat> {
    if segment == "" || (segment[0] == '0' && |segment| > 1) then None else Digits(segment)
  }

  function Child(v: Json, segment: string): Json {
    match v
    case Obj(fields) => if segment in fields then fields[segment] else Undefined
    case Arr(items) =>
      var i := Index(segment);
      if i.Some? && i.value < |items| then items[i.value]
      else if segment == "length" then Number(|items| as real)
      else Undefined
    case _ => Undefined
  }

  function SetChild(v: Json, segment: string, x: Json): Json {
    match v
    case Obj(fields) => Obj(fields[segment := x])
    case Arr(items) =>
      var i := Index(segment);
      if i.None? then v
      else if i.value < |items| then Arr(items[i.value := x])
      else Arr(items + seq(i.value - |items|, _ => Undefined) + [x])
    case _ => v
  }

  function ReadPath(v: Json, path: Path): Json
    decreases |path|
  {
    if |path| == 0 then v else ReadPath(Child(v, path[0]), path[1..])
  }

  /** Objects are created on the way where there is none. */
  function WritePath(v: Json, path: Path, x: Json): Json
    requires |path| > 0
    decreases |path|
  {
    if |path| == 1 then SetChild(v, path[0], x)
    else
      var child := Child(v, path[0]);
      SetChild(v, path[0], WritePath(if Container(child) then child else Obj(map[]), path[1..], x))
  }

  /** Every text inside a value is scrubbed; nothing else changes. */
  function ScrubDeep(v: Json, scrub: Scrubber): Json {
    match v
    case Text(s) => Text(scrub(s).text)
    case Arr(items) => Arr(seq(|items|, i requires 0 <= i < |items| => ScrubDeep(items[i], scrub)))
    case Obj(fields) => Obj(map k | k in fields :: ScrubDeep(fields[k], scrub))
    case _ => v
  }

  lemma {:induction false} ReadScrubbed(v: Json, path: Path, scrub: Scrubber)
    ensures ReadPath(ScrubDeep(v, scrub), path) == ScrubDeep(ReadPath(v, path), scrub)
    decreases |path|
  {
    if |path| > 0 {
      assert Child(ScrubDeep(v, scrub), path[0]) == ScrubDeep(Child(v, path[0]), scrub);
      ReadScrubbed(Child(v, path[0]), path[1..], scrub);
    }
  }

  lemma {:induction false} NothingUnderUndefined(path: Path)
    ensures ReadPath(Undefined, path) == Undefined
  {
    if |path| > 0 { NothingUnderUndefined(path[1..]); }
  }

  // ---------------------------------------------------------------------------
  // A payload is a pruning of the scrubbed whole
  // ---------------------------------------------------------------------------

  predicate Prunes(x: Json, y: Json)
    decreases x
  {
    x == y || (x.Obj? && Container(y)
               && forall k :: k in x.fields ==> Child(y, k) != Undefined && Prunes(x.fields[k], Child(y, k)))
  }

  /** Writing back what is already there changes nothing. */
  lemma {:induction false} WriteSame(y: Json, path: Path)
    requires |path| > 0 && Container(y) && ReadPath(y, path) != Undefined
    ensures WritePath(y, path, ReadPath(y, path)) == y
    decreases |path|
  {
    var child := Child(y, path[0]);
    if |path| > 1 {
      if !Container(child) {
        assert Child(child, path[1]) == Undefined;
        NothingUnderUndefined(path[2..]);
        assert false;
      }
      WriteSame(child, path[1..]);
    }
  }

  lemma {:induction false} DefinedAbove(y: Json, p: Path, q: Path)
    requires Prefix(p, q) && ReadPath(y, q) != Undefined
    ensures ReadPath(y, p) != Undefined
    decreases |p|
  {
    if |p| == 0 {
      if y == Undefined { NothingUnderUndefined(q); }
    } else {
      assert q[1..][..|p| - 1] == p[1..];
      DefinedAbove(Child(y, p[0]), p[1..], q[1..]);
    }
  }

  lemma InnerContainer(y: Json, q: Path)
    requires |q| > 1 && ReadPath(y, q) != Undefined
    ensures Container(Child(y, q[0])) && ReadPath(Child(y, q[0]), q[1..]) != Undefined
  {
    if !Container(Child(y, q[0])) {
      assert ReadPath(y, q) == ReadPath(Child(y, q[0]), q[1..]);
      assert ReadPath(Child(y, q[0]), q[1..]) == ReadPath(Child(Child(y, q[0]), q[1]), q[1..][1..]);
      NothingUnderUndefined(q[1..][1..]);
    }
  }

  /** What writing the part `q` of `y` into a pruning `x` of `y` means for reading at `p`. */
  ghost predicate Effect(x: Json, x': Json, y: Json, q: Path, p: Path) {
    && (Prefix(q, p) ==> ReadPath(x', p) == ReadPath(y, p))
    && (Prefix(p, q) ==> ReadPath(x', p) != Undefined)
    && (!Prefix(q, p) && !Prefix(p, q) ==> ReadPath(x', p) == ReadPath(x, p))
    && (ReadPath(x, p) == ReadPath(y, p) ==> ReadPath(x', p) == ReadPath(y, p))
  }

  /** The effect inside a child is the effect below that child's name. */
  lemma EffectInside(x: Json, x': Json, y: Json, q: Path, p: Path, inner: Json)
    requires |q| > 0 && |p| > 0 && p[0] == q[0] && Prunes(x, y)
    requires Prefix(p, q) ==> ReadPath(y, p) != Undefined
    requires inner == Child(x, q[0]) || (inner == Obj(map[]) && Child(x, q[0]) == Undefined)
    requires Effect(inner, Child(x', q[0]), Child(y, q[0]), q[1..], p[1..])
    ensures Effect(x, x', y, q, p)
  {
    if inner != Child(x, q[0]) {
      NothingUnderUndefined(p[1..]);
      if |p| > 1 { NothingUnderUndefined(p[1..][1..]); }
    }
  }

  /** Names that do not lie on the way are not affected. */
  lemma EffectOutside(x: Json, x': Json, y: Json, q: Path, p: Path)
    requires |q| > 0 && |p| > 0 && p[0] != q[0] && Child(x', p[0]) == Child(x, p[0])
    ensures Effect(x, x', y, q, p)
  {
    assert !Prefix(p, q) && !Prefix(q, p);
  }

  /**
   * Below `q` everything is then as in `y`, above it something is there, and elsewhere nothing changes.
   * What already agreed with `y` still does, and the result is a pruning of `y` again.
   */
  lemma {:induction false} WriteEffect(x: Json, y: Json, q: Path, p: Path)
    requires Prunes(x, y) && Container(x) && Container(y) && |q| > 0 && ReadPath(y, q) != Undefined
    ensures var x' := WritePath(x, q, ReadPath(y, q));
      Prunes(x', y) && Container(x') && Effect(x, x', y, q, p)
    decreases |q|
  {
    if Prefix(p, q) { DefinedAbove(y, p, q); }
    if x == y {
      WriteSame(y, q);
    } else {
      WriteInObject(x, y, q, p);
    }
  }

  lemma {:induction false} WriteInObject(x: Json, y: Json, q: Path, p: Path)
    requires Prunes(x, y) && x != y && x.Obj? && Container(y) && |q| > 0 && ReadPath(y, q) != Undefined
    requires Prefix(p, q) ==> ReadPath(y, p) != Undefined
    ensures var x' := WritePath(x, q, ReadPath(y, q));
      Prunes(x', y) && Container(x') && Effect(x, x', y, q, p)
    decreases |q|, 0
  {
    var k := q[0];
    var x' := WritePath(x, q, ReadPath(y, q));
    if |q| == 1 {
      assert ReadPath(y, q) == Child(y, k);
      if |p| > 0 && p[0] == k { assert p[..1] == q; }
    } else {
      InnerContainer(y, q);
      var child := Child(x, k);
      var inner := if Container(child) then child else Obj(map[]);
      var rest := if |p| > 0 && p[0] == k then p[1..] else [];
      WriteEffect(inner, Child(y, k), q[1..], rest);
      assert x' == Obj(x.fields[k := WritePath(inner, q[1..], ReadPath(Child(y, k), q[1..]))]);
      if |p| > 0 && p[0] == k {
        EffectInside(x, x', y, q, p, inner);
      } else if |p| > 0 {
        EffectOutside(x, x', y, q, p);
      }
    }
  }

  // ---------------------------------------------------------------------------
  // The payload
  // ---------------------------------------------------------------------------

  datatype Assembled = Assembled(payload: Json, missing: seq<string>, withheld: seq<string>, redactions: set<string>)

  predicate Present(v: Json, field: string) { ReadPath(v, Split(field)) != Undefined }

  function Payload(available: Json, fields: seq<string>, scrub: Scrubber): Json {
    if |fields| == 0 then Obj(map[])
    else
      var last := |fields| - 1;
      var sofar := Payload(available, fields[..last], scrub);
      var value := ReadPath(available, Split(fields[last]));
      if value == Undefined then sofar else WritePath(sofar, Split(fields[last]), ScrubDeep(value, scrub))
  }

  function Missing(available: Json, fields: seq<string>): seq<string> {
    if |fields| == 0 then []
    else
      var last := |fields| - 1;
      Missing(available, fields[..last]) + if Present(available, fields[last]) then [] else [fields[last]]
  }

  /** The patterns that applied anywhere inside a value. */
  function Applied(v: Json, scrub: Scrubber): set<string> {
    match v
    case Text(s) => scrub(s).applied
    case Arr(items) => set i, name | 0 <= i < |items| && name in Applied(items[i], scrub) :: name
    case Obj(fields) => set k, name | k in fields && name in Applied(fields[k], scrub) :: name
    case _ => {}
  }

  function AppliedIn(available: Json, fields: seq<string>, scrub: Scrubber): set<string> {
    set i, name | 0 <= i < |fields| && name in Applied(ReadPath(available, Split(fields[i])), scrub) :: name
  }

  /** On the allowlist, or below something that is. */
  predicate Under(path: Path, fields: seq<string>) {
    exists i :: 0 <= i < |fields| && Prefix(Split(fields[i]), path)
  }

  /** Above something on the allowlist that the case has. */
  predicate LeadsTo(path: Path, fields: seq<string>, available: Json) {
    exists i :: 0 <= i < |fields| && Prefix(path, Split(fields[i])) && Present(available, fields[i])
  }

  lemma ScrubKeepsAbsence(v: Json, scrub: Scrubber)
    ensures ScrubDeep(v, scrub) == Undefined <==> v == Undefined
    ensures Container(ScrubDeep(v, scrub)) == Container(v)
  {}

  lemma {:induction false} PrunedReads(x: Json, y: Json, p: Path)
    requires Prunes(x, y) && ReadPath(x, p) != Undefined
    ensures ReadPath(y, p) != Undefined
    decreases |p|
  {
    if |p| > 0 && x != y {
      if p[0] !in x.fields { NothingUnderUndefined(p[1..]); }
      PrunedReads(x.fields[p[0]], Child(y, p[0]), p[1..]);
    }
  }

  /** What `x` holds at `p`: all that `y` has if `p` is covered, and nothing unless `p` is covered or leads on. */
  predicate HoldsAt(x: Json, y: Json, p: Path, covered: bool, leads: bool) {
    (covered ==> ReadPath(x, p) == ReadPath(y, p))
    && (ReadPath(x, p) != Undefined <==> leads || (covered && ReadPath(y, p) != Undefined))
  }

  lemma HoldsWhenAbsent(x: Json, y: Json, q: Path, p: Path, covered: bool, leads: bool)
    requires HoldsAt(x, y, p, covered, leads) && Prunes(x, y) && ReadPath(y, q) == Undefined
    ensures HoldsAt(x, y, p, covered || Prefix(q, p), leads)
  {
    if Prefix(q, p) {
      if ReadPath(y, p) != Undefined { DefinedAbove(y, q, p); }
      if ReadPath(x, p) != Undefined { PrunedReads(x, y, p); }
    }
  }

  /**
   * What the payload holds, for any allowlist. Under an entry it holds exactly the scrubbed case, absent
   * where the case has nothing; and it holds something at a path only if the case does and the path is
   * under an entry or leads to one.
   */
  lemma PayloadMeaning(available: Json, fields: seq<string>, scrub: Scrubber, p: Path)
    requires Container(available) && |p| > 0
    ensures Under(p, fields) ==>
      ReadPath(Payload(available, fields, scrub), p) == ScrubDeep(ReadPath(available, p), scrub)
    ensures ReadPath(Payload(available, fields, scrub), p) != Undefined <==>
        LeadsTo(p, fields, available) || (Under(p, fields) && ReadPath(available, p) != Undefined)
  {
    PayloadHolds(available, fields, scrub, p);
    ReadScrubbed(available, p, scrub);
    ScrubKeepsAbsence(ReadPath(available, p), scrub);
  }

  lemma {:induction false} PayloadHolds(available: Json, fields: seq<string>, scrub: Scrubber, p: Path)
    requires Container(available) && |p| > 0
    ensures Prunes(Payload(available, fields, scrub), ScrubDeep(available, scrub))
    ensures Container(Payload(available, fields, scrub))
    ensures HoldsAt(Payload(available, fields, scrub), ScrubDeep(available, scrub), p,
                    Under(p, fields), LeadsTo(p, fields, available))
  {
    ScrubKeepsAbsence(available, scrub);
    var y := ScrubDeep(available, scrub);
    if |fields| == 0 {
      NothingUnderUndefined(p[1..]);
    } else {
      var last := |fields| - 1;
      var q := Split(fields[last]);
      PayloadHolds(available, fields[..last], scrub, p);
      PayloadStep(available, fields, scrub, p);
      UnderLast(p, fields, available);
      var x, x' := Payload(available, fields[..last], scrub), Payload(available, fields, scrub);
      var covered, leads := Under(p, fields[..last]), LeadsTo(p, fields[..last], available);
      if Present(available, fields[last]) {
        if Prefix(p, q) { DefinedAbove(y, p, q); }
        if ReadPath(x, p) != Undefined { PrunedReads(x, y, p); }
      } else {
        HoldsWhenAbsent(x, y, q, p, covered, leads);
      }
    }
  }

  lemma UnderLast(p: Path, fields: seq<string>, available: Json)
    requires |fields| > 0
    ensures var last := |fields| - 1;
      (Under(p, fields) <==> Under(p, fields[..last]) || Prefix(Split(fields[last]), p))
      && (LeadsTo(p, fields, available) <==>
          LeadsTo(p, fields[..last], available) || (Prefix(p, Split(fields[last])) && Present(available, fields[last])))
  {
    var last := |fields| - 1;
    if Under(p, fields) && !Prefix(Split(fields[last]), p) {
      var i :| 0 <= i < |fields| && Prefix(Split(fields[i]), p);
      assert fields[..last][i] == fields[i];
    }
    if LeadsTo(p, fields, available) && !(Prefix(p, Split(fields[last])) && Present(available, fields[last])) {
      var i :| 0 <= i < |fields| && Prefix(p, Split(fields[i])) && Present(available, fields[i]);
      assert fields[..last][i] == fields[i];
    }
  }

  lemma PayloadStep(available: Json, fields: seq<string>, scrub: Scrubber, p: Path)
    requires |fields| > 0 && Container(available)
    requires Prunes(Payload(available, fields[..|fields| - 1], scrub), ScrubDeep(available, scrub))
    requires Container(Payload(available, fields[..|fields| - 1], scrub))
    ensures var last := |fields| - 1;
      var x, x' := Payload(available, fields[..last], scrub), Payload(available, fields, scrub);
      var y := ScrubDeep(available, scrub);
      Prunes(x', y) && Container(x')
      && (Present(available, fields[last]) <==> ReadPath(y, Split(fields[last])) != Undefined)
      && (Present(available, fields[last]) ==> Effect(x, x', y, Split(fields[last]), p))
      && (!Present(available, fields[last]) ==> x' == x)
  {
    var field := fields[|fields| - 1];
    var y := ScrubDeep(available, scrub);
    ReadScrubbed(available, Split(field), scrub);
    ScrubKeepsAbsence(available, scrub);
    ScrubKeepsAbsence(ReadPath(available, Split(field)), scrub);
    if Present(available, field) {
      WriteEffect(Payload(available, fields[..|fields| - 1], scrub), y, Split(field), p);
    }
  }

  lemma {:induction false} PrunedLeaf(x: Json, y: Json, p: Path)
    requires Prunes(x, y) && ReadPath(x, p).Text?
    ensures ReadPath(y, p) == ReadPath(x, p)
    decreases |p|
  {
    if |p| > 0 && x != y {
      if p[0] !in x.fields { NothingUnderUndefined(p[1..]); }
      PrunedLeaf(x.fields[p[0]], Child(y, p[0]), p[1..]);
    }
  }

  /** Every text anywhere in the payload is the scrubbed form of the text that stands there in the case. */
  lemma PayloadTextsScrubbed(available: Json, fields: seq<string>, scrub: Scrubber, p: Path)
    requires Container(available) && |p| > 0 && ReadPath(Payload(available, fields, scrub), p).Text?
    ensures ReadPath(available, p).Text?
    ensures ReadPath(Payload(available, fields, scrub), p).s == scrub(ReadPath(available, p).s).text
  {
    PayloadHolds(available, fields, scrub, p);
    PrunedLeaf(Payload(available, fields, scrub), ScrubDeep(available, scrub), p);
    ReadScrubbed(available, p, scrub);
  }

  /** The patterns that applied to a text inside a value are among those that applied to the value. */
  lemma {:induction false} AppliedCovers(v: Json, p: Path, scrub: Scrubber)
    requires ReadPath(v, p).Text?
    ensures scrub(ReadPath(v, p).s).applied <= Applied(v, scrub)
    decreases |p|
  {
    if |p| > 0 {
      AppliedCovers(Child(v, p[0]), p[1..], scrub);
      AppliedChild(v, p[0], scrub);
    }
  }

  lemma AppliedChild(v: Json, segment: string, scrub: Scrubber)
    ensures Applied(Child(v, segment), scrub) <= Applied(v, scrub)
  {
    forall name | name in Applied(Child(v, segment), scrub) ensures name in Applied(v, scrub) {
      match v
      case Obj(fields) => assert segment in fields && name in Applied(fields[segment], scrub);
      case Arr(items) =>
        var i := Index(segment).value;
        assert i < |items| && name in Applied(items[i], scrub);
      case _ =>
    }
  }

  /**
   * Non-interference. Two cases whose permitted values look the same once scrubbed give the same payload
   * and the same list of missing fields, whatever else differs between them.
   */
  lemma {:induction false} NonInterference(a: Json, b: Json, fields: seq<string>, scrub: Scrubber)
    requires forall f :: f in fields ==>
      ScrubDeep(ReadPath(a, Split(f)), scrub) == ScrubDeep(ReadPath(b, Split(f)), scrub)
    ensures Payload(a, fields, scrub) == Payload(b, fields, scrub)
    ensures Missing(a, fields) == Missing(b, fields)
  {
    if |fields| > 0 {
      var last := |fields| - 1;
      NonInterference(a, b, fields[..last], scrub);
      assert fields[last] in fields;
      ScrubKeepsAbsence(ReadPath(a, Split(fields[last])), scrub);
      ScrubKeepsAbsence(ReadPath(b, Split(fields[last])), scrub);
    }
  }

  lemma {:induction false} MissingMeaning(available: Json, fields: seq<string>, field: string)
    ensures field in Missing(available, fields) <==> field in fields && !Present(available, field)
  {
    if |fields| > 0 {
      MissingMeaning(available, fields[..|fields| - 1], field);
      assert fields == fields[..|fields| - 1] + [fields[|fields| - 1]];
    }
  }

  // ---------------------------------------------------------------------------
  // What is withheld
  // ---------------------------------------------------------------------------

  function Extend(prefix: string, key: string): string { if prefix == "" then key else prefix + "." + key }

  function LeafPaths(v: Json, prefix: string): set<string>
    requires v.Obj?
    decreases v, 0
  {
    set k, s | k in v.fields && s in PathsAt(v.fields[k], Extend(prefix, k)) :: s
  }

  function PathsAt(v: Json, path: string): set<string>
    decreases v, 1
  {
    if v.Obj? then LeafPaths(v, path) else {path}
  }

  method EnumeratePaths(v: Json, prefix: string) returns (out: seq<string>)
    requires v.Obj?
    ensures forall s :: s in out <==> s in LeafPaths(v, prefix)
    decreases v
  {
    out := [];
    var todo := v.fields.Keys;
    while todo != {}
      invariant todo <= v.fields.Keys
      invariant forall s :: s in out <==>
        exists k :: k in v.fields.Keys - todo && s in PathsAt(v.fields[k], Extend(prefix, k))
      decreases todo
    {
      var key :| key in todo;
      var path := Extend(prefix, key);
      var value := v.fields[key];
      if value.Obj? {
        var inner := EnumeratePaths(value, path);
        out := out + inner;
      } else {
        out := out + [path];
      }
      todo := todo - {key};
    }
  }

  /** Looks up the path and each of its ancestors, longest first. */
  method IsPermitted(path: string, permitted: set<string>) returns (r: bool)
    ensures r <==> exists f :: f in permitted && Prefix(Split(f), Split(path))
  {
    var segments := Split(path);
    var i := |segments|;
    while i > 0
      invariant 0 <= i <= |segments|
      invariant forall f :: f in permitted && Prefix(Split(f), segments) ==> |Split(f)| <= i
    {
      if Join(segments[..i]) in permitted {
        SplitJoin(segments[..i]);
        return true;
      }
      forall f | f in permitted && Prefix(Split(f), segments) ensures |Split(f)| <= i - 1 {
        JoinSplit(f);
      }
      i := i - 1;
    }
    return false;
  }

  function Withheld(available: Json, fields: seq<string>): set<string>
    requires available.Obj?
  {
    set s | s in LeafPaths(available, "") && !Under(Split(s), fields)
  }

  method AssembleContext(available: Json, permittedFields: seq<string>, scrub: Scrubber) returns (r: Assembled)
    requires available.Obj?
    ensures r.payload == Payload(available, permittedFields, scrub)
    ensures r.missing == Missing(available, permittedFields)
    ensures forall s :: s in r.withheld <==> s in Withheld(available, permittedFields)
    ensures r.redactions == AppliedIn(available, permittedFields, scrub)
  {
    var payload, missing, applied := Obj(map[]), [], {};
    for n := 0 to |permittedFields|
      invariant payload == Payload(available, permittedFields[..n], scrub)
      invariant missing == Missing(available, permittedFields[..n])
      invariant applied == AppliedIn(available, permittedFields[..n], scrub)
    {
      var field := permittedFields[n];
      assert permittedFields[..n + 1][..n] == permittedFields[..n];
      AppliedStep(available, permittedFields, n, scrub);
      var value := ReadPath(available, Split(field));
      if value == Undefined {
        missing := missing + [field];
      } else {
        payload := WritePath(payload, Split(field), ScrubDeep(value, scrub));
        applied := applied + Applied(value, scrub);
      }
    }
    assert permittedFields[..|permittedFields|] == permittedFields;
    var paths := EnumeratePaths(available, "");
    var withheld := RejectPermitted(paths, permittedFields);
    r := Assembled(payload, missing, withheld, applied);
  }

  method RejectPermitted(paths: seq<string>, permittedFields: seq<string>) returns (withheld: seq<string>)
    ensures forall s :: s in withheld <==> s in paths && !Under(Split(s), permittedFields)
  {
    var permitted := set f | f in permittedFields;
    withheld := [];
    for n := 0 to |paths|
      invariant forall s :: s in withheld <==> s in paths[..n] && !Under(Split(s), permittedFields)
    {
      var ok := IsPermitted(paths[n], permitted);
      UnderSet(Split(paths[n]), permittedFields, permitted);
      if !ok { withheld := withheld + [paths[n]]; }
    }
    assert paths[..|paths|] == paths;
  }

  lemma UnderSet(path: Path, fields: seq<string>, permitted: set<string>)
    requires permitted == set f | f in fields
    ensures Under(path, fields) <==> exists f :: f in permitted && Prefix(Split(f), path)
  {
    if f :| f in permitted && Prefix(Split(f), path) {
      var i :| 0 <= i < |fields| && fields[i] == f;
      assert Prefix(Split(fields[i]), path);
    }
  }

  lemma AppliedStep(available: Json, fields: seq<string>, n: nat, scrub: Scrubber)
    requires n < |fields|
    ensures AppliedIn(available, fields[..n + 1], scrub) ==
            AppliedIn(available, fields[..n], scrub) + Applied(ReadPath(available, Split(fields[n])), scrub)
  {
    var one, all := fields[..n], fields[..n + 1];
    forall name | name in AppliedIn(available, all, scrub)
      ensures name in AppliedIn(available, one, scrub) + Applied(ReadPath(available, Split(fields[n])), scrub)
    {
      var i :| 0 <= i < |all| && name in Applied(ReadPath(available, Split(all[i])), scrub);
      if i < n { assert one[i] == all[i]; }
    }
    forall name | name in AppliedIn(available, one, scrub) ensures name in AppliedIn(available, all, scrub) {
      var i :| 0 <= i < |one| && name in Applied(ReadPath(available, Split(one[i])), scrub);
      assert one[i] == all[i];
    }
    assert all[n] == fields[n];
  }

  // ---------------------------------------------------------------------------
  // Every leaf is accounted for
  // ---------------------------------------------------------------------------

  /** The path leads through objects to something that is not one; a list is one leaf. */
  predicate Leaf(v: Json, path: Path)
    decreases |path|
  {
    if |path| == 0 then !v.Obj? else v.Obj? && path[0] in v.fields && Leaf(v.fields[path[0]], path[1..])
  }

  /** What the leaf at the end of `path` is called in the list of what was withheld. */
  function TextOf(prefix: string, path: Path): string
    decreases |path|
  {
    if |path| == 0 then prefix else TextOf(Extend(prefix, path[0]), path[1..])
  }

  lemma {:induction false} TextOfBelow(prefix: string, path: Path)
    requires prefix != ""
    ensures TextOf(prefix, path) == Join([prefix] + path)
    decreases |path|
  {
    if |path| > 0 {
      TextOfBelow(prefix + "." + path[0], path[1..]);
      assert ([prefix] + path)[1..] == [path[0]] + path[1..];
      assert ([prefix + "." + path[0]] + path[1..])[1..] == path[1..] == ([path[0]] + path[1..])[1..];
    } else {
      assert [prefix] + path == [prefix];
    }
  }

  lemma {:induction false} TextOfSegments(path: Path)
    requires Segments(path)
    ensures |Split(TextOf("", path))| <= |path|
    ensures path[0] != "" ==> Split(TextOf("", path)) == path
    decreases |path|
  {
    if path[0] != "" {
      TextOfBelow(path[0], path[1..]);
      assert [path[0]] + path[1..] == path;
      SplitJoin(path);
    } else if |path| > 1 {
      TextOfSegments(path[1..]);
    }
  }

  lemma {:induction false} LeafListed(v: Json, prefix: string, path: Path)
    requires Leaf(v, path) && |path| > 0
    ensures TextOf(prefix, path) in LeafPaths(v, prefix)
    decreases |path|
  {
    var k := path[0];
    if |path| > 1 { LeafListed(v.fields[k], Extend(prefix, k), path[1..]); }
    assert TextOf(prefix, path) in PathsAt(v.fields[k], Extend(prefix, k));
  }

  lemma ListedChild(v: Json, prefix: string, s: string) returns (k: string)
    requires v.Obj? && s in LeafPaths(v, prefix)
    ensures k in v.fields && s in PathsAt(v.fields[k], Extend(prefix, k))
  {
    k :| k in v.fields && s in PathsAt(v.fields[k], Extend(prefix, k));
  }

  lemma {:induction false} ListedLeaf(v: Json, prefix: string, s: string) returns (path: Path)
    requires v.Obj? && s in LeafPaths(v, prefix)
    ensures |path| > 0 && Leaf(v, path) && s == TextOf(prefix, path)
    decreases v
  {
    var k := ListedChild(v, prefix, s);
    if v.fields[k].Obj? {
      var rest := ListedLeaf(v.fields[k], Extend(prefix, k), s);
      path := [k] + rest;
    } else {
      path := [k];
    }
  }

  lemma {:induction false} LeafReads(v: Json, path: Path, q: Path)
    requires Leaf(v, path)
    ensures !ReadPath(v, path).Obj?
    ensures Prefix(path, q) && |q| > |path| && ReadPath(v, q) != Undefined ==> ReadPath(v, path).Arr?
    decreases |path|
  {
    if |path| == 0 {
      if |q| > 0 && !Container(v) { NothingUnderUndefined(q[1..]); }
    } else {
      LeafReads(v.fields[path[0]], path[1..], if |q| > 0 then q[1..] else q);
    }
  }

  /** The payload holds something where the leaf stands. */
  predicate Sent(available: Json, fields: seq<string>, scrub: Scrubber, path: Path) {
    ReadPath(Payload(available, fields, scrub), path) != Undefined
  }

  predicate Listed(available: Json, fields: seq<string>, path: Path)
    requires available.Obj?
  {
    TextOf("", path) in Withheld(available, fields)
  }

  /**
   * Under any keys, sending follows the path of a leaf and listing follows the text of that path, split
   * again. A leaf is therefore neither sent nor listed exactly when the allowlist covers the text but not the
   * path, and both when it covers the path, or something inside it, but not the text.
   */
  lemma LeafFate(available: Json, fields: seq<string>, scrub: Scrubber, path: Path)
    requires available.Obj? && |path| > 0 && Leaf(available, path) && ReadPath(available, path) != Undefined
    ensures var text := Split(TextOf("", path));
      && (!Sent(available, fields, scrub, path) && !Listed(available, fields, path) <==>
          !Under(path, fields) && !LeadsTo(path, fields, available) && Under(text, fields))
      && (Sent(available, fields, scrub, path) && Listed(available, fields, path) <==>
          (Under(path, fields) || LeadsTo(path, fields, available)) && !Under(text, fields))
  {
    LeafListed(available, "", path);
    PayloadMeaning(available, fields, scrub, path);
  }

  lemma TextNotBelow(path: Path)
    requires |path| > 0 && Prefix(path, Split(TextOf("", path)))
    ensures Prefix(Split(TextOf("", path)), path)
  {
    assert forall i :: 0 <= i < |path| ==> path[i] == Split(TextOf("", path))[i];
    TextOfSegments(path);
  }

  /**
   * Which leaves some allowlist loses: those whose keys, written with dots and split again, do not lead back
   * to the leaf or to something above it. The allowlist that names such a leaf by its text is enough.
   */
  lemma LosableIff(available: Json, scrub: Scrubber, path: Path)
    requires available.Obj? && |path| > 0 && Leaf(available, path) && ReadPath(available, path) != Undefined
    ensures (exists fields :: !Sent(available, fields, scrub, path) && !Listed(available, fields, path)) <==>
            !Prefix(Split(TextOf("", path)), path)
  {
    var text := TextOf("", path);
    if Prefix(Split(text), path) {
      forall fields ensures Sent(available, fields, scrub, path) || Listed(available, fields, path) {
        LeafFate(available, fields, scrub, path);
        if i :| 0 <= i < |fields| && Prefix(Split(fields[i]), Split(text)) {
          assert path[..|Split(fields[i])|] == Split(text)[..|Split(fields[i])|];
          assert Under(path, fields);
        }
      }
    } else {
      LeafFate(available, [text], scrub, path);
      assert Prefix(Split([text][0]), Split(text));
      if Prefix(path, Split(text)) { TextNotBelow(path); }
      assert !Sent(available, [text], scrub, path) && !Listed(available, [text], path);
    }
  }

  /**
   * A leaf whose keys have no dots, the first of them not empty, is sent, scrubbed, or is on the list of what
   * was withheld, and not both. A withheld leaf leaves a trace in the payload only if it is a list and the
   * allowlist names something inside it.
   */
  lemma EveryLeafAccounted(available: Json, fields: seq<string>, scrub: Scrubber, path: Path)
    requires available.Obj? && Leaf(available, path) && Segments(path) && path[0] != ""
    ensures Listed(available, fields, path) <==> !Under(path, fields)
    ensures Under(path, fields) ==>
      ReadPath(Payload(available, fields, scrub), path) == ScrubDeep(ReadPath(available, path), scrub)
    ensures Listed(available, fields, path) ==>
      (Sent(available, fields, scrub, path) <==> LeadsTo(path, fields, available))
    ensures Listed(available, fields, path) && LeadsTo(path, fields, available) ==>
      ReadPath(available, path).Arr?
  {
    LeafListed(available, "", path);
    TextOfSegments(path);
    PayloadMeaning(available, fields, scrub, path);
    if Listed(available, fields, path) && LeadsTo(path, fields, available) {
      var i :| 0 <= i < |fields| && Prefix(path, Split(fields[i])) && Present(available, fields[i]);
      assert !Prefix(Split(fields[i]), path);
      LeafReads(available, path, Split(fields[i]));
    }
  }

  /** And nothing is listed as withheld that is not the text of such a leaf. */
  lemma WithheldAreLeaves(available: Json, fields: seq<string>, s: string) returns (path: Path)
    requires available.Obj? && s in Withheld(available, fields)
    ensures |path| > 0 && Leaf(available, path) && s == TextOf("", path) && !Under(Split(s), fields)
  {
    path := ListedLeaf(available, "", s);
  }

  /** A key with a dot in it can be permitted, and is then neither sent nor reported as withheld. */
  lemma DottedKeyVanishes(key: string, text: string, scrub: Scrubber)
    requires !DotFree(key)
    ensures var available := Obj(map[key := Text(text)]);
      Withheld(available, [key]) == {}
      && Payload(available, [key], scrub) == Obj(map[])
      && Missing(available, [key]) == [key]
  {
    var available := Obj(map[key := Text(text)]);
    var path := Split(key);
    assert path[0] != key;
    assert Child(available, path[0]) == Undefined;
    NothingUnderUndefined(path[1..]);
    assert ReadPath(available, path) == Undefined;
    assert [key][..0] == [];
    assert Prefix(Split([key][0]), path);
    assert Under(path, [key]);
    OneLeafPaths(key, Text(text), "");
  }

  lemma OneLeafPaths(key: string, v: Json, prefix: string)
    ensures LeafPaths(Obj(map[key := v]), prefix) == PathsAt(v, Extend(prefix, key))
  {
    var o := Obj(map[key := v]);
    forall s | s in PathsAt(v, Extend(prefix, key)) ensures s in LeafPaths(o, prefix) {
      assert key in o.fields && s in PathsAt(o.fields[key], Extend(prefix, key));
    }
  }

  /** A leaf under an empty key at the top can be sent, and is then reported as withheld all the same. */
  lemma EmptyKeySentAndListed(key: string, text: string, scrub: Scrubber)
    requires DotFree(key) && key != ""
    ensures var available, field := Obj(map["" := Obj(map[key := Text(text)])]), "." + key;
      Withheld(available, [field]) == {key}
      && ReadPath(Payload(available, [field], scrub), ["", key]) == Text(scrub(text).text)
  {
    var inner := Obj(map[key := Text(text)]);
    var available, field := Obj(map["" := inner]), "." + key;
    var path := ["", key];
    assert path[1..] == [key];
    assert Join(path) == field;
    SplitJoin(path);
    SplitJoin([key]);
    assert ReadPath(available, path) == ReadPath(inner, [key]) == Text(text);
    assert Prefix(Split([field][0]), path);
    PayloadMeaning(available, [field], scrub, path);
    OneLeafPaths(key, Text(text), "");
    OneLeafPaths("", inner, "");
    assert !Under([key], [field]);
  }
}
