/** Comma-separated lists and the choice of an engine for a Work. */
module Selection {
  import opened Basics
  import opened StoreModel
  import opened ResourceModel

  // Comma-separated lists

  /** The non-empty fields from `pos` on. */
  function FieldsFrom(csv: Bytes, pos: nat): seq<Bytes>
    requires pos <= |csv|
    decreases |csv| - pos
  {
    var end := Find(csv, COMMA, pos);
    var field := if end > pos then [csv[pos..end]] else [];
    if end == |csv| then field else field + FieldsFrom(csv, end + 1)
  }

  function SplitCsv(csv: Bytes): seq<Bytes> {
    FieldsFrom(csv, 0)
  }

  function JoinCsv(values: seq<Bytes>): Bytes {
    if values == [] then []
    else if |values| == 1 then values[0]
    else values[0] + [COMMA] + JoinCsv(values[1..])
  }

  predicate Identifier(value: Bytes) {
    value != [] && COMMA !in value
  }

  /** The fields that a scan adds at its next stop, and what it still has to find behind it. */
  lemma {:induction false} FieldsStep(csv: Bytes, pos: nat, values: seq<Bytes>)
    requires pos <= |csv|
    ensures var end := Find(csv, COMMA, pos);
            var found := if end > pos then values + [csv[pos..end]] else values;
            values + FieldsFrom(csv, pos) == if end == |csv| then found else found + FieldsFrom(csv, end + 1)
  {
  }

  /** The scan of the source: one position that jumps from comma to comma. */
  method SplitCsvScan(csv: Bytes) returns (values: seq<Bytes>)
    ensures values == SplitCsv(csv)
  {
    hide FieldsFrom;
    values := [];
    var pos := 0;
    while pos <= |csv|
      invariant 0 <= pos <= |csv|
      invariant values + FieldsFrom(csv, pos) == SplitCsv(csv)
      decreases |csv| - pos
    {
      FieldsStep(csv, pos, values);
      var end := Find(csv, COMMA, pos);
      if end > pos {
        values := values + [csv[pos..end]];
      }
      if end == |csv| {
        break;
      }
      pos := end + 1;
    }
  }

  method JoinCsvLoop(values: seq<Bytes>) returns (out: Bytes)
    ensures out == JoinCsv(values)
  {
    out := [];
    ghost var done: seq<Bytes> := [];
    for i := 0 to |values|
      invariant out == JoinCsv(values[..i])
    {
      JoinAppend(values[..i], values[i]);
      assert values[..i + 1] == values[..i] + [values[i]];
      if i != 0 {
        out := out + [COMMA];
      }
      out := out + values[i];
    }
    assert values[..|values|] == values;
  }

  lemma {:induction false} JoinAppend(values: seq<Bytes>, last: Bytes)
    ensures JoinCsv(values + [last]) == (if values == [] then [] else JoinCsv(values) + [COMMA]) + last
  {
    if |values| > 1 {
      JoinAppend(values[1..], last);
      assert (values + [last])[1..] == values[1..] + [last];
    } else if |values| == 1 {
      assert (values + [last])[1..] == [last];
      assert JoinCsv([last]) == last;
    }
  }

  /** One scan step at an identifier: it is the next field. */
  lemma {:induction false} ScanField(csv: Bytes, pos: nat, field: Bytes, rest: Bytes)
    requires Identifier(field) && (rest == [] || rest[0] == COMMA)
    requires pos <= |csv| && csv[pos..] == field + rest
    ensures var end := pos + |field|;
            && end <= |csv| && csv[end..] == rest
            && FieldsFrom(csv, pos) == if rest == [] then [field] else [field] + FieldsFrom(csv, end + 1)
  {
    FindSkips(csv, COMMA, pos, field, rest);
    assert csv[pos..pos + |field|] == csv[pos..][..|field|] == field;
    assert csv[pos + |field|..] == csv[pos..][|field|..] == rest;
  }

  /** What follows the first value in the joined list. */
  function JoinedRest(values: seq<Bytes>): Bytes
    requires values != []
  {
    if |values| == 1 then [] else [COMMA] + JoinCsv(values[1..])
  }

  lemma {:induction false} JoinFirst(values: seq<Bytes>)
    requires values != []
    ensures JoinCsv(values) == values[0] + JoinedRest(values)
    ensures |values| > 1 ==> JoinedRest(values)[1..] == JoinCsv(values[1..])
  {
    assert values[0] + [] == values[0];
  }

  lemma {:induction false} FieldsOfJoin(csv: Bytes, pos: nat, values: seq<Bytes>)
    requires pos <= |csv| && csv[pos..] == JoinCsv(values)
    requires forall v :: v in values ==> Identifier(v)
    ensures FieldsFrom(csv, pos) == values
    decreases |values|
  {
    if values == [] {
      FieldsAt(csv, pos, pos);
    } else {
      hide FieldsFrom, JoinCsv, Identifier;
      JoinFirst(values);
      assert Identifier(values[0]);
      ScanField(csv, pos, values[0], JoinedRest(values));
      if |values| > 1 {
        var next := pos + |values[0]| + 1;
        assert csv[next..] == csv[next - 1..][1..];
        FieldsOfJoin(csv, next, values[1..]);
      }
    }
  }

  /** Splitting undoes joining for any list of non-empty comma-free fields, the empty list included. */
  lemma {:induction false} SplitJoin(values: seq<Bytes>)
    requires forall v :: v in values ==> Identifier(v)
    ensures SplitCsv(JoinCsv(values)) == values
  {
    FieldsOfJoin(JoinCsv(values), 0, values);
  }

  /** Every field that splitting yields is an identifier made of bytes of the text. */
  lemma {:induction false} FieldsAreIdentifiers(csv: Bytes, pos: nat)
    requires pos <= |csv|
    ensures forall v :: v in FieldsFrom(csv, pos) ==> Identifier(v) && forall b :: b in v ==> b in csv
    decreases |csv| - pos
  {
    var end := Find(csv, COMMA, pos);
    if end < |csv| {
      FieldsAreIdentifiers(csv, end + 1);
    }
  }

  // Engine selection

  // Splitting and joining, piece by piece

  lemma {:induction false} FieldsAt(csv: Bytes, pos: nat, end: nat)
    requires pos <= |csv| && end == Find(csv, COMMA, pos)
    ensures var field := if end > pos then [csv[pos..end]] else [];
            FieldsFrom(csv, pos) == if end == |csv| then field else field + FieldsFrom(csv, end + 1)
  {
  }

  /** What a scan finds from a position on depends on nothing before it. */
  lemma {:induction false} FieldsOfSuffix(csv: Bytes, pos: nat)
    requires pos <= |csv|
    ensures FieldsFrom(csv, pos) == FieldsFrom(csv[pos..], 0)
    decreases |csv| - pos
  {
    hide FieldsFrom, Find;
    var end := Find(csv, COMMA, pos);
    FindShift(csv, COMMA, pos);
    FieldsAt(csv, pos, end);
    FieldsAt(csv[pos..], 0, end - pos);
    assert csv[pos..][0..end - pos] == csv[pos..end];
    if end < |csv| {
      FieldsOfSuffix(csv, end + 1);
      FieldsOfSuffix(csv[pos..], end - pos + 1);
      assert csv[pos..][end - pos + 1..] == csv[end + 1..];
    }
  }

  /** A list splits at every comma; a part without a comma is one field, or none when it is empty. */
  lemma {:induction false} SplitAtComma(a: Bytes, b: Bytes)
    requires COMMA !in a
    ensures SplitCsv(a) == if a == [] then [] else [a]
    ensures SplitCsv(a + [COMMA] + b) == SplitCsv(a) + SplitCsv(b)
  {
    assert a[0..] == a + [];
    FindSkips(a, COMMA, 0, a, []);
    assert a[0..|a|] == a;
    var csv := a + [COMMA] + b;
    assert csv[0..] == a + ([COMMA] + b);
    FindSkips(csv, COMMA, 0, a, [COMMA] + b);
    assert csv[0..|a|] == a && csv[|a| + 1..] == b;
    FieldsOfSuffix(csv, |a| + 1);
  }

  /** Joining puts one comma between any two parts of the list, and nothing else anywhere. */
  lemma {:induction false} JoinInTwo(a: seq<Bytes>, b: seq<Bytes>)
    requires a != [] && b != []
    ensures JoinCsv(a + b) == JoinCsv(a) + [COMMA] + JoinCsv(b)
    ensures JoinCsv([]) == [] && JoinCsv([a[0]]) == a[0]
  {
    var all := a + b;
    if |a| == 1 {
      assert all[1..] == b;
    } else {
      assert all[1..] == a[1..] + b;
      JoinInTwo(a[1..], b);
    }
  }

  datatype Engine = Engine(
    id: Bytes,
    workTypes: seq<Bytes>,
    capabilities: seq<Bytes>,
    models: seq<Bytes>,
    efforts: seq<Effort>,
    available: bool,
    resources: Requirement)

  datatype Choice = Chosen(engine: Engine, model: Bytes) | NoMatch(stage: Stage)

  const STAGES := 6

  /** The stages in the order in which the filters run. */
  function StageAt(n: nat): Stage
    requires n < STAGES
  {
    match n
    case 0 => WorkTypeStage
    case 1 => CapabilityStage
    case 2 => AllowlistStage
    case 3 => ExactStage
    case 4 => EffortStage
    case _ => AvailabilityStage
  }

  /** What one filter stage keeps. */
  predicate Passes(stage: Stage, r: Request, e: Engine) {
    match stage
    case WorkTypeStage => r.workType in e.workTypes
    case CapabilityStage => forall c :: c in SplitCsv(r.requiredCapabilities) ==> c in e.capabilities
    case AllowlistStage => SplitCsv(r.eligibleEngineIds) == [] || e.id in SplitCsv(r.eligibleEngineIds)
    case ExactStage =>
      && (r.exactEngineId == [] || e.id == r.exactEngineId)
      && (r.exactModelId == [] || r.exactModelId in e.models)
    case EffortStage => r.effort in e.efforts
    case AvailabilityStage => e.available
  }

  /** Passing the first `n` stages together. */
  predicate PassesAll(n: nat, r: Request, e: Engine)
    requires n <= STAGES
  {
    forall k :: 0 <= k < n ==> Passes(StageAt(k), r, e)
  }

  function ModelFor(r: Request, e: Engine): Bytes {
    if r.exactModelId != [] then r.exactModelId else if e.models == [] then [] else e.models[0]
  }

  /** The first engine in inventory order that passes every stage. */
  function FirstMatch(r: Request, inventory: seq<Engine>): Option<Engine> {
    if inventory == [] then None
    else if PassesAll(STAGES, r, inventory[0]) then Some(inventory[0])
    else FirstMatch(r, inventory[1..])
  }

  /** Some engine of the inventory passes the first `n` stages. */
  ghost predicate Survives(n: nat, r: Request, inventory: seq<Engine>)
    requires n <= STAGES
  {
    exists e :: e in inventory && PassesAll(n, r, e)
  }

  /** The first stage, from the `n`th on, whose cumulative filter leaves no engine. */
  function FirstEmptyStage(r: Request, inventory: seq<Engine>, n: nat): Option<Stage>
    requires 1 <= n <= STAGES + 1
    decreases STAGES + 1 - n
  {
    if n > STAGES then None
    else if forall e :: e in inventory ==> !PassesAll(n, r, e) then Some(StageAt(n - 1))
    else FirstEmptyStage(r, inventory, n + 1)
  }

  function Select(r: Request, inventory: seq<Engine>): Choice {
    match FirstEmptyStage(r, inventory, 1)
    case Some(stage) => NoMatch(stage)
    case None =>
      match FirstMatch(r, inventory)
      case Some(e) => Chosen(e, ModelFor(r, e))
      case None => NoMatch(AvailabilityStage)
  }

  /** The engine at index `i` is the first of the inventory to pass every stage. */
  ghost predicate IsFirstMatch(r: Request, inventory: seq<Engine>, i: nat) {
    && i < |inventory|
    && PassesAll(STAGES, r, inventory[i])
    && forall j :: 0 <= j < i ==> !PassesAll(STAGES, r, inventory[j])
  }

  /** The `m`th stage is the first whose cumulative filter is empty. */
  ghost predicate IsFirstEmpty(r: Request, inventory: seq<Engine>, m: nat) {
    && 1 <= m <= STAGES
    && !Survives(m, r, inventory)
    && forall k :: 1 <= k < m ==> Survives(k, r, inventory)
  }

  lemma {:induction false} FirstMatchMeaning(r: Request, inventory: seq<Engine>)
    ensures FirstMatch(r, inventory).None? <==> !Survives(STAGES, r, inventory)
    ensures FirstMatch(r, inventory).Some? ==>
              exists i: nat :: IsFirstMatch(r, inventory, i) && inventory[i] == FirstMatch(r, inventory).value
  {
    if inventory != [] {
      FirstMatchMeaning(r, inventory[1..]);
      assert inventory == [inventory[0]] + inventory[1..];
      if PassesAll(STAGES, r, inventory[0]) {
        assert IsFirstMatch(r, inventory, 0);
      } else if FirstMatch(r, inventory[1..]).Some? {
        var i: nat :| IsFirstMatch(r, inventory[1..], i) && inventory[1..][i] == FirstMatch(r, inventory[1..]).value;
        hide PassesAll;
        assert inventory[1..][i] == inventory[i + 1];
        forall j | 0 <= j < i + 1
          ensures !PassesAll(STAGES, r, inventory[j])
        {
          if j > 0 {
            assert inventory[j] == inventory[1..][j - 1];
          }
        }
        assert IsFirstMatch(r, inventory, i + 1);
      }
    }
  }

  lemma {:induction false} FirstEmptyStageMeaning(r: Request, inventory: seq<Engine>, n: nat)
    requires 1 <= n <= STAGES + 1
    requires forall k :: 1 <= k < n ==> Survives(k, r, inventory)
    ensures FirstEmptyStage(r, inventory, n).None? ==> Survives(STAGES, r, inventory)
    ensures FirstEmptyStage(r, inventory, n).Some? ==>
              exists m: nat :: IsFirstEmpty(r, inventory, m) && StageAt(m - 1) == FirstEmptyStage(r, inventory, n).value
    decreases STAGES + 1 - n
  {
    hide PassesAll;
    if n > STAGES {
      assert Survives(n - 1, r, inventory);
    } else if Survives(n, r, inventory) {
      FirstEmptyStageMeaning(r, inventory, n + 1);
    } else {
      assert IsFirstEmpty(r, inventory, n);
    }
  }

  lemma {:induction false} SurvivalShrinks(m: nat, n: nat, r: Request, inventory: seq<Engine>)
    requires m <= n <= STAGES
    ensures Survives(n, r, inventory) ==> Survives(m, r, inventory)
  {
    if Survives(n, r, inventory) {
      var e :| e in inventory && PassesAll(n, r, e);
      assert PassesAll(m, r, e);
    }
  }

  /**
   A choice is the first engine in inventory order that satisfies all constraints together, with a model the engine
   lists (or the empty model when it lists none); a failure names the first stage whose cumulative filter is empty.
   */
  lemma {:induction false} SelectMeaning(r: Request, inventory: seq<Engine>)
    ensures Select(r, inventory).Chosen? <==> Survives(STAGES, r, inventory)
    ensures Select(r, inventory).Chosen? ==>
              var c := Select(r, inventory);
              && (exists i: nat :: IsFirstMatch(r, inventory, i) && inventory[i] == c.engine)
              && (if r.exactModelId != [] then c.model == r.exactModelId && c.model in c.engine.models
                  else if c.engine.models == [] then c.model == []
                  else c.model == c.engine.models[0])
    ensures Select(r, inventory).NoMatch? ==>
              exists m: nat :: IsFirstEmpty(r, inventory, m) && StageAt(m - 1) == Select(r, inventory).stage
  {
    FirstEmptyStageMeaning(r, inventory, 1);
    FirstMatchMeaning(r, inventory);
    var c := Select(r, inventory);
    if c.Chosen? {
      assert PassesAll(STAGES, r, c.engine);
      assert Passes(StageAt(3), r, c.engine);
    } else {
      var m: nat :| IsFirstEmpty(r, inventory, m) && StageAt(m - 1) == c.stage;
      SurvivalShrinks(m, STAGES, r, inventory);
    }
  }

  /** The first `n` of the six constraints of a request on an engine, in their order. */
  ghost predicate Meets(n: nat, r: Request, e: Engine) {
    && (n >= 1 ==> r.workType in e.workTypes)
    && (n >= 2 ==> forall c :: c in SplitCsv(r.requiredCapabilities) ==> c in e.capabilities)
    && (n >= 3 ==> var allowed := SplitCsv(r.eligibleEngineIds); allowed == [] || e.id in allowed)
    && (n >= 4 ==> (r.exactEngineId == [] || e.id == r.exactEngineId) && (r.exactModelId == [] || r.exactModelId in e.models))
    && (n >= 5 ==> r.effort in e.efforts)
    && (n >= 6 ==> e.available)
  }

  lemma {:induction false} PassesAllMeans(n: nat, r: Request, e: Engine)
    requires n <= STAGES
    ensures PassesAll(n, r, e) <==> Meets(n, r, e)
  {
    if PassesAll(n, r, e) {
      forall k | 0 <= k < n
        ensures Passes(StageAt(k), r, e)
      {
      }
      assert n >= 1 ==> Passes(StageAt(0), r, e);
      assert n >= 2 ==> Passes(StageAt(1), r, e);
      assert n >= 3 ==> Passes(StageAt(2), r, e);
      assert n >= 4 ==> Passes(StageAt(3), r, e);
      assert n >= 5 ==> Passes(StageAt(4), r, e);
      assert n >= 6 ==> Passes(StageAt(5), r, e);
    }
  }

  /** The engine at `i` is the first in the inventory that meets all six constraints. */
  ghost predicate FirstToMeet(r: Request, inventory: seq<Engine>, i: nat) {
    i < |inventory| && Meets(6, r, inventory[i]) && forall j :: 0 <= j < i ==> !Meets(6, r, inventory[j])
  }

  /** No engine meets the first `m` constraints, but some engine meets the first `m - 1`, unless the first one fails. */
  ghost predicate FirstToFail(r: Request, inventory: seq<Engine>, m: nat) {
    && 1 <= m <= 6
    && (forall e :: e in inventory ==> !Meets(m, r, e))
    && (m > 1 ==> exists e :: e in inventory && Meets(m - 1, r, e))
  }

  /**
   The choice in terms of the engines: the first one that meets all constraints, on the model that was asked for or on its
   own first one; or the constraint at which the last candidates were lost.
   */
  lemma {:induction false} SelectDecides(r: Request, inventory: seq<Engine>)
    ensures var c := Select(r, inventory);
            match c
            case Chosen(engine, model) =>
              && (exists i: nat :: FirstToMeet(r, inventory, i) && inventory[i] == engine)
              && model == (if r.exactModelId != [] then r.exactModelId else if engine.models == [] then [] else engine.models[0])
            case NoMatch(stage) =>
              && (stage.WorkTypeStage? ==> FirstToFail(r, inventory, 1))
              && (stage.CapabilityStage? ==> FirstToFail(r, inventory, 2))
              && (stage.AllowlistStage? ==> FirstToFail(r, inventory, 3))
              && (stage.ExactStage? ==> FirstToFail(r, inventory, 4))
              && (stage.EffortStage? ==> FirstToFail(r, inventory, 5))
              && (stage.AvailabilityStage? ==> FirstToFail(r, inventory, 6))
  {
    SelectMeaning(r, inventory);
    var c := Select(r, inventory);
    hide Select, Passes;
    if c.Chosen? {
      var i: nat :| IsFirstMatch(r, inventory, i) && inventory[i] == c.engine;
      MatchMeets(r, inventory, i);
    } else {
      var m: nat :| IsFirstEmpty(r, inventory, m) && StageAt(m - 1) == c.stage;
      EmptyFails(r, inventory, m);
    }
  }

  lemma {:induction false} MatchMeets(r: Request, inventory: seq<Engine>, i: nat)
    requires IsFirstMatch(r, inventory, i)
    ensures FirstToMeet(r, inventory, i)
  {
    hide PassesAll, Meets;
    PassesAllMeans(STAGES, r, inventory[i]);
    forall j | 0 <= j < i
      ensures !Meets(6, r, inventory[j])
    {
      PassesAllMeans(STAGES, r, inventory[j]);
    }
  }

  lemma {:induction false} EmptyFails(r: Request, inventory: seq<Engine>, m: nat)
    requires IsFirstEmpty(r, inventory, m)
    ensures FirstToFail(r, inventory, m)
  {
    hide PassesAll, Meets;
    forall e | e in inventory
      ensures !Meets(m, r, e)
    {
      PassesAllMeans(m, r, e);
    }
    if m > 1 {
      assert Survives(m - 1, r, inventory);
      var e :| e in inventory && PassesAll(m - 1, r, e);
      PassesAllMeans(m - 1, r, e);
    }
  }

  // The candidate list of the source, shrunk in place

  /** `erase_if` with one stage's test. */
  function Keep(stage: Stage, r: Request, candidates: seq<Engine>): seq<Engine> {
    if candidates == [] then []
    else if Passes(stage, r, candidates[0]) then [candidates[0]] + Keep(stage, r, candidates[1..])
    else Keep(stage, r, candidates[1..])
  }

  /** The engines of the inventory that pass the first `n` stages, in inventory order. */
  function KeepFirst(n: nat, r: Request, inventory: seq<Engine>): seq<Engine>
    requires n <= STAGES
  {
    if inventory == [] then []
    else if PassesAll(n, r, inventory[0]) then [inventory[0]] + KeepFirst(n, r, inventory[1..])
    else KeepFirst(n, r, inventory[1..])
  }

  /** One more filter keeps what passes one more stage. */
  lemma {:induction false} KeepNext(n: nat, r: Request, inventory: seq<Engine>)
    requires n < STAGES
    ensures Keep(StageAt(n), r, KeepFirst(n, r, inventory)) == KeepFirst(n + 1, r, inventory)
  {
    if inventory != [] {
      KeepNext(n, r, inventory[1..]);
      var e := inventory[0];
      assert PassesAll(n + 1, r, e) <==> PassesAll(n, r, e) && Passes(StageAt(n), r, e) by {
        if PassesAll(n, r, e) && Passes(StageAt(n), r, e) {
          forall k | 0 <= k < n + 1
            ensures Passes(StageAt(k), r, e)
          {
          }
        }
      }
      hide Passes, PassesAll;
      if PassesAll(n, r, e) {
        assert KeepFirst(n, r, inventory)[1..] == KeepFirst(n, r, inventory[1..]);
      }
    }
  }

  lemma {:induction false} KeepFirstMeaning(n: nat, r: Request, inventory: seq<Engine>)
    requires n <= STAGES
    ensures n == 0 ==> KeepFirst(n, r, inventory) == inventory
    ensures KeepFirst(n, r, inventory) != [] <==> Survives(n, r, inventory)
    ensures n == STAGES && KeepFirst(n, r, inventory) != [] ==>
              FirstMatch(r, inventory) == Some(KeepFirst(n, r, inventory)[0])
  {
    if inventory != [] {
      KeepFirstMeaning(n, r, inventory[1..]);
      assert inventory == [inventory[0]] + inventory[1..];
      if Survives(n, r, inventory) && !PassesAll(n, r, inventory[0]) {
        var e :| e in inventory && PassesAll(n, r, e);
        assert e in inventory[1..];
      }
    }
  }

  /** One `erase_if`: candidates that passed the first `n` stages are narrowed by the next one. */
  method Narrow(r: Request, ghost inventory: seq<Engine>, candidates: seq<Engine>, n: nat) returns (kept: seq<Engine>)
    requires n < STAGES
    requires candidates == KeepFirst(n, r, inventory)
    requires FirstEmptyStage(r, inventory, n + 1) == FirstEmptyStage(r, inventory, 1)
    ensures kept == KeepFirst(n + 1, r, inventory)
    ensures kept == [] ==> Select(r, inventory) == NoMatch(StageAt(n))
    ensures kept != [] ==> FirstEmptyStage(r, inventory, n + 2) == FirstEmptyStage(r, inventory, 1)
    ensures kept != [] && n + 1 == STAGES ==> Select(r, inventory) == Chosen(kept[0], ModelFor(r, kept[0]))
  {
    kept := Keep(StageAt(n), r, candidates);
    KeepNext(n, r, inventory);
    KeepFirstMeaning(n + 1, r, inventory);
    hide Passes, PassesAll, Keep, KeepFirst;
  }

  /** The six filters in their order, each leaving early when the list runs empty. */
  method SelectEngine(r: Request, inventory: seq<Engine>) returns (c: Choice)
    ensures c == Select(r, inventory)
  {
    KeepFirstMeaning(0, r, inventory);
    hide *;
    var candidates := Narrow(r, inventory, inventory, 0);
    if candidates == [] {
      return NoMatch(WorkTypeStage);
    }
    candidates := Narrow(r, inventory, candidates, 1);
    if candidates == [] {
      return NoMatch(CapabilityStage);
    }
    candidates := Narrow(r, inventory, candidates, 2);
    if candidates == [] {
      return NoMatch(AllowlistStage);
    }
    candidates := Narrow(r, inventory, candidates, 3);
    if candidates == [] {
      return NoMatch(ExactStage);
    }
    candidates := Narrow(r, inventory, candidates, 4);
    if candidates == [] {
      return NoMatch(EffortStage);
    }
    candidates := Narrow(r, inventory, candidates, 5);
    if candidates == [] {
      return NoMatch(AvailabilityStage);
    }
    return Chosen(candidates[0], ModelFor(r, candidates[0]));
  }
}
