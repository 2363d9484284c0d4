/**
 The evaluator's scorer: decisions with an honest "unknown", the funnel that
 groups a run's snapshots by operation and attempt, and the rates over runs.
 */
module Scoring {
  import opened Wrappers

  // None is "not observed": neither a hit nor a miss.
  type Truth = Option<bool>

  // ---------------------------------------------------------- three-valued verdicts

  /** A miss decides; otherwise an unknown leaves the whole unknown. */
  function Combine(values: seq<Truth>): Truth {
    if Some(false) in values then Some(false) else if None in values then None else Some(true)
  }

  /** One hit decides; otherwise an unknown leaves the whole unknown. */
  function AnyHit(values: seq<Truth>): Truth {
    if Some(true) in values then Some(true) else if None in values then None else Some(false)
  }

  /** `known` answers some of the unknowns of `values` and keeps every answer already given. */
  predicate Resolves(values: seq<Truth>, known: seq<Truth>) {
    |values| == |known| && forall i | 0 <= i < |values| :: values[i].Some? ==> known[i] == values[i]
  }

  predicate Complete(values: seq<Truth>) { None !in values }

  function Filled(values: seq<Truth>, b: bool): (r: seq<Truth>)
    ensures Resolves(values, r) && Complete(r)
  {
    seq(|values|, i requires 0 <= i < |values| => if values[i].Some? then values[i] else Some(b))
  }

  /** A combined verdict is given exactly when every way of resolving the unknowns gives it. */
  lemma CombineDecidedIff(values: seq<Truth>, b: bool)
    ensures Combine(values) == Some(b)
      <==> forall known :: Resolves(values, known) && Complete(known) ==> Combine(known) == Some(b)
  {
    if Combine(values) == Some(b) {
      forall known | Resolves(values, known) && Complete(known) ensures Combine(known) == Some(b) {
        ResolvedAgrees(values, known);
      }
    } else {
      var worst := Filled(values, !b);
      assert Combine(worst) != Some(b) by {
        if Combine(values) == None && b {
          var i :| 0 <= i < |values| && values[i] == None;
          assert worst[i] == Some(false);
        } else if Combine(values) == Some(!b) {
          ResolvedAgrees(values, worst);
        }
      }
    }
  }

  lemma ResolvedAgrees(values: seq<Truth>, known: seq<Truth>)
    requires Resolves(values, known)
    ensures Combine(values).Some? ==> Combine(known) == Combine(values)
    ensures AnyHit(values).Some? ==> AnyHit(known) == AnyHit(values)
  {
    if i :| 0 <= i < |values| && values[i] == Some(false) {
      assert known[i] == Some(false);
    }
    if i :| 0 <= i < |values| && values[i] == Some(true) {
      assert known[i] == Some(true);
    }
  }

  /** The same of the funnel's verdict over several candidates. */
  lemma AnyHitDecidedIff(values: seq<Truth>, b: bool)
    ensures AnyHit(values) == Some(b)
      <==> forall known :: Resolves(values, known) && Complete(known) ==> AnyHit(known) == Some(b)
  {
    if AnyHit(values) == Some(b) {
      forall known | Resolves(values, known) && Complete(known) ensures AnyHit(known) == Some(b) {
        ResolvedAgrees(values, known);
      }
    } else {
      var worst := Filled(values, !b);
      assert AnyHit(worst) != Some(b) by {
        if AnyHit(values) == None && !b {
          var i :| 0 <= i < |values| && values[i] == None;
          assert worst[i] == Some(true);
        } else if AnyHit(values) == Some(!b) {
          ResolvedAgrees(values, worst);
        }
      }
    }
  }

  // --------------------------------------------------------------- one candidate

  datatype Window = Window(start: int, end: int)

  // A reviewed root cause. Names are normalised; times are instants.
  datatype Root = Root(
    id: string, aliases: set<string>, operation: Option<string>,
    equipment: Option<string>, chamber: Option<string>,
    recipes: set<string>, recipeRequired: bool, versions: set<string>, pairs: set<(string, string)>,
    scope: string, window: Window, restricted: bool)

  // What a candidate claims, after the fallbacks between its own fields and its profile.
  // `window` is None when absent or unreadable; `negated` says the mechanism text denies itself.
  datatype Candidate = Candidate(
    ids: set<string>, mechanism: string, negated: bool, operation: Option<string>,
    equipment: Option<string>, chamber: Option<string>, recipe: Option<string>, version: Option<string>,
    scope: Option<string>, window: Option<Window>, assertions: set<string>, detailed: bool)

  datatype Dimensions = Dimensions(
    mechanism: Truth, operation: Truth, equipment: Truth, chamber: Truth, recipe: Truth, version: Truth,
    scope: Truth, time: Truth, overclaim: Truth, proof: Truth)

  function MechanismMatch(c: Candidate, root: Root, roots: set<Root>): Truth {
    if c.negated || c.mechanism == "" then None
    else if c.mechanism in root.aliases then Some(true)
    else if exists r <- roots :: r.id != root.id && c.mechanism in r.aliases then Some(false)
    else None
  }

  function NameMatch(actual: Option<string>, expected: Option<string>): Truth {
    if expected.None? || actual.None? then None else Some(actual == expected)
  }

  function VersionMatch(c: Candidate, root: Root): Truth {
    if c.version.None? || c.recipe.None? then None
    else if root.pairs != {} then Some((c.recipe.value, c.version.value) in root.pairs)
    else Some(c.version.value in root.versions)
  }

  function Min(a: int, b: int): int { if a < b then a else b }

  function TimeMatch(window: Option<Window>, root: Window): Truth {
    if window.None? then None
    else if window.value.start > window.value.end then Some(false)
    else Some(Max(window.value.start, root.start) <= Min(window.value.end, root.end))
  }

  function Overclaim(window: Option<Window>, root: Window): Truth {
    if window.None? || window.value.start > window.value.end then None
    else Some(window.value.start < root.start || window.value.end > root.end)
  }

  function ProofMatch(c: Candidate, root: Root): Truth {
    if root.restricted && c.detailed then Some(false)
    else if root.restricted && !(c.assertions <= root.aliases) then None
    else Some(true)
  }

  function Match(c: Candidate, root: Root, roots: set<Root>): Dimensions {
    Dimensions(
      MechanismMatch(c, root, roots), NameMatch(c.operation, root.operation),
      NameMatch(c.equipment, root.equipment), NameMatch(c.chamber, root.chamber),
      if c.recipe.None? then None else Some(c.recipe.value in root.recipes), VersionMatch(c, root),
      if c.scope.None? then None else Some(c.scope.value == root.scope),
      TimeMatch(c.window, root.window), Overclaim(c.window, root.window), ProofMatch(c, root))
  }

  /** The dimensions that make the identity of this root. */
  function Required(d: Dimensions, root: Root): seq<Truth> {
    [d.mechanism, d.operation]
    + (if root.equipment.Some? then [d.equipment] else [])
    + (if root.chamber.Some? then [d.chamber] else [])
    + (if root.recipeRequired then [d.recipe] + (if root.versions != {} then [d.version] else []) else [])
  }

  function Identity(d: Dimensions, root: Root): Truth { Combine(Required(d, root)) }

  function GroundingDimensions(d: Dimensions, root: Root): seq<Truth> {
    Required(d, root) + [d.recipe, d.scope, d.time, d.proof] + if root.versions != {} then [d.version] else []
  }

  /** An overclaim that is not known to be one does not count against the candidate. */
  function Grounding(d: Dimensions, root: Root): seq<Truth> {
    GroundingDimensions(d, root) + [Some(d.overclaim != Some(true))]
  }

  function Grounded(d: Dimensions, root: Root): Truth { Combine(Grounding(d, root)) }

  predicate Answers(a: Option<string>, b: Option<string>) { a.Some? ==> b == a }

  /**
   The same candidate with more of it observed: fields that were missing, a mechanism that was absent
   or denied itself, further assertions, or a component. What was observed stays. This is about the
   claims after the fallbacks: a field that appears and takes precedence over an earlier fallback, such
   as a mechanism id over a root-cause text, changes the claim and is another candidate.
   */
  predicate Observes(c: Candidate, more: Candidate) {
    && (c.mechanism != "" && !c.negated ==> more.mechanism == c.mechanism && !more.negated)
    && c.assertions <= more.assertions && (c.detailed ==> more.detailed)
    && Answers(c.operation, more.operation) && Answers(c.equipment, more.equipment)
    && Answers(c.chamber, more.chamber) && Answers(c.recipe, more.recipe) && Answers(c.version, more.version)
    && Answers(c.scope, more.scope) && (c.window.Some? ==> more.window == c.window)
  }

  predicate Refines(v: Truth, w: Truth) { v.Some? ==> w == v }

  /** Only unknowns change, and an overclaim is known as soon as an overlap is. */
  predicate DimensionsRefine(d: Dimensions, e: Dimensions) {
    && Refines(d.mechanism, e.mechanism) && Refines(d.operation, e.operation)
    && Refines(d.equipment, e.equipment) && Refines(d.chamber, e.chamber)
    && Refines(d.recipe, e.recipe) && Refines(d.version, e.version) && Refines(d.scope, e.scope)
    && Refines(d.time, e.time) && Refines(d.overclaim, e.overclaim) && Refines(d.proof, e.proof)
    && (d.time == Some(true) ==> d.overclaim.Some?)
  }

  /** Observing more resolves unknown dimensions only; the granularity of the proof is the one that may fall. */
  lemma ObservingRefines(
      c: Candidate, more: Candidate, root: Root, roots: set<Root>, moreRoots: set<Root>)
    requires Observes(c, more) && roots <= moreRoots
    ensures var d, e := Match(c, root, roots), Match(more, root, moreRoots);
      && DimensionsRefine(d, e.(proof := d.proof))
      && (d.proof == Some(false) ==> e.proof == Some(false))
  {
  }

  lemma RequiredRefines(d: Dimensions, e: Dimensions, root: Root)
    requires DimensionsRefine(d, e)
    ensures Resolves(Required(d, root), Required(e, root))
  {
    var recipe := (x: Dimensions) =>
      if root.recipeRequired then [x.recipe] + (if root.versions != {} then [x.version] else []) else [];
    var equipment := (x: Dimensions) => if root.equipment.Some? then [x.equipment] else [];
    var chamber := (x: Dimensions) => if root.chamber.Some? then [x.chamber] else [];
    ResolvesJoin([d.mechanism, d.operation], [e.mechanism, e.operation], equipment(d), equipment(e));
    ResolvesJoin([d.mechanism, d.operation] + equipment(d), [e.mechanism, e.operation] + equipment(e), chamber(d), chamber(e));
    ResolvesJoin([d.mechanism, d.operation] + equipment(d) + chamber(d), [e.mechanism, e.operation] + equipment(e) + chamber(e),
                 recipe(d), recipe(e));
  }

  lemma ResolvesJoin(a: seq<Truth>, b: seq<Truth>, c: seq<Truth>, d: seq<Truth>)
    requires Resolves(a, b) && Resolves(c, d)
    ensures Resolves(a + c, b + d)
  {
  }

  /**
   Resolving unknown dimensions either way never overturns a verdict: although an unknown overclaim
   counts as no overclaim, it is never unknown where the overlap is confirmed.
   */
  lemma DimensionsAreSound(d: Dimensions, e: Dimensions, root: Root)
    requires DimensionsRefine(d, e)
    ensures Refines(Identity(d, root), Identity(e, root)) && Refines(Grounded(d, root), Grounded(e, root))
  {
    RequiredRefines(d, e, root);
    ResolvedAgrees(Required(d, root), Required(e, root));
    GroundedRefines(d, e, root);
  }

  lemma GroundedRefines(d: Dimensions, e: Dimensions, root: Root)
    requires DimensionsRefine(d, e)
    ensures Refines(Grounded(d, root), Grounded(e, root))
  {
    RequiredRefines(d, e, root);
    var x, y := GroundingDimensions(d, root), GroundingDimensions(e, root);
    assert Resolves(x, y);
    assert x[|Required(d, root)| + 2] == d.time;
    if d.overclaim.Some? {
      ResolvedAgrees(Grounding(d, root), Grounding(e, root));
    } else {
      // The overlap is not confirmed either, so only a miss among the dimensions decides.
      ResolvedAgrees(x, y);
      assert d.time == None || d.time == Some(false) by {
        if d.time.Some? {
          assert d.time == Some(d.time.value);
          assert !d.time.value;
        }
      }
      assert Some(false) in x ==> Combine(y) == Some(false);
      assert Grounded(d, root) != Some(true);
    }
  }

  /** The verdict once the granularity of the proof is settled: it can spoil a hit but not mend a miss. */
  lemma ProofDecides(d: Dimensions, root: Root, proof: Truth)
    ensures Grounded(d, root) == Some(true) ==> Grounded(d.(proof := proof), root) == proof
    ensures Grounded(d, root) == Some(false) && (d.proof == Some(false) ==> proof == Some(false))
      ==> Grounded(d.(proof := proof), root) == Some(false)
    ensures Identity(d.(proof := proof), root) == Identity(d, root)
  {
    var x, y := Grounding(d, root), Grounding(d.(proof := proof), root);
    var at := |Required(d, root)| + 3;
    assert Required(d.(proof := proof), root) == Required(d, root);
    assert |x| == |y| && x[at] == d.proof && y == x[at := proof];
    if Grounded(d, root) == Some(true) {
      OneLeft(x, at, proof);
    } else if Grounded(d, root) == Some(false) {
      var i :| 0 <= i < |x| && x[i] == Some(false);
      assert y[i] in y;
    }
  }

  /** With every other value a hit, the one that is left decides. */
  lemma OneLeft(values: seq<Truth>, at: nat, v: Truth)
    requires at < |values| && Combine(values) == Some(true)
    ensures Combine(values[at := v]) == v
  {
    AllHits(values);
    var after := values[at := v];
    assert after[at] == v && forall w <- after :: w == v || w in values;
    assert v.Some? ==> v == Some(v.value);
    if v.Some? && v.value {
      assert forall w <- after :: w == Some(true);
    }
  }

  /**
   Observing more of a candidate, or reviewing more roots, never overturns an identity verdict or a
   missed grounding. A grounded candidate stays grounded unless its root restricts the granularity:
   then a component observed now refutes it, and an assertion not reviewed for that root unsettles it.
   */
  lemma VerdictsAreSound(
      c: Candidate, more: Candidate, root: Root, roots: set<Root>, moreRoots: set<Root>)
    requires Observes(c, more) && roots <= moreRoots
    ensures var d, e := Match(c, root, roots), Match(more, root, moreRoots);
      && Refines(Identity(d, root), Identity(e, root))
      && (Grounded(d, root) == Some(false) ==> Grounded(e, root) == Some(false))
      && (Grounded(d, root) == Some(true) ==>
            Grounded(e, root) == if root.restricted && more.detailed then Some(false)
                                 else if root.restricted && !(more.assertions <= root.aliases) then None
                                 else Some(true))
  {
    var d, e := Match(c, root, roots), Match(more, root, moreRoots);
    ObservingRefines(c, more, root, roots, moreRoots);
    DimensionsAreSound(d, e.(proof := d.proof), root);
    ProofDecides(e.(proof := d.proof), root, e.proof);
    assert e.(proof := d.proof).(proof := e.proof) == e;
  }

  /** A reviewed root that asks for no component, and a candidate that meets it in every dimension. */
  const REVIEWED := Root("etch", {"etch"}, Some("op"), None, None, {"R"}, false, {}, {}, "lot", Window(0, 9), true)
  const GROUNDED := Candidate(
    {"C"}, "etch", false, Some("op"), None, None, Some("R"), None, Some("lot"), Some(Window(1, 2)), {"etch"}, false)

  /** Grounded, then refuted by a component, and unsettled by an assertion, that are only observed later. */
  lemma LaterObservationUnsettles()
    ensures var component, assertion := GROUNDED.(detailed := true), GROUNDED.(assertions := {"etch", "valve"});
      && Observes(GROUNDED, component) && Observes(GROUNDED, assertion)
      && Grounded(Match(GROUNDED, REVIEWED, {}), REVIEWED) == Some(true)
      && Grounded(Match(component, REVIEWED, {}), REVIEWED) == Some(false)
      && Grounded(Match(assertion, REVIEWED, {}), REVIEWED) == None
  {
    var component, assertion := GROUNDED.(detailed := true), GROUNDED.(assertions := {"etch", "valve"});
    var d := Match(GROUNDED, REVIEWED, {});
    assert Grounding(d, REVIEWED)
      == [Some(true), Some(true), Some(true), Some(true), Some(true), Some(true), Some(true)];
    assert "valve" != "etch";
    VerdictsAreSound(GROUNDED, component, REVIEWED, {}, {});
    VerdictsAreSound(GROUNDED, assertion, REVIEWED, {}, {});
  }

  predicate VersionAllowed(recipe: string, version: string, root: Root) {
    if root.pairs != {} then (recipe, version) in root.pairs else version in root.versions
  }

  predicate Within(window: Window, root: Window) { root.start <= window.start <= window.end <= root.end }

  /**
   A grounded candidate is an identity hit whose window lies inside the root's and whose recipe and
   version are allowed together; a missed identity is never grounded.
   */
  lemma GroundedMeans(c: Candidate, root: Root, roots: set<Root>)
    ensures var d := Match(c, root, roots);
      && (Grounded(d, root) == Some(true) ==>
            && Identity(d, root) == Some(true)
            && c.window.Some? && Within(c.window.value, root.window)
            && c.mechanism in root.aliases && c.operation == root.operation
            && (root.equipment.Some? ==> c.equipment == root.equipment)
            && (root.chamber.Some? ==> c.chamber == root.chamber)
            && c.recipe.Some? && c.recipe.value in root.recipes && c.scope == Some(root.scope)
            && (root.versions != {} ==> c.version.Some? && VersionAllowed(c.recipe.value, c.version.value, root))
            && (root.restricted ==> !c.detailed && c.assertions <= root.aliases))
      && (Identity(d, root) == Some(false) ==> Grounded(d, root) == Some(false))
  {
    var d := Match(c, root, roots);
    if Grounded(d, root) == Some(true) {
      GroundedHits(d, root);
      RequiredHits(d, root);
    }
    assert forall v <- Required(d, root) :: v in Grounding(d, root);
  }

  lemma RequiredHits(d: Dimensions, root: Root)
    requires Identity(d, root) == Some(true)
    ensures d.mechanism == Some(true) && d.operation == Some(true)
    ensures root.equipment.Some? ==> d.equipment == Some(true)
    ensures root.chamber.Some? ==> d.chamber == Some(true)
  {
    var need := Required(d, root);
    AllHits(need);
    assert need[0] == d.mechanism && need[1] == d.operation;
    if root.equipment.Some? {
      assert need[2] == d.equipment;
    }
    if root.chamber.Some? {
      assert need[if root.equipment.Some? then 3 else 2] == d.chamber;
    }
  }

  lemma GroundedHits(d: Dimensions, root: Root)
    requires Grounded(d, root) == Some(true)
    ensures Identity(d, root) == Some(true)
    ensures d.recipe == Some(true) && d.scope == Some(true) && d.time == Some(true) && d.proof == Some(true)
    ensures root.versions != {} ==> d.version == Some(true)
    ensures d.overclaim != Some(true)
  {
    var need, full := Required(d, root), Grounding(d, root);
    var n := |need|;
    AllHits(full);
    assert forall i | 0 <= i < n :: need[i] == full[i];
    assert full[n] == d.recipe && full[n + 1] == d.scope && full[n + 2] == d.time && full[n + 3] == d.proof;
    if root.versions != {} {
      assert full[n + 4] == d.version;
    }
    assert full[|full| - 1] == Some(d.overclaim != Some(true));
  }

  lemma AllHits(values: seq<Truth>)
    requires Combine(values) == Some(true)
    ensures forall i | 0 <= i < |values| :: values[i] == Some(true)
  {
    forall i | 0 <= i < |values| ensures values[i] == Some(true) {
      assert values[i] in values && values[i] != None && values[i] != Some(false);
      assert values[i].Some? && values[i] == Some(values[i].value);
      assert values[i].value;
    }
  }

  // -------------------------------------------------------------------- the funnel

  datatype Stage = InitialRaw | Admitted | Competition | Ranking | Confirmation

  // `stage` is None for a snapshot of no interest; the operation and attempt are None when not
  // recorded as a string and an integer. `supported` and `selected` are the gate's decision.
  datatype Snapshot = Snapshot(
    stage: Option<Stage>, candidates: seq<Candidate>, supported: bool, selected: Option<string>,
    operation: Option<string>, attempt: Option<int>)

  datatype Assessed = Assessed(stage: Stage, hit: Truth)
  datatype Entry = Entry(observations: seq<Assessed>, latest: map<Stage, Assessed>)
  datatype Funnel = Funnel(order: seq<string>, table: map<string, map<int, Entry>>)

  /** Confirmation only counts the candidate the gate selected, and only when supported. */
  function Observed(s: Snapshot): seq<Candidate> {
    if s.stage != Some(Confirmation) then s.candidates
    else Selected(s.candidates, s.supported, s.selected)
  }

  function Selected(candidates: seq<Candidate>, supported: bool, selected: Option<string>): seq<Candidate> {
    if candidates == [] || !supported || selected.None? then []
    else
      (if selected.value in candidates[0].ids then [candidates[0]] else [])
      + Selected(candidates[1..], supported, selected)
  }

  function Assess(s: Snapshot, root: Root, roots: set<Root>): Assessed
    requires s.stage.Some?
  {
    Assessed(s.stage.value, AnyHit(Verdicts(Observed(s), s.stage.value, root, roots)))
  }

  // The part of a candidate the gate selects by does not change when more of it is observed.
  predicate SnapshotObserves(s: Snapshot, more: Snapshot) {
    && more == s.(candidates := more.candidates) && |more.candidates| == |s.candidates|
    && forall i | 0 <= i < |s.candidates| ::
         Observes(s.candidates[i], more.candidates[i]) && more.candidates[i].ids == s.candidates[i].ids
  }

  /** What leaves the granularity of a proof as it was: no component, and only reviewed assertions. */
  predicate Keeps(c: Candidate, root: Root) { root.restricted ==> !c.detailed && c.assertions <= root.aliases }

  /** Confirmation asks for a grounded candidate, the earlier stages for its identity. */
  function Verdict(c: Candidate, stage: Stage, root: Root, roots: set<Root>): Truth {
    var d := Match(c, root, roots);
    if stage.Confirmation? then Grounded(d, root) else Identity(d, root)
  }

  function Verdicts(seen: seq<Candidate>, stage: Stage, root: Root, roots: set<Root>): seq<Truth> {
    seq(|seen|, i requires 0 <= i < |seen| =>
      Verdict(seen[i], stage, root, roots))
  }

  lemma {:induction false} SelectedObserves(a: seq<Candidate>, b: seq<Candidate>, supported: bool, selected: Option<string>)
    requires |a| == |b| && forall i | 0 <= i < |a| :: Observes(a[i], b[i]) && b[i].ids == a[i].ids
    ensures var x, y := Selected(a, supported, selected), Selected(b, supported, selected);
      |x| == |y| && forall i | 0 <= i < |x| :: Observes(x[i], y[i])
  {
    if a != [] {
      SelectedObserves(a[1..], b[1..], supported, selected);
    }
  }

  /** One candidate's verdict, for either field the funnel reads. */
  lemma VerdictRefines(
      c: Candidate, more: Candidate, stage: Stage, root: Root, roots: set<Root>, moreRoots: set<Root>)
    requires Observes(c, more) && roots <= moreRoots
    ensures var v, w := Verdict(c, stage, root, roots), Verdict(more, stage, root, moreRoots);
      && (v == Some(false) ==> w == Some(false))
      && (!stage.Confirmation? ==> Refines(v, w))
      && (stage.Confirmation? && v == Some(true) ==> (w == Some(true) <==> Keeps(more, root)))
  {
    VerdictsAreSound(c, more, root, roots, moreRoots);
  }

  /** A candidate that keeps a confirmation: one grounded before that keeps its proof, or one grounded only now. */
  predicate Confirms(v: Truth, w: Truth, more: Candidate, root: Root) {
    (v == Some(true) && Keeps(more, root)) || (v == None && w == Some(true))
  }

  /**
   The funnel's verdict on a snapshot under further observation. A miss stays a miss. A hit stays one
   at the stages that ask for the identity; at confirmation it stays exactly when some candidate
   confirms it, which, if no verdict was unknown, means one that was grounded and keeps its proof.
   */
  lemma AssessmentIsSound(
      s: Snapshot, more: Snapshot, root: Root, roots: set<Root>, moreRoots: set<Root>)
    requires s.stage.Some? && SnapshotObserves(s, more) && roots <= moreRoots
    ensures var stage, a, b := s.stage.value, Assess(s, root, roots), Assess(more, root, moreRoots);
      var x, y := Verdicts(Observed(s), stage, root, roots), Verdicts(Observed(more), stage, root, moreRoots);
      && b.stage == a.stage == stage && |Observed(more)| == |x| == |y|
      && (a.hit == Some(false) ==> b.hit == Some(false))
      && (!stage.Confirmation? ==> Refines(a.hit, b.hit))
      && (stage.Confirmation? && a.hit == Some(true) ==>
            (b.hit == Some(true) <==> exists i :: 0 <= i < |x| && Confirms(x[i], y[i], Observed(more)[i], root)))
      && (stage.Confirmation? && a.hit == Some(true) && Complete(x) ==>
            (b.hit == Some(true) <==> exists i :: 0 <= i < |x| && x[i] == Some(true) && Keeps(Observed(more)[i], root)))
  {
    var stage, a, b := s.stage.value, Observed(s), Observed(more);
    SelectedObserves(s.candidates, more.candidates, s.supported, s.selected);
    var x, y := Verdicts(a, stage, root, roots), Verdicts(b, stage, root, moreRoots);
    forall i | 0 <= i < |a|
      ensures x[i] == Some(false) ==> y[i] == Some(false)
      ensures !stage.Confirmation? ==> Refines(x[i], y[i])
      ensures stage.Confirmation? && x[i] == Some(true) ==> (y[i] == Some(true) <==> Keeps(b[i], root))
    {
      VerdictRefines(a[i], b[i], stage, root, roots, moreRoots);
    }
    if AnyHit(x) == Some(false) {
      AllMissed(x, y);
    }
    if stage.Confirmation? {
      StillConfirmed(x, y, b, root);
    } else {
      ResolvedAgrees(x, y);
    }
  }

  lemma StillConfirmed(x: seq<Truth>, y: seq<Truth>, b: seq<Candidate>, root: Root)
    requires |x| == |y| == |b|
    requires forall i | 0 <= i < |x| :: x[i] == Some(false) ==> y[i] == Some(false)
    requires forall i | 0 <= i < |x| :: x[i] == Some(true) ==> (y[i] == Some(true) <==> Keeps(b[i], root))
    ensures AnyHit(y) == Some(true) <==> exists i :: 0 <= i < |x| && Confirms(x[i], y[i], b[i], root)
    ensures Complete(x) ==>
      (AnyHit(y) == Some(true) <==> exists i :: 0 <= i < |x| && x[i] == Some(true) && Keeps(b[i], root))
  {
    if AnyHit(y) == Some(true) {
      var i :| 0 <= i < |y| && y[i] == Some(true);
      assert x[i] in x && x[i] != Some(false);
      if x[i].Some? {
        assert x[i] == Some(x[i].value) && x[i].value;
      }
      assert Confirms(x[i], y[i], b[i], root);
    }
    if i :| 0 <= i < |x| && Confirms(x[i], y[i], b[i], root) {
      assert y[i] in y;
      assert x[i] in x;
    }
  }

  lemma AllMissed(x: seq<Truth>, y: seq<Truth>)
    requires |x| == |y| && AnyHit(x) == Some(false)
    requires forall i | 0 <= i < |x| :: x[i] == Some(false) ==> y[i] == Some(false)
    ensures AnyHit(y) == Some(false)
  {
    forall i | 0 <= i < |x| ensures x[i] == Some(false) {
      assert x[i] in x && x[i] != None && x[i] != Some(true);
      assert x[i].Some? && x[i] == Some(x[i].value);
      assert !x[i].value;
    }
  }

  predicate Bound(s: Snapshot) { s.stage.Some? && s.operation.Some? && s.attempt.Some? }

  /** The operations in the order they first appear. */
  function Operations(snapshots: seq<Snapshot>): seq<string> {
    if snapshots == [] then []
    else
      var before, s := Operations(snapshots[..|snapshots| - 1]), snapshots[|snapshots| - 1];
      if Bound(s) && s.operation.value !in before then before + [s.operation.value] else before
  }

  /** What was observed of one attempt of one operation, in order. */
  function At(snapshots: seq<Snapshot>, operation: string, attempt: int, root: Root, roots: set<Root>): seq<Assessed> {
    if snapshots == [] then []
    else
      var before, s := At(snapshots[..|snapshots| - 1], operation, attempt, root, roots), snapshots[|snapshots| - 1];
      if Bound(s) && s.operation.value == operation && s.attempt.value == attempt
      then before + [Assess(s, root, roots)] else before
  }

  function Latest(observations: seq<Assessed>, stage: Stage): Option<Assessed> {
    if observations == [] then None
    else
      var last := observations[|observations| - 1];
      if last.stage == stage then Some(last) else Latest(observations[..|observations| - 1], stage)
  }

  predicate EntryShows(e: Entry, observations: seq<Assessed>) {
    && e.observations == observations
    && forall stage: Stage :: (if stage in e.latest then Some(e.latest[stage]) else None) == Latest(observations, stage)
  }

  /** The grouped view holds every bound snapshot once, under its own operation and attempt. */
  ghost predicate Shows(f: Funnel, snapshots: seq<Snapshot>, root: Root, roots: set<Root>) {
    && f.order == Operations(snapshots)
    && (forall op :: op in f.table <==> op in f.order)
    && (forall op, k :: (op in f.table && k in f.table[op]) <==> At(snapshots, op, k, root, roots) != [])
    && forall op, k :: op in f.table && k in f.table[op] ==>
         EntryShows(f.table[op][k], At(snapshots, op, k, root, roots))
  }

  function Recall(f: Funnel): Truth {
    if f.order == [] || f.order[0] !in f.table then None
    else
      var first := f.table[f.order[0]];
      if 0 in first && InitialRaw in first[0].latest then first[0].latest[InitialRaw].hit else None
  }

  /** Initial recall read off the snapshots: the first operation's last initial output of attempt 0. */
  function InitialRecall(snapshots: seq<Snapshot>, root: Root, roots: set<Root>): Truth {
    if Operations(snapshots) == [] then None
    else
      var last := Latest(At(snapshots, Operations(snapshots)[0], 0, root, roots), InitialRaw);
      if last.None? then None else last.value.hit
  }

  method Observe(e: Entry, a: Assessed) returns (after: Entry)
    requires EntryShows(e, e.observations)
    ensures EntryShows(after, e.observations + [a])
  {
    var longer := e.observations + [a];
    assert longer[..|e.observations|] == e.observations;
    after := Entry(longer, e.latest[a.stage := a]);
  }

  method AlignedFunnel(snapshots: seq<Snapshot>, root: Root, roots: set<Root>) returns (f: Funnel, recall: Truth)
    ensures Shows(f, snapshots, root, roots)
    ensures recall == InitialRecall(snapshots, root, roots)
  {
    f := Funnel([], map[]);
    var i := 0;
    while i < |snapshots|
      invariant i <= |snapshots|
      invariant Shows(f, snapshots[..i], root, roots)
    {
      var s := snapshots[i];
      assert snapshots[..i + 1][..i] == snapshots[..i];
      if Bound(s) {
        f := Place(f, snapshots[..i], s, root, roots);
        assert snapshots[..i] + [s] == snapshots[..i + 1];
      }
      i := i + 1;
    }
    assert snapshots[..i] == snapshots;
    recall := Recall(f);
  }

  method Place(f: Funnel, ghost before: seq<Snapshot>, s: Snapshot, root: Root, roots: set<Root>) returns (after: Funnel)
    requires Bound(s) && Shows(f, before, root, roots)
    ensures Shows(after, before + [s], root, roots)
  {
    var op, k := s.operation.value, s.attempt.value;
    assert (before + [s])[..|before|] == before;
    var attempts := if op in f.table then f.table[op] else map[];
    var current := if k in attempts then attempts[k] else Entry([], map[]);
    assert current.observations == At(before, op, k, root, roots);
    current := Observe(current, Assess(s, root, roots));
    after := Funnel(if op in f.table then f.order else f.order + [op], f.table[op := attempts[k := current]]);
  }

  /** The snapshots that can set initial recall, once the first operation is known. */
  predicate IsInitialOf(s: Snapshot, operation: string) {
    Bound(s) && s.operation.value == operation && s.attempt.value == 0 && s.stage.value.InitialRaw?
  }

  lemma RecallAfter(snapshots: seq<Snapshot>, s: Snapshot, root: Root, roots: set<Root>)
    requires Operations(snapshots) != []
    ensures Operations(snapshots + [s]) != [] && Operations(snapshots + [s])[0] == Operations(snapshots)[0]
    ensures InitialRecall(snapshots + [s], root, roots)
      == if IsInitialOf(s, Operations(snapshots)[0]) then Assess(s, root, roots).hit
         else InitialRecall(snapshots, root, roots)
  {
    var op := Operations(snapshots)[0];
    assert (snapshots + [s])[..|snapshots|] == snapshots;
    var before, after := At(snapshots, op, 0, root, roots), At(snapshots + [s], op, 0, root, roots);
    if after != before {
      assert after[..|before|] == before;
    }
  }

  /** Nothing later than the initial output of the first operation can improve or lower initial recall. */
  lemma {:induction false} RepairCannotBackfill(
      snapshots: seq<Snapshot>, more: seq<Snapshot>, root: Root, roots: set<Root>)
    requires Operations(snapshots) != []
    requires forall s <- more :: !IsInitialOf(s, Operations(snapshots)[0])
    ensures Operations(snapshots + more) != [] && Operations(snapshots + more)[0] == Operations(snapshots)[0]
    ensures InitialRecall(snapshots + more, root, roots) == InitialRecall(snapshots, root, roots)
    decreases |more|
  {
    if more == [] {
      assert snapshots + more == snapshots;
    } else {
      var init, last := more[..|more| - 1], more[|more| - 1];
      assert forall s <- init :: s in more;
      RepairCannotBackfill(snapshots, init, root, roots);
      RecallAfter(snapshots + init, last, root, roots);
      assert snapshots + more == snapshots + init + [last];
    }
  }

  // ------------------------------------------------------------------------- rates

  datatype Score = Score(primary: bool, expected: string, hit: Truth)
  datatype Rate = Rate(numerator: nat, denominator: nat, unknown: nat, value: Option<real>)

  function Eligible(scores: seq<Score>, expected: Option<string>): seq<Truth> {
    if scores == [] then []
    else
      var s := scores[0];
      (if s.primary && (expected.None? || s.expected == expected.value) then [s.hit] else [])
      + Eligible(scores[1..], expected)
  }

  function Hits(values: seq<Truth>): (n: nat)
    ensures n <= |values|
  {
    if values == [] then 0 else (if values[0] == Some(true) then 1 else 0) + Hits(values[1..])
  }

  function Unknowns(values: seq<Truth>): (n: nat)
    ensures n <= |values|
    ensures n == 0 <==> Complete(values)
  {
    if values == [] then 0 else (if values[0].None? then 1 else 0) + Unknowns(values[1..])
  }

  function Share(n: nat, d: nat): real
    requires d > 0
  {
    n as real / d as real
  }

  function QualityRate(scores: seq<Score>, expected: Option<string>): Rate {
    var eligible := Eligible(scores, expected);
    var hits, unknown := Hits(eligible), Unknowns(eligible);
    Rate(hits, |eligible|, unknown,
      if eligible != [] && unknown == 0 then Some(Share(hits, |eligible|)) else None)
  }

  predicate ScoresResolve(scores: seq<Score>, known: seq<Score>) {
    && |scores| == |known|
    && forall i | 0 <= i < |scores| ::
         && known[i].primary == scores[i].primary && known[i].expected == scores[i].expected
         && known[i].hit.Some? && Refines(scores[i].hit, known[i].hit)
  }

  /** The scores with every unknown verdict decided alike. */
  function Settled(scores: seq<Score>, b: bool): (r: seq<Score>)
    ensures ScoresResolve(scores, r)
  {
    if scores == [] then []
    else [if scores[0].hit.Some? then scores[0] else scores[0].(hit := Some(b))] + Settled(scores[1..], b)
  }

  lemma {:induction false} EligibleResolves(scores: seq<Score>, known: seq<Score>, expected: Option<string>)
    requires ScoresResolve(scores, known)
    ensures Resolves(Eligible(scores, expected), Eligible(known, expected))
    ensures Complete(Eligible(known, expected))
  {
    if scores != [] {
      EligibleResolves(scores[1..], known[1..], expected);
      ResolvesCons(scores[0].hit, Eligible(scores[1..], expected), known[0].hit, Eligible(known[1..], expected));
    }
  }

  lemma ResolvesCons(v: Truth, values: seq<Truth>, w: Truth, known: seq<Truth>)
    requires Resolves(values, known) && Complete(known) && w.Some? && Refines(v, w)
    ensures Resolves([v] + values, [w] + known) && Complete([w] + known)
    ensures Resolves([] + values, [] + known) && Complete([] + known)
  {
    assert [] + values == values && [] + known == known;
  }

  lemma {:induction false} HitsSettled(scores: seq<Score>, b: bool, expected: Option<string>)
    ensures var e, k := Eligible(scores, expected), Eligible(Settled(scores, b), expected);
      && |k| == |e| && Unknowns(k) == 0
      && Hits(k) == Hits(e) + if b then Unknowns(e) else 0
  {
    if scores != [] {
      HitsSettled(scores[1..], b, expected);
      var s, e, k := scores[0], Eligible(scores[1..], expected), Eligible(Settled(scores, b)[1..], expected);
      if s.primary && (expected.None? || s.expected == expected.value) {
        assert Eligible(scores, expected) == [s.hit] + e && ([s.hit] + e)[1..] == e;
        var hit := Settled(scores, b)[0].hit;
        assert Eligible(Settled(scores, b), expected) == [hit] + k && ([hit] + k)[1..] == k;
      } else {
        assert Eligible(scores, expected) == e;
        assert Eligible(Settled(scores, b), expected) == k;
      }
    }
  }

  lemma {:induction false} HitsBounded(values: seq<Truth>, known: seq<Truth>)
    requires Resolves(values, known) && Complete(known)
    ensures Hits(values) <= Hits(known) <= Hits(values) + Unknowns(values)
    ensures Complete(values) ==> known == values
  {
    if values != [] {
      HitsBounded(values[1..], known[1..]);
    }
  }

  lemma ShareMonotone(n: nat, m: nat, d: nat)
    requires n <= m && d > 0
    ensures Share(n, d) <= Share(m, d)
  {
  }

  /**
   The true rate, whatever the unknown verdicts turn out to be, lies between numerator/denominator
   and (numerator + unknown)/denominator, and a value is only given when the two meet.
   */
  lemma RateBounds(scores: seq<Score>, known: seq<Score>, expected: Option<string>)
    requires ScoresResolve(scores, known) && QualityRate(scores, expected).denominator > 0
    ensures var r, truth := QualityRate(scores, expected), QualityRate(known, expected);
      && truth.denominator == r.denominator && truth.value.Some?
      && Share(r.numerator, r.denominator) <= truth.value.value <= Share(r.numerator + r.unknown, r.denominator)
      && (r.value.Some? <==> r.unknown == 0)
      && (r.value.Some? ==> truth.value == r.value)
  {
    var values, truths := Eligible(scores, expected), Eligible(known, expected);
    EligibleResolves(scores, known, expected);
    HitsBounded(values, truths);
    ShareMonotone(Hits(values), Hits(truths), |values|);
    ShareMonotone(Hits(truths), Hits(values) + Unknowns(values), |values|);
  }

  /** Both ends of the interval occur: settle every unknown verdict one way or the other. */
  lemma RateBoundsAttained(scores: seq<Score>, b: bool, expected: Option<string>)
    requires QualityRate(scores, expected).denominator > 0
    ensures var r, end := QualityRate(scores, expected), QualityRate(Settled(scores, b), expected);
      && end.numerator == r.numerator + (if b then r.unknown else 0) && end.denominator == r.denominator
      && end.value == Some(Share(end.numerator, end.denominator))
  {
    HitsSettled(scores, b, expected);
  }
}
