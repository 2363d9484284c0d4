/**
 What the scorer's answers say of a candidate, a snapshot and a list of scores: when
 a dimension is a hit or a miss, which candidates count, and what a rate counts.
 */
module ScoringReadings {
  import opened Wrappers
  import opened Scoring

  // ---------------------------------------------------------------- dimensions

  predicate Holds(w: Window, t: int) { w.start <= t <= w.end }

  ghost predicate Meet(v: Window, w: Window) { exists t :: Holds(v, t) && Holds(w, t) }

  ghost predicate Exceeds(v: Window, w: Window) { exists t :: Holds(v, t) && !Holds(w, t) }

  /** Windows overlap when they share an instant; an inverted window has none. A claim is too wide when it
      has an instant outside the root's window. */
  lemma WindowsMean(v: Window, root: Window)
    ensures TimeMatch(Some(v), root) == Some(Meet(v, root))
    ensures Overclaim(Some(v), root) == if v.start <= v.end then Some(Exceeds(v, root)) else None
  {
    if v.start <= v.end {
      var t := Max(v.start, root.start);
      if t <= Min(v.end, root.end) {
        assert Holds(v, t) && Holds(root, t);
      }
      if v.start < root.start {
        assert Holds(v, v.start) && !Holds(root, v.start);
      }
      if v.end > root.end {
        assert Holds(v, v.end) && !Holds(root, v.end);
      }
    }
  }

  predicate Named(actual: Option<string>, expected: Option<string>, v: Truth) {
    && (v == Some(true) <==> actual.Some? && expected == actual)
    && (v == None <==> actual.None? || expected.None?)
  }

  /** When each dimension is a hit, a miss, or not known. */
  lemma MatchMeans(c: Candidate, root: Root, roots: set<Root>)
    ensures var d := Match(c, root, roots);
      var claimed := c.mechanism != "" && !c.negated;
      && (d.mechanism == Some(true) <==> claimed && c.mechanism in root.aliases)
      && (d.mechanism == Some(false) <==>
            claimed && c.mechanism !in root.aliases && exists r <- roots :: r.id != root.id && c.mechanism in r.aliases)
      && Named(c.operation, root.operation, d.operation) && Named(c.equipment, root.equipment, d.equipment)
      && Named(c.chamber, root.chamber, d.chamber) && Named(c.scope, Some(root.scope), d.scope)
      && (d.recipe == Some(true) <==> c.recipe.Some? && c.recipe.value in root.recipes) && (d.recipe.None? <==> c.recipe.None?)
      && (d.version.Some? <==> c.recipe.Some? && c.version.Some?)
      && (d.version.Some? ==> d.version.value == VersionAllowed(c.recipe.value, c.version.value, root))
      && (d.time.Some? <==> c.window.Some?)
      && (c.window.Some? ==> d.time.value == Meet(c.window.value, root.window))
      && (d.overclaim.Some? <==> c.window.Some? && c.window.value.start <= c.window.value.end)
      && (d.overclaim.Some? ==> d.overclaim.value == Exceeds(c.window.value, root.window))
      && (d.proof == Some(false) <==> root.restricted && c.detailed)
      && (d.proof == None <==> root.restricted && !c.detailed && exists a <- c.assertions :: a !in root.aliases)
  {
    if c.window.Some? {
      WindowsMean(c.window.value, root.window);
    }
  }

  // ------------------------------------------------------------------ verdicts

  /** Which dimensions a root asks of its identity. */
  predicate Asked(d: Dimensions, root: Root, v: Truth) {
    || d.mechanism == v || d.operation == v
    || (root.equipment.Some? && d.equipment == v) || (root.chamber.Some? && d.chamber == v)
    || (root.recipeRequired && (d.recipe == v || (root.versions != {} && d.version == v)))
  }

  predicate AskedOfProof(d: Dimensions, root: Root, v: Truth) {
    || Asked(d, root, v) || d.recipe == v || d.scope == v || d.time == v || d.proof == v
    || (root.versions != {} && d.version == v)
  }

  lemma RequiredAre(d: Dimensions, root: Root, v: Truth)
    ensures v in Required(d, root) <==> Asked(d, root, v)
  {
    var base := [d.mechanism, d.operation];
    var equipment := if root.equipment.Some? then [d.equipment] else [];
    var chamber := if root.chamber.Some? then [d.chamber] else [];
    var recipe := if root.recipeRequired then [d.recipe] + (if root.versions != {} then [d.version] else []) else [];
    assert Required(d, root) == base + equipment + chamber + recipe;
    assert v in base <==> d.mechanism == v || d.operation == v;
    assert v in recipe <==> root.recipeRequired && (d.recipe == v || (root.versions != {} && d.version == v));
  }

  lemma GroundingAre(d: Dimensions, root: Root, v: Truth)
    ensures v in Grounding(d, root) <==> AskedOfProof(d, root, v) || v == Some(d.overclaim != Some(true))
  {
    var more := [d.recipe, d.scope, d.time, d.proof];
    var version := if root.versions != {} then [d.version] else [];
    RequiredAre(d, root, v);
    assert Grounding(d, root) == Required(d, root) + more + version + [Some(d.overclaim != Some(true))];
    assert v in more <==> d.recipe == v || d.scope == v || d.time == v || d.proof == v;
  }

  /** A miss in one dimension asked for is a miss; a hit in all of them is a hit; anything else is not known. An
      overclaim counts like a missed dimension. */
  lemma VerdictsMean(d: Dimensions, root: Root)
    ensures Identity(d, root) == Some(false) <==> Asked(d, root, Some(false))
    ensures Identity(d, root) == Some(true) <==> !Asked(d, root, Some(false)) && !Asked(d, root, None)
    ensures Grounded(d, root) == Some(false) <==> AskedOfProof(d, root, Some(false)) || d.overclaim == Some(true)
    ensures Grounded(d, root) == Some(true) <==>
      !AskedOfProof(d, root, Some(false)) && !AskedOfProof(d, root, None) && d.overclaim != Some(true)
  {
    RequiredAre(d, root, Some(false));
    RequiredAre(d, root, None);
    GroundingAre(d, root, Some(false));
    GroundingAre(d, root, None);
  }

  // ---------------------------------------------------------------- a snapshot

  /** A confirmation counts what a supported gate selected; an earlier stage counts everything. */
  predicate Counted(s: Snapshot, c: Candidate) {
    s.stage == Some(Confirmation) ==> s.supported && s.selected.Some? && s.selected.value in c.ids
  }

  /** The verdict a stage asks for. */
  predicate Judged(s: Snapshot, c: Candidate, root: Root, roots: set<Root>, v: Truth) {
    v == if s.stage == Some(Confirmation) then Grounded(Match(c, root, roots), root) else Identity(Match(c, root, roots), root)
  }

  lemma {:induction false} SelectedAre(candidates: seq<Candidate>, supported: bool, selected: Option<string>, c: Candidate)
    ensures c in Selected(candidates, supported, selected) <==>
      c in candidates && supported && selected.Some? && selected.value in c.ids
  {
    if candidates != [] {
      SelectedAre(candidates[1..], supported, selected, c);
      assert c in candidates <==> c == candidates[0] || c in candidates[1..];
    }
  }

  lemma ObservedAre(s: Snapshot, c: Candidate)
    ensures c in Observed(s) <==> c in s.candidates && Counted(s, c)
  {
    SelectedAre(s.candidates, s.supported, s.selected, c);
  }

  /** A stage is a hit when one candidate that counts is, a miss when all of them are, or when none counts. */
  lemma AssessmentMeans(s: Snapshot, root: Root, roots: set<Root>)
    requires s.stage.Some?
    ensures var a := Assess(s, root, roots);
      && a.stage == s.stage.value
      && (a.hit == Some(true) <==> exists c <- s.candidates :: Counted(s, c) && Judged(s, c, root, roots, Some(true)))
      && (a.hit == Some(false) <==> forall c <- s.candidates | Counted(s, c) :: Judged(s, c, root, roots, Some(false)))
  {
    var seen := Observed(s);
    var vs := Verdicts(seen, s.stage.value, root, roots);
    forall c: Candidate ensures c in seen <==> c in s.candidates && Counted(s, c) {
      ObservedAre(s, c);
    }
    VerdictsOf(seen, s.stage.value, root, roots);
    assert AnyHit(vs) == Some(false) <==> forall v <- vs :: v == Some(false) by {
      OnlyMisses(vs);
    }
  }

  lemma VerdictsOf(seen: seq<Candidate>, stage: Stage, root: Root, roots: set<Root>)
    ensures forall v :: v in Verdicts(seen, stage, root, roots) <==> exists c <- seen :: Verdict(c, stage, root, roots) == v
  {
    var vs := Verdicts(seen, stage, root, roots);
    forall c | c in seen ensures Verdict(c, stage, root, roots) in vs {
      var i :| 0 <= i < |seen| && seen[i] == c;
      assert vs[i] in vs;
    }
    forall v | v in vs ensures exists c <- seen :: Verdict(c, stage, root, roots) == v {
      var i :| 0 <= i < |vs| && vs[i] == v;
      assert seen[i] in seen;
    }
  }

  lemma OnlyMisses(vs: seq<Truth>)
    ensures AnyHit(vs) == Some(false) <==> forall v <- vs :: v == Some(false)
  {
    if AnyHit(vs) == Some(false) {
      forall v <- vs ensures v == Some(false) {
        assert v.Some? && v == Some(v.value);
        assert !v.value;
      }
    }
  }

  // ----------------------------------------------------------------------- rates

  /** The scores a rate is about. */
  predicate About(s: Score, expected: Option<string>) { s.primary && (expected.None? || expected == Some(s.expected)) }

  function Places(scores: seq<Score>, expected: Option<string>): set<nat> {
    set i: nat | i < |scores| && About(scores[i], expected)
  }

  function PlacesOf(scores: seq<Score>, expected: Option<string>, v: Truth): set<nat> {
    set i: nat | i < |scores| && About(scores[i], expected) && scores[i].hit == v
  }

  lemma {:induction false} EligibleAppend(scores: seq<Score>, s: Score, expected: Option<string>)
    ensures Eligible(scores + [s], expected) == Eligible(scores, expected) + if About(s, expected) then [s.hit] else []
  {
    if scores == [] {
      assert scores + [s] == [s] && [s][1..] == [];
    } else {
      assert (scores + [s])[1..] == scores[1..] + [s];
      EligibleAppend(scores[1..], s, expected);
    }
  }

  lemma {:induction false} CountsAppend(values: seq<Truth>, v: Truth)
    ensures Hits(values + [v]) == Hits(values) + if v == Some(true) then 1 else 0
    ensures Unknowns(values + [v]) == Unknowns(values) + if v.None? then 1 else 0
  {
    if values == [] {
      assert values + [v] == [v] && [v][1..] == [];
    } else {
      assert (values + [v])[1..] == values[1..] + [v];
      CountsAppend(values[1..], v);
    }
  }

  lemma PlacesAppend(scores: seq<Score>, s: Score, expected: Option<string>)
    ensures |Places(scores + [s], expected)| == |Places(scores, expected)| + if About(s, expected) then 1 else 0
  {
    var longer, n := scores + [s], |scores|;
    forall i: nat
      ensures i in Places(longer, expected) <==> i in Places(scores, expected) || (i == n && About(s, expected))
    {
      assert i < n ==> longer[i] == scores[i];
    }
    assert n !in Places(scores, expected);
    assert Places(longer, expected) == Places(scores, expected) + if About(s, expected) then {n} else {};
  }

  lemma PlacesOfAppend(scores: seq<Score>, s: Score, expected: Option<string>, v: Truth)
    ensures |PlacesOf(scores + [s], expected, v)|
      == |PlacesOf(scores, expected, v)| + if About(s, expected) && s.hit == v then 1 else 0
  {
    var longer, n, counts := scores + [s], |scores|, About(s, expected) && s.hit == v;
    forall i: nat
      ensures i in PlacesOf(longer, expected, v) <==> i in PlacesOf(scores, expected, v) || (i == n && counts)
    {
      assert i < n ==> longer[i] == scores[i];
    }
    assert n !in PlacesOf(scores, expected, v);
    assert PlacesOf(longer, expected, v) == PlacesOf(scores, expected, v) + if counts then {n} else {};
  }

  /** A rate counts each primary score of the expected outcome once: its hits, its unknowns, and all of them. */
  lemma {:induction false} RateCounts(scores: seq<Score>, expected: Option<string>)
    ensures var r := QualityRate(scores, expected);
      && r.denominator == |Places(scores, expected)|
      && r.numerator == |PlacesOf(scores, expected, Some(true))|
      && r.unknown == |PlacesOf(scores, expected, None)|
  {
    if scores != [] {
      var init, last := scores[..|scores| - 1], scores[|scores| - 1];
      RateCounts(init, expected);
      OneMoreScore(init, last, expected);
      assert scores == init + [last];
    }
  }

  lemma OneMoreScore(scores: seq<Score>, s: Score, expected: Option<string>)
    requires |Eligible(scores, expected)| == |Places(scores, expected)|
    requires Hits(Eligible(scores, expected)) == |PlacesOf(scores, expected, Some(true))|
    requires Unknowns(Eligible(scores, expected)) == |PlacesOf(scores, expected, None)|
    ensures |Eligible(scores + [s], expected)| == |Places(scores + [s], expected)|
    ensures Hits(Eligible(scores + [s], expected)) == |PlacesOf(scores + [s], expected, Some(true))|
    ensures Unknowns(Eligible(scores + [s], expected)) == |PlacesOf(scores + [s], expected, None)|
  {
    EligibleAppend(scores, s, expected);
    PlacesAppend(scores, s, expected);
    PlacesOfAppend(scores, s, expected, Some(true));
    PlacesOfAppend(scores, s, expected, None);
    CountsAppend(Eligible(scores, expected), s.hit);
    assert Eligible(scores, expected) + [] == Eligible(scores, expected);
  }
}
