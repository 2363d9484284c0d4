/**
 The dispatcher's crash-safe ledger: one latch file per launched run, one
 completion mark per finished run, and the file names that order them.
 */
module PilotLedger {
  import opened Wrappers
  import opened BenchmarkPlan

  // ----------------------------------------------------------------- file names

  /** Decimal digits, without leading zeros. */
  function Decimal(n: nat): string {
    if n < 10 then [('0' as int + n) as char] else Decimal(n / 10) + [('0' as int + n % 10) as char]
  }

  /** Padded to two digits. */
  function Stem(order: nat): string { if order < 10 then "0" + Decimal(order) else Decimal(order) }

  function LatchName(order: nat): string { Stem(order) + ".json" }

  // ------------------------------------------------------------------ the ledger

  // `run` is None for a latch that was created but not written before a crash.
  datatype Latch = Latch(name: string, run: Option<PlannedRun>)

  // `latches` in the order the directory lists them; `complete` are the names marked finished.
  datatype Files = Files(latches: seq<Latch>, complete: set<string>)

  function Insert(latches: seq<Latch>, l: Latch): seq<Latch> {
    if latches == [] then [l]
    else if StringBefore(l.name, latches[0].name) then [l] + latches
    else [latches[0]] + Insert(latches[1..], l)
  }

  predicate Named(latches: seq<Latch>, name: string) { exists l <- latches :: l.name == name }

  datatype Refusal = Exhausted | Torn | OrderDiffers | Incomplete | LatchExists

  // How far a dispatch gets: it may stop before the latch, tear the latch, stop during the run, or finish.
  datatype Progress = StopsBefore | TearsLatch | StopsInRun | Finishes

  function Checked(f: Files, runs: seq<PlannedRun>, i: nat): Option<Refusal>
    requires i <= |f.latches| <= |runs|
    decreases |f.latches| - i
  {
    if i == |f.latches| then None
    else if f.latches[i].run.None? then Some(Torn)
    else if f.latches[i].run.value != runs[i] then Some(OrderDiffers)
    else if f.latches[i].name !in f.complete then Some(Incomplete)
    else Checked(f, runs, i + 1)
  }

  /** Why the next run may not be launched. */
  function Blocked(f: Files, runs: seq<PlannedRun>): Option<Refusal> {
    if |f.latches| >= |runs| then Some(Exhausted)
    else
      var refusal := Checked(f, runs, 0);
      if refusal.Some? then refusal
      else if Named(f.latches, LatchName(runs[|f.latches|].order)) then Some(LatchExists)
      else None
  }

  /** The ledger afterwards, and the run that was really launched, if any. */
  function Dispatched(f: Files, runs: seq<PlannedRun>, p: Progress): (Files, Option<PlannedRun>) {
    if Blocked(f, runs).Some? || p.StopsBefore? then (f, None)
    else
      var run := runs[|f.latches|];
      var name := LatchName(run.order);
      if p.TearsLatch? then (Files(Insert(f.latches, Latch(name, None)), f.complete), None)
      else
        (Files(Insert(f.latches, Latch(name, Some(run))), if p.Finishes? then f.complete + {name} else f.complete),
         Some(run))
  }

  /** The on-disk ledger, and the runs launched against it since it was empty. */
  class Ledger {
    var latches: seq<Latch>
    var complete: set<string>
    ghost var launched: seq<PlannedRun>

    constructor ()
      ensures latches == [] && complete == {} && launched == []
    {
      latches, complete, launched := [], {}, [];
    }

    ghost function State(): Files
      reads this
    {
      Files(latches, complete)
    }

    /** The loop over the listed latches. */
    method Check(runs: seq<PlannedRun>) returns (refusal: Option<Refusal>)
      requires |latches| <= |runs|
      ensures refusal == Checked(State(), runs, 0)
    {
      for i := 0 to |latches|
        invariant Checked(State(), runs, 0) == Checked(State(), runs, i)
      {
        if latches[i].run.None? {
          return Some(Torn);
        }
        if latches[i].run.value != runs[i] {
          return Some(OrderDiffers);
        }
        if latches[i].name !in complete {
          return Some(Incomplete);
        }
      }
      return None;
    }

    /** One dispatch; `p` is where the process stops. */
    method Dispatch(runs: seq<PlannedRun>, p: Progress) returns (r: Result<Option<PlannedRun>, Refusal>)
      modifies this
      ensures (State(), if r.Success? then r.value else None) == Dispatched(old(State()), runs, p)
      ensures r.Failure? <==> Blocked(old(State()), runs).Some?
      ensures r.Failure? ==> Some(r.error) == Blocked(old(State()), runs)
      ensures launched == old(launched) + if r.Success? && r.value.Some? then [r.value.value] else []
    {
      if |latches| >= |runs| {
        return Failure(Exhausted);
      }
      var refusal := Check(runs);
      if refusal.Some? {
        return Failure(refusal.value);
      }
      var run := runs[|latches|];
      var name := LatchName(run.order);
      if Named(latches, name) {
        return Failure(LatchExists);
      }
      if p.StopsBefore? {
        return Success(None);
      }
      if p.TearsLatch? {
        latches := Insert(latches, Latch(name, None));
        return Success(None);
      }
      latches := Insert(latches, Latch(name, Some(run)));
      launched := launched + [run];
      if p.Finishes? {
        complete := complete + {name};
      }
      return Success(Some(run));
    }
  }

  /** The ledger and the launched runs after a series of dispatches. */
  function Dispatches(runs: seq<PlannedRun>, ps: seq<Progress>): (Files, seq<PlannedRun>) {
    if ps == [] then (Files([], {}), [])
    else
      var (f, launched) := Dispatches(runs, ps[..|ps| - 1]);
      var (after, run) := Dispatched(f, runs, ps[|ps| - 1]);
      (after, launched + if run.Some? then [run.value] else [])
  }

  // ------------------------------------------------------------------- properties

  /** What a plan guarantees of its rows. */
  predicate Ordered(runs: seq<PlannedRun>) { forall i | 0 <= i < |runs| :: runs[i].order == i + 1 }

  predicate LatchOf(l: Latch, runs: seq<PlannedRun>, i: nat)
    requires i < |runs|
  {
    l.name == LatchName(i + 1) && (l.run.Some? ==> l.run.value == runs[i])
  }

  /** Up to 99 runs are listed in plan order, all written and finished but perhaps the last. */
  ghost predicate InPlanOrder(f: Files, runs: seq<PlannedRun>, launched: seq<PlannedRun>) {
    var n := |f.latches|;
    && n <= 99 && n <= |runs|
    && (forall i | 0 <= i < n :: LatchOf(f.latches[i], runs, i))
    && (forall i | 0 <= i < n - 1 :: f.latches[i].run.Some?)
    && (forall name <- f.complete :: Named(f.latches, name))
    && launched == runs[..if n > 0 && f.latches[n - 1].run.None? then n - 1 else n]
  }

  /** The hundredth latch is listed among the others: the last one listed is the 99th. */
  ghost predicate Overflowed(f: Files, runs: seq<PlannedRun>, launched: seq<PlannedRun>) {
    && |f.latches| == 100 <= |runs|
    && LatchOf(f.latches[99], runs, 98)
    && (launched == runs[..99] || launched == runs[..100])
  }

  ghost predicate LedgerInv(f: Files, runs: seq<PlannedRun>, launched: seq<PlannedRun>) {
    InPlanOrder(f, runs, launched) || Overflowed(f, runs, launched)
  }

  lemma StemDigits(n: nat)
    requires n < 100
    ensures |Stem(n)| == 2
    ensures Stem(n)[0] == ('0' as int + n / 10) as char && Stem(n)[1] == ('0' as int + n % 10) as char
  {
    if n >= 10 {
      assert Decimal(n) == Decimal(n / 10) + [('0' as int + n % 10) as char];
      assert Decimal(n / 10) == [('0' as int + n / 10) as char];
    } else {
      assert Stem(n) == "0" + [('0' as int + n) as char];
    }
  }

  lemma NamesAscend(i: nat, k: nat)
    requires i < k < 100
    ensures StringBefore(LatchName(i), LatchName(k)) && !StringBefore(LatchName(k), LatchName(i)) && LatchName(i) != LatchName(k)
  {
    StemDigits(i);
    StemDigits(k);
    var a, b := LatchName(i), LatchName(k);
    assert a[0] == Stem(i)[0] && b[0] == Stem(k)[0] && a[1] == Stem(i)[1] && b[1] == Stem(k)[1];
    assert a[1..][0] == a[1] && b[1..][0] == b[1];
  }

  /** The three digits of 100 are listed before the two of 99. */
  lemma HundredBeforeNinetyNine()
    ensures StringBefore(LatchName(100), LatchName(99)) && !StringBefore(LatchName(99), LatchName(100))
    ensures |LatchName(100)| == 8
  {
    assert Decimal(100) == "100" by {
      assert Decimal(10) == "10";
    }
    assert Decimal(99) == "99";
    assert LatchName(100)[0] == '1' && LatchName(99)[0] == '9';
  }

  lemma {:induction false} InsertLast(latches: seq<Latch>, l: Latch)
    requires forall i | 0 <= i < |latches| :: !StringBefore(l.name, latches[i].name)
    ensures Insert(latches, l) == latches + [l]
  {
    if latches != [] {
      InsertLast(latches[1..], l);
    }
  }

  lemma {:induction false} InsertKeepsLast(latches: seq<Latch>, l: Latch)
    requires latches != [] && StringBefore(l.name, latches[|latches| - 1].name)
    ensures |Insert(latches, l)| == |latches| + 1
    ensures Insert(latches, l)[|latches|] == latches[|latches| - 1]
  {
    if !StringBefore(l.name, latches[0].name) {
      InsertKeepsLast(latches[1..], l);
    }
  }

  lemma {:induction false} CheckedClear(f: Files, runs: seq<PlannedRun>, i: nat)
    requires i <= |f.latches| <= |runs|
    ensures Checked(f, runs, i).None? <==>
      forall k | i <= k < |f.latches| ::
        f.latches[k].run == Some(runs[k]) && f.latches[k].name in f.complete
    decreases |f.latches| - i
  {
    if i < |f.latches| {
      CheckedClear(f, runs, i + 1);
    }
  }

  /** The next latch goes to the end of the listing as long as its number has two digits. */
  lemma NextLatch(f: Files, runs: seq<PlannedRun>, l: Latch)
    requires |f.latches| < 99 && |f.latches| < |runs| && l.name == LatchName(|f.latches| + 1)
    requires forall i | 0 <= i < |f.latches| :: LatchOf(f.latches[i], runs, i)
    ensures Insert(f.latches, l) == f.latches + [l] && !Named(f.latches, l.name)
  {
    forall i | 0 <= i < |f.latches|
      ensures !StringBefore(l.name, f.latches[i].name) && f.latches[i].name != l.name
    {
      NamesAscend(i + 1, |f.latches| + 1);
    }
    InsertLast(f.latches, l);
  }

  lemma OverflowedBlocks(f: Files, runs: seq<PlannedRun>, launched: seq<PlannedRun>)
    requires Ordered(runs) && Overflowed(f, runs, launched)
    ensures Blocked(f, runs).Some?
  {
    if 100 < |runs| {
      CheckedClear(f, runs, 0);
      assert f.latches[99].run.Some? ==> f.latches[99].run.value.order == 99;
      assert runs[99].order == 100;
    }
  }

  lemma NamedExtended(latches: seq<Latch>, l: Latch, name: string)
    ensures Named(latches + [l], name) <==> Named(latches, name) || name == l.name
  {
    if known :| known in latches && known.name == name {
      assert known in latches + [l];
    }
    assert l in latches + [l];
  }

  lemma Extended(f: Files, runs: seq<PlannedRun>, launched: seq<PlannedRun>, l: Latch, complete: set<string>)
    requires InPlanOrder(f, runs, launched) && |f.latches| < 99 && |f.latches| < |runs|
    requires forall i | 0 <= i < |f.latches| :: f.latches[i].run.Some?
    requires LatchOf(l, runs, |f.latches|) && complete <= f.complete + {l.name}
    ensures InPlanOrder(Files(f.latches + [l], complete), runs, launched + if l.run.Some? then [l.run.value] else [])
  {
    LatchesExtended(f, runs, l);
    CompleteExtended(f, l, complete);
    LaunchedExtended(runs, |f.latches|, l);
  }

  lemma LatchesExtended(f: Files, runs: seq<PlannedRun>, l: Latch)
    requires |f.latches| < |runs| && LatchOf(l, runs, |f.latches|)
    requires forall i | 0 <= i < |f.latches| :: LatchOf(f.latches[i], runs, i)
    ensures forall i | 0 <= i <= |f.latches| :: LatchOf((f.latches + [l])[i], runs, i)
  {
  }

  lemma CompleteExtended(f: Files, l: Latch, complete: set<string>)
    requires forall name <- f.complete :: Named(f.latches, name)
    requires complete <= f.complete + {l.name}
    ensures forall name <- complete :: Named(f.latches + [l], name)
  {
    forall name <- complete ensures Named(f.latches + [l], name) {
      NamedExtended(f.latches, l, name);
    }
  }

  lemma LaunchedExtended(runs: seq<PlannedRun>, n: nat, l: Latch)
    requires n < |runs| && LatchOf(l, runs, n)
    ensures runs[..n] + (if l.run.Some? then [l.run.value] else []) == runs[..if l.run.None? then n else n + 1]
  {
  }

  /** What a dispatch that creates its latch leaves behind. */
  lemma NextInPlanOrder(f: Files, runs: seq<PlannedRun>, launched: seq<PlannedRun>, l: Latch, complete: set<string>)
    requires InPlanOrder(f, runs, launched) && |f.latches| < 99 && Blocked(f, runs).None?
    requires LatchOf(l, runs, |f.latches|) && complete <= f.complete + {l.name}
    ensures Insert(f.latches, l) == f.latches + [l] && l.name !in f.complete
    ensures InPlanOrder(Files(f.latches + [l], complete), runs, launched + if l.run.Some? then [l.run.value] else [])
  {
    CheckedClear(f, runs, 0);
    NextLatch(f, runs, l);
    Extended(f, runs, launched, l, complete);
  }

  lemma NextOverflows(f: Files, runs: seq<PlannedRun>, launched: seq<PlannedRun>, written: bool, complete: set<string>)
    requires InPlanOrder(f, runs, launched) && |f.latches| == 99 && Blocked(f, runs).None?
    ensures 99 < |runs|
    ensures var l := Latch(LatchName(100), if written then Some(runs[99]) else None);
      Overflowed(Files(Insert(f.latches, l), complete), runs, launched + if written then [runs[99]] else [])
  {
    CheckedClear(f, runs, 0);
    ListedEarlier(f, runs, Latch(LatchName(100), if written then Some(runs[99]) else None));
    assert runs[..99] + [runs[99]] == runs[..100];
  }

  lemma ListedEarlier(f: Files, runs: seq<PlannedRun>, l: Latch)
    requires |f.latches| == 99 < |runs| && LatchOf(f.latches[98], runs, 98) && l.name == LatchName(100)
    ensures |Insert(f.latches, l)| == 100 && Insert(f.latches, l)[99] == f.latches[98]
  {
    HundredBeforeNinetyNine();
    InsertKeepsLast(f.latches, l);
  }

  lemma DispatchKeepsInv(f: Files, runs: seq<PlannedRun>, launched: seq<PlannedRun>, p: Progress)
    requires Ordered(runs) && LedgerInv(f, runs, launched)
    ensures var (after, run) := Dispatched(f, runs, p);
      LedgerInv(after, runs, launched + if run.Some? then [run.value] else [])
  {
    var (after, run) := Dispatched(f, runs, p);
    if after == f && run.None? {
      assert launched + [] == launched;
    } else if Overflowed(f, runs, launched) {
      OverflowedBlocks(f, runs, launched);
    } else if |f.latches| == 99 {
      NextOverflows(f, runs, launched, !p.TearsLatch?, after.complete);
    } else {
      var n := |f.latches|;
      var l := Latch(LatchName(n + 1), if p.TearsLatch? then None else Some(runs[n]));
      NextInPlanOrder(f, runs, launched, l, after.complete);
    }
  }

  lemma {:induction false} DispatchesInv(runs: seq<PlannedRun>, ps: seq<Progress>)
    requires Ordered(runs)
    ensures var (f, launched) := Dispatches(runs, ps); LedgerInv(f, runs, launched)
  {
    if ps != [] {
      DispatchesInv(runs, ps[..|ps| - 1]);
      var (f, launched) := Dispatches(runs, ps[..|ps| - 1]);
      DispatchKeepsInv(f, runs, launched, ps[|ps| - 1]);
    }
  }

  /** Whatever the crashes, the launched runs are the plan's first ones in order, so none runs twice. */
  lemma LaunchedArePrefix(runs: seq<PlannedRun>, ps: seq<Progress>)
    requires Ordered(runs)
    ensures var launched := Dispatches(runs, ps).1;
      && launched <= runs
      && (forall i, k | 0 <= i < k < |launched| :: launched[i] != launched[k])
  {
    DispatchesInv(runs, ps);
  }

  lemma {:induction false} BlockedForever(runs: seq<PlannedRun>, ps: seq<Progress>, more: seq<Progress>)
    requires Blocked(Dispatches(runs, ps).0, runs).Some?
    ensures Dispatches(runs, ps + more) == Dispatches(runs, ps)
    decreases |more|
  {
    if more == [] {
      assert ps + more == ps;
    } else {
      var init, last := more[..|more| - 1], more[|more| - 1];
      BlockedForever(runs, ps, init);
      assert (ps + more)[..|ps + more| - 1] == ps + init && (ps + more)[|ps + more| - 1] == last;
      var (f, launched) := Dispatches(runs, ps + init);
      assert Dispatched(f, runs, last) == (f, None);
      assert launched + [] == launched;
    }
  }

  /** A run that did not finish stops every later dispatch: the ledger and the launched runs stay as they are. */
  lemma UnfinishedBlocks(runs: seq<PlannedRun>, ps: seq<Progress>, p: Progress, more: seq<Progress>)
    requires Ordered(runs) && (p.TearsLatch? || p.StopsInRun?)
    requires Blocked(Dispatches(runs, ps).0, runs).None?
    ensures Dispatches(runs, ps + [p] + more) == Dispatches(runs, ps + [p])
    ensures Blocked(Dispatches(runs, ps + [p]).0, runs).Some?
  {
    var (f, launched) := Dispatches(runs, ps);
    assert (ps + [p])[..|ps|] == ps;
    DispatchesInv(runs, ps);
    UnfinishedIsBlocked(f, runs, launched, p);
    BlockedForever(runs, ps + [p], more);
  }

  lemma UnfinishedIsBlocked(f: Files, runs: seq<PlannedRun>, launched: seq<PlannedRun>, p: Progress)
    requires Ordered(runs) && LedgerInv(f, runs, launched)
    requires (p.TearsLatch? || p.StopsInRun?) && Blocked(f, runs).None?
    ensures Blocked(Dispatched(f, runs, p).0, runs).Some?
  {
    var n := |f.latches|;
    var after := Dispatched(f, runs, p).0;
    if Overflowed(f, runs, launched) {
      OverflowedBlocks(f, runs, launched);
    } else if n == 99 {
      NextOverflows(f, runs, launched, p.StopsInRun?, f.complete);
      OverflowedBlocks(after, runs, launched + if p.StopsInRun? then [runs[99]] else []);
    } else {
      var l := Latch(LatchName(n + 1), if p.TearsLatch? then None else Some(runs[n]));
      NextInPlanOrder(f, runs, launched, l, f.complete);
      if n + 1 < |runs| {
        CheckedClear(after, runs, 0);
        assert after.latches[n].run.None? || after.latches[n].name !in after.complete;
      }
    }
  }

  predicate AllFinished(f: Files) { forall l <- f.latches :: l.run.Some? && l.name in f.complete }

  /** Every launched run is written and marked finished, or the listing has overflowed. */
  ghost predicate Clean(f: Files, runs: seq<PlannedRun>, launched: seq<PlannedRun>, k: nat) {
    var m := if k < |runs| then k else |runs|;
    if m <= 99 then
      InPlanOrder(f, runs, launched) && |f.latches| == m && AllFinished(f)
    else Overflowed(f, runs, launched) && launched == runs[..100]
  }

  lemma CleanIsUnblocked(f: Files, runs: seq<PlannedRun>, launched: seq<PlannedRun>)
    requires Ordered(runs) && InPlanOrder(f, runs, launched) && |f.latches| < |runs| && AllFinished(f)
    ensures Blocked(f, runs).None?
  {
    var n := |f.latches|;
    forall i | 0 <= i < n
      ensures f.latches[i].run == Some(runs[i]) && f.latches[i].name in f.complete
      ensures f.latches[i].name != LatchName(n + 1)
    {
      assert f.latches[i] in f.latches && LatchOf(f.latches[i], runs, i);
      NextNameIsNew(i + 1, n + 1);
    }
    CheckedClear(f, runs, 0);
  }

  lemma NextNameIsNew(i: nat, n: nat)
    requires i < n <= 100
    ensures LatchName(i) != LatchName(n)
  {
    if n < 100 {
      NamesAscend(i, n);
    } else {
      StemDigits(i);
      HundredBeforeNinetyNine();
      assert |LatchName(i)| == 7;
    }
  }

  lemma CleanStep(f: Files, runs: seq<PlannedRun>, launched: seq<PlannedRun>, k: nat)
    requires Ordered(runs) && Clean(f, runs, launched, k)
    ensures var (after, run) := Dispatched(f, runs, Finishes);
      Clean(after, runs, launched + if run.Some? then [run.value] else [], k + 1)
  {
    var n := |f.latches|;
    assert launched + [] == launched;
    if Overflowed(f, runs, launched) {
      OverflowedBlocks(f, runs, launched);
    } else if n < |runs| {
      CleanIsUnblocked(f, runs, launched);
      var complete := f.complete + {LatchName(n + 1)};
      if n == 99 {
        NextOverflows(f, runs, launched, true, complete);
      } else {
        NextInPlanOrder(f, runs, launched, Latch(LatchName(n + 1), Some(runs[n])), complete);
      }
    }
  }

  lemma {:induction false} CleanDispatches(runs: seq<PlannedRun>, k: nat)
    requires Ordered(runs)
    ensures var (f, launched) := Dispatches(runs, seq(k, i => Finishes)); Clean(f, runs, launched, k)
  {
    if k > 0 {
      CleanDispatches(runs, k - 1);
      var before := seq(k - 1, i => Finishes);
      assert seq(k, i => Finishes)[..k - 1] == before;
      CleanStep(Dispatches(runs, before).0, runs, Dispatches(runs, before).1, k - 1);
    }
  }

  /** Without crashes the whole plan gets launched exactly when it has at most 100 runs. */
  lemma {:induction false} AllLaunchedIff(runs: seq<PlannedRun>, k: nat)
    requires Ordered(runs) && k >= |runs|
    ensures Dispatches(runs, seq(k, i => Finishes)).1 == runs <==> |runs| <= 100
  {
    CleanDispatches(runs, k);
    assert runs[..|runs|] == runs;
  }

  /** Dispatching a frozen plan never launches a run id twice, at whatever points the dispatches crash. */
  lemma PlannedRunsLaunchOnce(
      planId: string, cases: seq<string>, repeats: nat, rows: seq<PlannedRun>, ps: seq<Progress>)
    requires cases != [] && Distinct(cases) && 1 <= repeats <= 3
    requires |rows| == 2 * |cases| * repeats && Filled(rows, planId, cases)
    ensures var launched := Dispatches(rows, ps).1;
      && launched <= rows
      && forall j, l | 0 <= j < l < |launched| :: launched[j].runId != launched[l].runId
  {
    assert |rows| >= 2;
    forall j | 0 <= j < |rows| ensures rows[j].order == j + 1 {
      RunIdsDistinct(planId, cases, repeats, rows, if j == 0 then 0 else j - 1, if j == 0 then 1 else j);
    }
    LaunchedArePrefix(rows, ps);
    forall j, l | 0 <= j < l < |rows| ensures rows[j].runId != rows[l].runId {
      RunIdsDistinct(planId, cases, repeats, rows, j, l);
    }
  }
}
