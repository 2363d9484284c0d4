/**
 The worker's loop as a run of the queue: which calls each pass makes, and when
 it recovers stale leases first.
 */
module WorkerLoop {
  import opened Wrappers
  import opened JobQueue
  import opened QueueInvariants
  import opened QueueWorker

  function Concat(passes: seq<seq<Action>>): seq<Action> {
    if passes == [] then [] else Concat(passes[..|passes| - 1]) + Last(passes)
  }

  /** The clock of the latest pass that recovered, or 0 when the loop starts. */
  function LatestRecovery(ticks: seq<Tick>, recovers: seq<bool>): int
    requires |ticks| == |recovers|
  {
    if ticks == [] then 0
    else if Last(recovers) then Last(ticks).monotonic
    else LatestRecovery(ticks[..|ticks| - 1], recovers[..|recovers| - 1])
  }

  /** A pass recovers if it is told to, then asks for one job, and for no other. */
  predicate IsPass(calls: seq<Action>, t: Tick, w: string, settings: Settings, recovers: bool) {
    var start := (if recovers then [RecoverAll(settings.retryBase, t.wall)] else [])
                 + [ClaimNext(w, settings.lease, t.round.claimNow)];
    start <= calls && forall a <- calls[|start|..] :: !(a.ClaimNext? && a.worker == w)
  }

  /** One pass for each tick, with a recovery in exactly those where the last one is long enough ago. */
  predicate ArePasses(passes: seq<seq<Action>>, recovers: seq<bool>, w: string, settings: Settings, ticks: seq<Tick>)
    decreases |ticks|
  {
    && |passes| == |recovers| == |ticks|
    && (ticks != [] ==>
          var n := |ticks| - 1;
          && ArePasses(passes[..n], recovers[..n], w, settings, ticks[..n])
          && IsPass(passes[n], ticks[n], w, settings, recovers[n])
          && (recovers[n] <==> ticks[n].monotonic - LatestRecovery(ticks[..n], recovers[..n]) >= settings.recovery))
  }

  lemma PassAdded(passes: seq<seq<Action>>, recovers: seq<bool>, w: string, settings: Settings, ticks: seq<Tick>,
                  t: Tick, calls: seq<Action>, b: bool)
    requires ArePasses(passes, recovers, w, settings, ticks) && IsPass(calls, t, w, settings, b)
    requires b <==> t.monotonic - LatestRecovery(ticks, recovers) >= settings.recovery
    ensures ArePasses(passes + [calls], recovers + [b], w, settings, ticks + [t])
    ensures LatestRecovery(ticks + [t], recovers + [b]) == if b then t.monotonic else LatestRecovery(ticks, recovers)
    ensures Concat(passes + [calls]) == Concat(passes) + calls
  {
    assert (passes + [calls])[..|passes|] == passes;
    assert (recovers + [b])[..|recovers|] == recovers;
    assert (ticks + [t])[..|ticks|] == ticks;
  }

  lemma CallsAreOnePass(s: Store, w: string, settings: Settings, t: Tick, recovers: bool)
    requires Plausible(t.round, w)
    ensures var start := if recovers then [RecoverAll(settings.retryBase, t.wall)] else [];
      IsPass(start + Calls(s, w, settings, t.round), t, w, settings, recovers)
  {
    var turn, claim := TurnOf(s, w, settings, t.round), ClaimOf(w, settings, t.round);
    var start := if recovers then [RecoverAll(settings.retryBase, t.wall)] else [];
    var calls := Calls(s, w, settings, t.round);
    AfterTheClaim(s, w, settings, t.round);
    assert start + calls == (start + [claim]) + calls[1..];
    assert (start + calls)[|start + [claim]|..] == calls[1..];
  }

  lemma AfterTheClaim(s: Store, w: string, settings: Settings, round: Round)
    requires Plausible(round, w)
    ensures var calls := Calls(s, w, settings, round);
      && calls != [] && calls[0] == ClaimNext(w, settings.lease, round.claimNow)
      && forall a <- calls[1..] :: !(a.ClaimNext? && a.worker == w)
  {
    var turn := TurnOf(s, w, settings, round);
    if turn.Some? {
      var t := turn.value;
      var commit := if t.commit.Some? then [t.commit.value] else [];
      DuringIsLegal(t.claimed, w, settings.lease, t.id, round.between);
      CommitIsOurs(w, settings.retryBase, t.id, t.attempt, t.lost, round.outcome, round.commitNow);
      assert Calls(s, w, settings, round)[1..] == t.calls + commit;
    }
  }

  lemma PassIsLegal(s: Store, w: string, settings: Settings, t: Tick, due: bool) returns (calls: seq<Action>)
    requires StoreInv(s) && settings.Valid() && Plausible(t.round, w)
    ensures var ready := if due then Apply(s, RecoverAll(settings.retryBase, t.wall)) else s;
      Run(s, calls) == Run(ready, Calls(ready, w, settings, t.round))
    ensures AllLegal(calls) && StoreInv(Run(s, calls)) && IsPass(calls, t, w, settings, due)
  {
    var recover := RecoverAll(settings.retryBase, t.wall);
    var ready := if due then Apply(s, recover) else s;
    if due {
      ApplyPreserves(s, recover);
      RunOneCall(s, recover);
    }
    RoundIsLegal(ready, w, settings, t.round);
    CallsAreOnePass(ready, w, settings, t, due);
    calls := (if due then [recover] else []) + Calls(ready, w, settings, t.round);
    RunSplit(s, if due then [recover] else [], Calls(ready, w, settings, t.round));
  }

  /** The loop after one more tick. */
  lemma OneMoreTick(s: Store, w: string, settings: Settings, ticks: seq<Tick>, passes: seq<seq<Action>>, t: Tick,
                    calls: seq<Action>)
    requires LoopState(s, w, settings, ticks).0 == Run(s, Concat(passes))
    requires var (before, last) := LoopState(s, w, settings, ticks);
      var due := t.monotonic - last >= settings.recovery;
      var ready := if due then Apply(before, RecoverAll(settings.retryBase, t.wall)) else before;
      Run(before, calls) == Run(ready, Calls(ready, w, settings, t.round))
    ensures var last := LoopState(s, w, settings, ticks).1;
      && LoopState(s, w, settings, ticks + [t]).0 == Run(s, Concat(passes) + calls)
      && LoopState(s, w, settings, ticks + [t]).1 == if t.monotonic - last >= settings.recovery then t.monotonic else last
  {
    assert (ticks + [t])[..|ticks|] == ticks;
    RunSplit(s, Concat(passes), calls);
  }

  /** The loop is a legal run of the queue, made of one pass for each tick; no pass ends with a recovery overdue. */
  lemma {:induction false} LoopIsLegal(s: Store, w: string, settings: Settings, ticks: seq<Tick>)
    returns (passes: seq<seq<Action>>, recovers: seq<bool>)
    requires StoreInv(s) && settings.Valid() && forall t <- ticks :: Plausible(t.round, w)
    ensures AllLegal(Concat(passes)) && LoopState(s, w, settings, ticks).0 == Run(s, Concat(passes))
    ensures StoreInv(LoopState(s, w, settings, ticks).0)
    ensures ArePasses(passes, recovers, w, settings, ticks)
    ensures LoopState(s, w, settings, ticks).1 == LatestRecovery(ticks, recovers)
    ensures ticks != [] ==> Last(ticks).monotonic - LatestRecovery(ticks, recovers) < settings.recovery
  {
    passes, recovers := [], [];
    if ticks != [] {
      var init := ticks[..|ticks| - 1];
      assert Last(ticks) in ticks && forall x <- init :: x in ticks;
      passes, recovers := LoopIsLegal(s, w, settings, init);
      var calls, due := NextPass(s, w, settings, ticks, passes, recovers);
      passes, recovers := passes + [calls], recovers + [due];
    }
  }

  lemma NextPass(s: Store, w: string, settings: Settings, ticks: seq<Tick>, passes: seq<seq<Action>>, recovers: seq<bool>)
    returns (calls: seq<Action>, due: bool)
    requires settings.Valid() && ticks != [] && Plausible(Last(ticks).round, w)
    requires var init := ticks[..|ticks| - 1];
      && StoreInv(LoopState(s, w, settings, init).0)
      && LoopState(s, w, settings, init).0 == Run(s, Concat(passes))
      && ArePasses(passes, recovers, w, settings, init)
      && LoopState(s, w, settings, init).1 == LatestRecovery(init, recovers)
    requires AllLegal(Concat(passes))
    ensures AllLegal(Concat(passes + [calls]))
    ensures LoopState(s, w, settings, ticks).0 == Run(s, Concat(passes + [calls]))
    ensures StoreInv(LoopState(s, w, settings, ticks).0)
    ensures ArePasses(passes + [calls], recovers + [due], w, settings, ticks)
    ensures LoopState(s, w, settings, ticks).1 == LatestRecovery(ticks, recovers + [due])
    ensures Last(ticks).monotonic - LatestRecovery(ticks, recovers + [due]) < settings.recovery
  {
    var init, t := ticks[..|ticks| - 1], Last(ticks);
    var (before, last) := LoopState(s, w, settings, init);
    due := t.monotonic - last >= settings.recovery;
    calls := PassIsLegal(before, w, settings, t, due);
    OneMoreTick(s, w, settings, init, passes, t, calls);
    PassAdded(passes, recovers, w, settings, init, t, calls, due);
    RunSplit(s, Concat(passes), calls);
    assert init + [t] == ticks;
  }
}
