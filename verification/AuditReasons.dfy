/**
 What each reason of the ledger audit, and each record of the projection, says of
 the events themselves: which of them there are, how often and in which order.
 */
module AuditReasons {
  import opened Wrappers
  import opened TelemetryLedger

  // ------------------------------------------------------------------ positions

  predicate Of(e: Fact, id: string, k: Kind) { e.kind == k && e.callId == Some(id) }

  /** Where the events of one kind and call stand. */
  function Positions(events: seq<Fact>, id: string, k: Kind): set<nat> {
    set i: nat | i < |events| && Of(events[i], id, k)
  }

  /** There is one such event and no second. */
  predicate Once(events: seq<Fact>, id: string, k: Kind) {
    exists i: nat :: i < |events| && Of(events[i], id, k) && forall j: nat | j < |events| && Of(events[j], id, k) :: j == i
  }

  /** Each attempt of the call carries one more than the number of its attempts before. */
  predicate CountedFromOne(events: seq<Fact>, id: string) {
    forall j: nat | j < |events| && Of(events[j], id, HttpAttempt) ::
      events[j].attempt == Some(|Positions(events[..j], id, HttpAttempt)| + 1)
  }

  lemma PositionsAppend(events: seq<Fact>, e: Fact, id: string, k: Kind)
    ensures Positions(events + [e], id, k) == Positions(events, id, k) + if Of(e, id, k) then {|events|} else {}
    ensures |Positions(events + [e], id, k)| == |Positions(events, id, k)| + if Of(e, id, k) then 1 else 0
  {
    var longer, n := events + [e], |events|;
    assert n !in Positions(events, id, k);
    forall i: nat
      ensures i in Positions(longer, id, k) <==> i in Positions(events, id, k) || (Of(e, id, k) && i == n)
    {
      if i < n {
        assert longer[i] == events[i];
      }
    }
  }

  lemma {:induction false} IdsCountPositions(events: seq<Fact>, id: string, k: Kind)
    ensures Ids(events, k)[id] == |Positions(events, id, k)|
  {
    if events != [] {
      var init, last := events[..|events| - 1], events[|events| - 1];
      IdsCountPositions(init, id, k);
      PositionsAppend(init, last, id, k);
      assert events == init + [last];
    }
  }

  lemma OnceIsOne(events: seq<Fact>, id: string, k: Kind)
    ensures Once(events, id, k) <==> |Positions(events, id, k)| == 1
  {
    var at := Positions(events, id, k);
    if |at| == 1 {
      var i :| i in at;
      OnlyElement(at, i);
      assert forall j: nat | j < |events| && Of(events[j], id, k) :: j in at;
    }
    if Once(events, id, k) {
      var i: nat :| i < |events| && Of(events[i], id, k) && forall j: nat | j < |events| && Of(events[j], id, k) :: j == i;
      assert at == {i};
    }
  }

  lemma OnlyElement(at: set<nat>, i: nat)
    requires |at| == 1 && i in at
    ensures forall j <- at :: j == i
  {
    assert |at - {i}| == 0;
  }

  lemma NoneThere(events: seq<Fact>, id: string, k: Kind)
    ensures |Positions(events, id, k)| == 0 <==> forall e <- events :: !Of(e, id, k)
  {
    var at := Positions(events, id, k);
    if at == {} {
      forall e <- events ensures !Of(e, id, k) {
        var i :| 0 <= i < |events| && events[i] == e;
        assert i !in at;
      }
    } else {
      var i :| i in at;
      assert events[i] in events;
    }
  }

  /** The attempts of one call, as the audit lists them. */
  function AttemptsOf(events: seq<Fact>, id: string): seq<Fact> { OfKind(Filter(events, id), HttpAttempt) }

  lemma {:induction false} AttemptsArePositions(events: seq<Fact>, id: string)
    ensures |AttemptsOf(events, id)| == |Positions(events, id, HttpAttempt)|
    ensures AttemptsNumbered(AttemptsOf(events, id)) <==> CountedFromOne(events, id)
  {
    if events != [] {
      var init, last := events[..|events| - 1], events[|events| - 1];
      AttemptsArePositions(init, id);
      OneMoreEvent(init, last, id);
      assert events == init + [last];
    }
  }

  lemma OneMoreEvent(events: seq<Fact>, e: Fact, id: string)
    requires |AttemptsOf(events, id)| == |Positions(events, id, HttpAttempt)|
    requires AttemptsNumbered(AttemptsOf(events, id)) <==> CountedFromOne(events, id)
    ensures |AttemptsOf(events + [e], id)| == |Positions(events + [e], id, HttpAttempt)|
    ensures AttemptsNumbered(AttemptsOf(events + [e], id)) <==> CountedFromOne(events + [e], id)
  {
    PositionsAppend(events, e, id, HttpAttempt);
    CountedAppend(events, e, id);
    ListAppend(events, e, id);
    NumberedAppend(AttemptsOf(events, id), e);
  }

  lemma CountedAppend(events: seq<Fact>, e: Fact, id: string)
    ensures CountedFromOne(events + [e], id) <==>
      && CountedFromOne(events, id)
      && (Of(e, id, HttpAttempt) ==> e.attempt == Some(|Positions(events, id, HttpAttempt)| + 1))
  {
    var longer, n := events + [e], |events|;
    forall j: nat | j <= n ensures longer[..j] == events[..j] {
    }
    assert events[..n] == events && longer[n] == e;
    if CountedFromOne(longer, id) {
      forall j: nat | j < n && Of(events[j], id, HttpAttempt)
        ensures events[j].attempt == Some(|Positions(events[..j], id, HttpAttempt)| + 1)
      {
        assert longer[j] == events[j];
      }
    }
  }

  lemma ListAppend(events: seq<Fact>, e: Fact, id: string)
    ensures AttemptsOf(events + [e], id) == AttemptsOf(events, id) + if Of(e, id, HttpAttempt) then [e] else []
  {
    assert (events + [e])[..|events|] == events;
    var mine := Filter(events, id);
    assert (mine + [e])[..|mine|] == mine;
  }

  lemma NumberedAppend(attempts: seq<Fact>, e: Fact)
    ensures AttemptsNumbered(attempts + [e]) <==> AttemptsNumbered(attempts) && e.attempt == Some(|attempts| + 1)
  {
    var after := attempts + [e];
    assert after[|attempts|] == e && forall i | 0 <= i < |attempts| :: after[i] == attempts[i];
  }

  // -------------------------------------------------------------- the call reasons

  lemma CallCounts(events: seq<Fact>, c: string)
    requires forall e <- events :: e.callId.Some?
    ensures Once(events, c, LogicalCall) <==> Ids(events, LogicalCall)[c] == 1
    ensures Once(events, c, ModelResult) <==> Ids(events, ModelResult)[c] == 1
    ensures c in Ids(events, LogicalCall) || c in Ids(events, ModelResult) ==> exists e <- events :: e.callId.value == c
  {
    IdsCountPositions(events, c, LogicalCall);
    IdsCountPositions(events, c, ModelResult);
    OnceIsOne(events, c, LogicalCall);
    OnceIsOne(events, c, ModelResult);
    NoneThere(events, c, LogicalCall);
    NoneThere(events, c, ModelResult);
  }

  predicate AnsweredOnce(events: seq<Fact>, usage: set<string>)
    requires forall e <- events :: e.callId.Some?
  {
    && usage != {}
    && (forall c <- usage :: Once(events, c, LogicalCall) && Once(events, c, ModelResult))
    && (forall e <- events :: e.callId.value in usage)
  }

  lemma AnsweredOnceMatches(events: seq<Fact>, usage: set<string>)
    requires forall e <- events :: e.callId.Some?
    requires AnsweredOnce(events, usage)
    ensures ResponsesMatch(events, usage)
  {
    var logical, results := Ids(events, LogicalCall), Ids(events, ModelResult);
    forall c: string ensures logical[c] == results[c] == if c in usage then 1 else 0 {
      CallCounts(events, c);
      assert c in logical <==> logical[c] > 0;
      assert c in results <==> results[c] > 0;
    }
    var c :| c in usage;
    assert logical[c] == 1;
    assert logical == results;
  }

  /** The usage records and the events name the same calls, each asked once and answered once. */
  lemma ResponsesMatchIff(events: seq<Fact>, usage: set<string>)
    requires forall e <- events :: e.callId.Some?
    ensures ResponsesMatch(events, usage) <==> AnsweredOnce(events, usage)
  {
    if ResponsesMatch(events, usage) {
      var logical := Ids(events, LogicalCall);
      forall c | c in usage ensures Once(events, c, LogicalCall) && Once(events, c, ModelResult) {
        assert logical[c] == 1;
        CallCounts(events, c);
      }
      var c :| c in logical;
      assert c in usage;
    }
    if AnsweredOnce(events, usage) {
      AnsweredOnceMatches(events, usage);
    }
  }

  /** A call has attempts, counted 1, 2, ... as they were made. */
  predicate Attempted(events: seq<Fact>, id: string) {
    (exists a <- events :: Of(a, id, HttpAttempt)) && CountedFromOne(events, id)
  }

  lemma AttemptsOkIff(events: seq<Fact>, id: string)
    ensures AttemptsOk(events, id) <==> Attempted(events, id)
  {
    AttemptsArePositions(events, id);
    NoneThere(events, id, HttpAttempt);
    assert AttemptsOf(events, id) == [] <==> |Positions(events, id, HttpAttempt)| == 0;
  }

  lemma AllAttemptsOkIff(events: seq<Fact>)
    requires forall e <- events :: e.callId.Some?
    ensures AllAttemptsOk(events) <==> forall e <- events | e.kind.LogicalCall? :: Attempted(events, e.callId.value)
  {
    forall c: string
      ensures c in Ids(events, LogicalCall) <==> exists e <- events :: Of(e, c, LogicalCall)
      ensures AttemptsOk(events, c) <==> Attempted(events, c)
    {
      IdsCountPositions(events, c, LogicalCall);
      NoneThere(events, c, LogicalCall);
      AttemptsOkIff(events, c);
    }
    if AllAttemptsOk(events) {
      forall e <- events | e.kind.LogicalCall? ensures AttemptsOk(events, e.callId.value) {
        assert Of(e, e.callId.value, LogicalCall);
      }
    } else {
      var c :| c in Ids(events, LogicalCall) && !AttemptsOk(events, c);
      var e :| e in events && Of(e, c, LogicalCall);
    }
  }

  // ------------------------------------------------------------------- the audit

  /** An event the audit can read: it names its call, is of a known kind, and says what that kind must. */
  predicate Readable(e: Fact) {
    && e.callId.Some? && |e.callId.value| > 0
    && match e.kind
       case LogicalCall => true
       case HttpAttempt => e.attempt.Some?
       case ModelResult => e.outcome == Some("success") || e.outcome == Some("failed") || e.outcome == Some("invalid_json")
       case OtherKind | NoKind => false
  }

  predicate Captured(t: Telemetry) { |t.events| > 0 && t.complete && t.dropped == Some(0) }

  predicate Ours(t: Telemetry, id: Identity) {
    forall e <- t.events :: e.provider == Some(id.provider) && e.model == Some(id.model)
  }

  lemma GatesAre(t: Telemetry, id: Identity, usage: set<string>)
    ensures var readable := forall e <- t.events :: Readable(e);
      LedgerReasons(t, id, usage)
        == if !readable then [ResponseLedgerInvalid] else if !Captured(t) then [TelemetryIncomplete]
           else if !Ours(t, id) then [IdentityMismatch] else CallReasons(t.events, usage)
  {
    assert forall e <- t.events :: Readable(e) <==> Shaped(e);
    assert forall e <- t.events :: From(e, id) <==> e.provider == Some(id.provider) && e.model == Some(id.model);
  }

  lemma CallReasonsAre(events: seq<Fact>, usage: set<string>)
    ensures var rs := CallReasons(events, usage);
      && Distinct(rs) && TelemetryIncomplete !in rs && IdentityMismatch !in rs
      && (ResponseLedgerInvalid in rs <==> !ResponsesMatch(events, usage))
      && (ProviderFailure in rs <==> exists e <- events ::
            e.kind.ModelResult? && e.outcome == Some("failed") && e.category != Some("invalid_response"))
      && (AttemptLedgerInvalid in rs <==> !AllAttemptsOk(events))
  {
    ReasonsIn(!ResponsesMatch(events, usage), AnyProviderFailure(events), !AllAttemptsOk(events));
    FailuresAre(events);
  }

  lemma ReasonsIn(responses: bool, provider: bool, attempts: bool)
    ensures var rs := (if responses then [ResponseLedgerInvalid] else []) + (if provider then [ProviderFailure] else [])
                      + (if attempts then [AttemptLedgerInvalid] else []);
      && Distinct(rs) && TelemetryIncomplete !in rs && IdentityMismatch !in rs
      && (ResponseLedgerInvalid in rs <==> responses) && (ProviderFailure in rs <==> provider)
      && (AttemptLedgerInvalid in rs <==> attempts)
  {
  }

  lemma FailuresAre(events: seq<Fact>)
    ensures AnyProviderFailure(events) <==> exists e <- events ::
      e.kind.ModelResult? && e.outcome == Some("failed") && e.category != Some("invalid_response")
  {
    assert forall e <- events :: FailedAtProvider(e) <==>
      e.kind.ModelResult? && e.outcome == Some("failed") && e.category != Some("invalid_response");
  }

  /**
   When each reason is reported. An unreadable event, an incomplete capture and a foreign identity are
   reported alone and in this order; past them every other reason is reported exactly when it holds. No
   reason is reported twice.
   */
  lemma ReportedIff(t: Telemetry, id: Identity, usage: set<string>)
    ensures var rs := LedgerReasons(t, id, usage);
      var readable := forall e <- t.events :: Readable(e);
      var audited := readable && Captured(t) && Ours(t, id);
      && Distinct(rs)
      && (TelemetryIncomplete in rs <==> readable && !Captured(t))
      && (IdentityMismatch in rs <==> readable && Captured(t) && !Ours(t, id))
      && (ProviderFailure in rs <==> audited && exists e <- t.events ::
            e.kind.ModelResult? && e.outcome == Some("failed") && e.category != Some("invalid_response"))
      && (ResponseLedgerInvalid in rs <==> !readable || (audited && !AnsweredOnce(t.events, usage)))
      && (AttemptLedgerInvalid in rs <==>
            audited && exists e <- t.events :: e.kind.LogicalCall? && !Attempted(t.events, e.callId.value))
  {
    GatesAre(t, id, usage);
    CallReasonsAre(t.events, usage);
    if forall e <- t.events :: Readable(e) {
      ResponsesMatchIff(t.events, usage);
      AllAttemptsOkIff(t.events);
    }
  }

  /** What a ledger is that the audit accepts: nothing failed at the provider, and every call is told in full. */
  lemma AcceptedIff(t: Telemetry, id: Identity, usage: set<string>)
    ensures LedgerReasons(t, id, usage) == [] <==>
      && (forall e <- t.events :: Readable(e)) && Captured(t) && Ours(t, id)
      && (forall e <- t.events | e.kind.ModelResult? && e.outcome == Some("failed") ::
            e.category == Some("invalid_response"))
      && usage != {} && (forall e <- t.events :: e.callId.value in usage)
      && (forall c <- usage :: Once(t.events, c, LogicalCall) && Once(t.events, c, ModelResult) && Attempted(t.events, c))
  {
    ReportedIff(t, id, usage);
    NoReason(LedgerReasons(t, id, usage));
    if (forall e <- t.events :: Readable(e)) && AnsweredOnce(t.events, usage) {
      CallsAreUsage(t.events, usage);
    }
  }

  lemma NoReason(rs: seq<Reason>)
    ensures rs == [] <==>
      && ResponseLedgerInvalid !in rs && TelemetryIncomplete !in rs && IdentityMismatch !in rs
      && ProviderFailure !in rs && AttemptLedgerInvalid !in rs
  {
    if rs != [] {
      assert rs[0] in rs;
      match rs[0]
      case ResponseLedgerInvalid => case TelemetryIncomplete => case IdentityMismatch =>
      case ProviderFailure => case AttemptLedgerInvalid =>
    }
  }

  /** Where every call is answered once, what holds of every call holds of every usage record. */
  lemma CallsAreUsage(events: seq<Fact>, usage: set<string>)
    requires (forall e <- events :: e.callId.Some?) && AnsweredOnce(events, usage)
    ensures (forall e <- events | e.kind.LogicalCall? :: Attempted(events, e.callId.value))
      <==> forall c <- usage :: Attempted(events, c)
  {
    if forall e <- events | e.kind.LogicalCall? :: Attempted(events, e.callId.value) {
      forall c | c in usage ensures Attempted(events, c) {
        var i: nat :| i < |events| && Of(events[i], c, LogicalCall);
        assert events[i] in events && events[i].callId.value == c;
      }
    }
  }

  // ------------------------------------------------------------- one call's record

  /** The attempt at `j` is in the list of attempts at the number of attempts before it. */
  lemma {:induction false} AttemptAt(events: seq<Fact>, id: string, j: nat)
    requires j < |events| && Of(events[j], id, HttpAttempt)
    ensures var k := |Positions(events[..j], id, HttpAttempt)|;
      k < |AttemptsOf(events, id)| && AttemptsOf(events, id)[k] == events[j]
  {
    var init, last := events[..|events| - 1], events[|events| - 1];
    assert events == init + [last];
    ListAppend(init, last, id);
    if j < |init| {
      AttemptAt(init, id, j);
      assert init[..j] == events[..j];
    } else {
      AttemptsArePositions(init, id);
      assert init == events[..j];
    }
  }

  /** And every place in that list is some attempt's. */
  lemma {:induction false} AttemptFrom(events: seq<Fact>, id: string, k: nat) returns (j: nat)
    requires k < |AttemptsOf(events, id)|
    ensures j < |events| && Of(events[j], id, HttpAttempt)
    ensures AttemptsOf(events, id)[k] == events[j] && |Positions(events[..j], id, HttpAttempt)| == k
  {
    var init, last := events[..|events| - 1], events[|events| - 1];
    assert events == init + [last];
    ListAppend(init, last, id);
    if k < |AttemptsOf(init, id)| {
      j := AttemptFrom(init, id, k);
      assert init[..j] == events[..j];
    } else {
      j := |init|;
      AttemptsArePositions(init, id);
      assert init == events[..j];
    }
  }

  /** No two attempts of the call carry one number. */
  predicate NumbersDiffer(events: seq<Fact>, id: string) {
    forall i: nat, j: nat | i < j < |events| && Of(events[i], id, HttpAttempt) && Of(events[j], id, HttpAttempt) ::
      events[i].attempt != events[j].attempt
  }

  lemma NumbersDifferIff(events: seq<Fact>, id: string)
    requires forall a <- AttemptsOf(events, id) :: a.attempt.Some?
    ensures NumbersDiffer(events, id) <==> Distinct(Numbers(AttemptsOf(events, id)))
  {
    var list := AttemptsOf(events, id);
    if NumbersDiffer(events, id) {
      forall k, l | 0 <= k < l < |list| ensures Numbers(list)[k] != Numbers(list)[l] {
        var i := AttemptFrom(events, id, k);
        var j := AttemptFrom(events, id, l);
        assert list[k] in list && list[l] in list;
        assert i < j || j < i;
      }
    } else {
      var i: nat, j: nat :| i < j < |events| && Of(events[i], id, HttpAttempt) && Of(events[j], id, HttpAttempt)
                            && events[i].attempt == events[j].attempt;
      AttemptAt(events, id, i);
      AttemptAt(events, id, j);
      MoreBefore(events, id, i, j);
      var k, l := |Positions(events[..i], id, HttpAttempt)|, |Positions(events[..j], id, HttpAttempt)|;
      assert list[k] in list && list[l] in list;
      assert Numbers(list)[k] == Numbers(list)[l];
    }
  }

  lemma {:induction false} MoreBefore(events: seq<Fact>, id: string, i: nat, j: nat)
    requires i < j <= |events| && Of(events[i], id, HttpAttempt)
    ensures |Positions(events[..i], id, HttpAttempt)| < |Positions(events[..j], id, HttpAttempt)|
    decreases j
  {
    assert events[..j] == events[..j - 1] + [events[j - 1]];
    PositionsAppend(events[..j - 1], events[j - 1], id, HttpAttempt);
    if i < j - 1 {
      MoreBefore(events, id, i, j - 1);
    }
  }

  lemma {:induction false} FilterAll(facts: seq<Fact>, id: string)
    requires forall e <- facts :: e.callId == Some(id)
    ensures Filter(facts, id) == facts
  {
    if facts != [] {
      FilterAll(facts[..|facts| - 1], id);
    }
  }

  lemma {:induction false} KindsArePositions(facts: seq<Fact>, id: string, k: Kind)
    requires forall e <- facts :: e.callId == Some(id)
    ensures |OfKind(facts, k)| == |Positions(facts, id, k)|
  {
    IdsCountPositions(facts, id, k);
    IdsCountKind(facts, k, id);
    FilterAll(facts, id);
  }

  /** One identity throughout. */
  predicate OneIdentity(facts: seq<Fact>) {
    forall e <- facts, x <- facts :: e.provider.Some? && e.model.Some? && e.provider == x.provider && e.model == x.model
  }

  lemma {:induction false} FaultIff(facts: seq<Fact>, call: Fact)
    ensures IdentityFault(facts, call).None? <==>
      forall e <- facts :: HasIdentity(e) && HasIdentity(call) && e.provider == call.provider && e.model == call.model
  {
    if facts != [] {
      FaultIff(facts[1..], call);
    }
  }

  /** An event that says who it is from, and says the same as the call. */
  predicate Agrees(e: Fact, call: Fact) {
    e.provider.Some? && e.model.Some? && e.provider == call.provider && e.model == call.model
  }

  predicate FirstFault(facts: seq<Fact>, call: Fact, k: nat) {
    k < |facts| && !Agrees(facts[k], call) && forall i | 0 <= i < k :: Agrees(facts[i], call)
  }

  /** The fault reported is that of the first event that does not agree: a missing name, or another one. */
  lemma {:induction false} FaultIsFirst(facts: seq<Fact>, call: Fact) returns (k: nat)
    requires IdentityFault(facts, call).Some?
    ensures FirstFault(facts, call, k)
    ensures IdentityFault(facts, call).value
      == if HasIdentity(facts[k]) && HasIdentity(call) then InconsistentIdentity else MissingField
  {
    k := 0;
    if Agrees(facts[0], call) {
      var rest := FaultIsFirst(facts[1..], call);
      k := rest + 1;
    }
  }

  lemma OneIdentityIff(facts: seq<Fact>, call: Fact)
    requires call in facts
    ensures IdentityFault(facts, call).None? <==> OneIdentity(facts)
  {
    FaultIff(facts, call);
  }

  /** The fields of an event that its record takes. */
  predicate Recordable(e: Fact) {
    match e.kind
    case NoKind => false
    case OtherKind => true
    case LogicalCall | ModelResult => e.inRange
    case HttpAttempt =>
      && e.attempt.Some? && e.attempt.value >= 1 && e.inRange
      && (e.outcome == Some("success") || e.outcome == Some("http_error") || e.outcome == Some("transport_error"))
  }

  /**
   A call has a record exactly when it was asked once and answered at most once, all its events are of one
   identity and have fields the record takes, and its attempts are numbered 1, 2, ... or, of an incomplete
   capture, merely differently.
   */
  lemma RecordGivenIff(id: string, facts: seq<Fact>, complete: bool)
    requires forall e <- facts :: e.callId == Some(id)
    ensures RecordOf(id, facts, complete).Success? <==>
      && (forall e <- facts :: Recordable(e)) && OneIdentity(facts)
      && Once(facts, id, LogicalCall)
      && (Once(facts, id, ModelResult) || forall e <- facts :: !e.kind.ModelResult?)
      && (if complete then CountedFromOne(facts, id) else NumbersDiffer(facts, id))
  {
    var logical, results, attempts := OfKind(facts, LogicalCall), OfKind(facts, ModelResult), OfKind(facts, HttpAttempt);
    KindsAre(id, facts);
    OfKindFacts(facts, LogicalCall);
    if |logical| == 1 && |results| <= 1 {
      assert logical[0] in facts;
      OneIdentityIff(facts, logical[0]);
      FieldsAre(facts, logical[0]);
      if forall e <- facts :: Recordable(e) {
        AttemptsRecordable(facts);
        RuleIff(id, facts, complete);
      }
    }
  }

  lemma KindsAre(id: string, facts: seq<Fact>)
    requires forall e <- facts :: e.callId == Some(id)
    ensures |OfKind(facts, LogicalCall)| == 1 <==> Once(facts, id, LogicalCall)
    ensures |OfKind(facts, ModelResult)| <= 1 <==> Once(facts, id, ModelResult) || forall e <- facts :: !e.kind.ModelResult?
  {
    KindsArePositions(facts, id, LogicalCall);
    KindsArePositions(facts, id, ModelResult);
    OnceIsOne(facts, id, LogicalCall);
    OnceIsOne(facts, id, ModelResult);
    NoneThere(facts, id, ModelResult);
  }

  /** The field checks of the record, kind by kind, are one check of every event. */
  lemma FieldsAre(facts: seq<Fact>, call: Fact)
    requires OfKind(facts, LogicalCall) == [call]
    ensures (forall e <- facts :: Recordable(e)) <==>
      && (forall e <- facts :: !e.kind.NoKind?) && call.inRange
      && (forall r <- OfKind(facts, ModelResult) :: r.inRange)
      && (forall a <- OfKind(facts, HttpAttempt) ::
            a.attempt.Some? && a.attempt.value >= 1 && KnownOutcome(a.outcome) && a.inRange)
  {
    OfKindFacts(facts, LogicalCall);
    OfKindFacts(facts, ModelResult);
    OfKindFacts(facts, HttpAttempt);
    assert call in OfKind(facts, LogicalCall);
    if forall e <- facts :: Recordable(e) {
      assert Recordable(call);
      assert forall r <- OfKind(facts, ModelResult) :: Recordable(r);
      assert forall a <- OfKind(facts, HttpAttempt) :: Recordable(a);
    }
  }

  lemma AttemptsRecordable(facts: seq<Fact>)
    requires forall e <- facts :: Recordable(e)
    ensures forall a <- OfKind(facts, HttpAttempt) :: a.attempt.Some? && a.attempt.value >= 1
  {
    OfKindFacts(facts, HttpAttempt);
    assert forall a <- OfKind(facts, HttpAttempt) :: Recordable(a);
  }

  lemma RuleIff(id: string, facts: seq<Fact>, complete: bool)
    requires forall e <- facts :: e.callId == Some(id)
    requires forall a <- OfKind(facts, HttpAttempt) :: a.attempt.Some?
    ensures LedgerRule(Numbers(OfKind(facts, HttpAttempt)), complete)
      <==> if complete then CountedFromOne(facts, id) else NumbersDiffer(facts, id)
  {
    var attempts := OfKind(facts, HttpAttempt);
    FilterAll(facts, id);
    AttemptsArePositions(facts, id);
    NumbersDifferIff(facts, id);
    if complete {
      NumberedIsRule(attempts);
    }
  }

  lemma NumberedIsRule(attempts: seq<Fact>)
    requires forall a <- attempts :: a.attempt.Some?
    ensures LedgerRule(Numbers(attempts), true) <==> AttemptsNumbered(attempts)
  {
    var numbers := Numbers(attempts);
    if LedgerRule(numbers, true) {
      forall i | 0 <= i < |attempts| ensures attempts[i].attempt == Some(i + 1) {
        assert attempts[i] in attempts && numbers[i] == i + 1;
      }
    }
  }

  /** The attempt after which the call made no other. */
  predicate LastAttempt(facts: seq<Fact>, id: string, j: nat) {
    j < |facts| && Of(facts[j], id, HttpAttempt) && forall l: nat | j < l < |facts| :: !Of(facts[l], id, HttpAttempt)
  }

  /**
   What a record says: the identity of its events, each attempt's number in its place, their count if the
   capture was complete, and a failed transport exactly when nothing was decoded and the last attempt failed.
   */
  lemma RecordTells(id: string, facts: seq<Fact>, complete: bool)
    requires (forall e <- facts :: e.callId == Some(id)) && RecordOf(id, facts, complete).Success?
    ensures var r := RecordOf(id, facts, complete).value;
      && r.callId == id && r.attemptsComplete == complete
      && (forall e <- facts :: e.provider == Some(r.provider) && e.model == Some(r.model))
      && |r.attempts| == |Positions(facts, id, HttpAttempt)|
      && r.httpCount == (if complete then Some(|r.attempts|) else None)
      && (forall j: nat | j < |facts| && Of(facts[j], id, HttpAttempt) ::
            var k := |Positions(facts[..j], id, HttpAttempt)|;
            k < |r.attempts| && facts[j].attempt == Some(r.attempts[k]))
      && (r.transport.TransportFailed? <==>
            && r.validation.Unobserved?
            && exists j: nat :: LastAttempt(facts, id, j) && facts[j].outcome != Some("success"))
  {
    RecordParts(id, facts, complete);
    FilterAll(facts, id);
    PlacesAre(facts, id);
    LastIsLast(facts, id);
  }

  lemma RecordParts(id: string, facts: seq<Fact>, complete: bool)
    requires RecordOf(id, facts, complete).Success?
    ensures var r, attempts := RecordOf(id, facts, complete).value, OfKind(facts, HttpAttempt);
      && r.callId == id && r.attemptsComplete == complete
      && (forall a <- attempts :: a.attempt.Some?) && r.attempts == Numbers(attempts)
      && r.httpCount == (if complete then Some(|r.attempts|) else None)
      && (forall e <- facts :: e.provider == Some(r.provider) && e.model == Some(r.model))
      && (r.transport.TransportFailed? <==>
            r.validation.Unobserved? && attempts != [] && attempts[|attempts| - 1].outcome != Some("success"))
  {
    var logical := OfKind(facts, LogicalCall);
    OfKindFacts(facts, LogicalCall);
    FaultIff(facts, logical[0]);
  }

  /** Each attempt's number stands in its place. */
  lemma PlacesAre(facts: seq<Fact>, id: string)
    requires forall a <- AttemptsOf(facts, id) :: a.attempt.Some?
    ensures |Numbers(AttemptsOf(facts, id))| == |Positions(facts, id, HttpAttempt)|
    ensures forall j: nat | j < |facts| && Of(facts[j], id, HttpAttempt) ::
      var k := |Positions(facts[..j], id, HttpAttempt)|;
      k < |AttemptsOf(facts, id)| && facts[j].attempt == Some(Numbers(AttemptsOf(facts, id))[k])
  {
    var attempts := AttemptsOf(facts, id);
    AttemptsArePositions(facts, id);
    forall j: nat | j < |facts| && Of(facts[j], id, HttpAttempt)
      ensures var k := |Positions(facts[..j], id, HttpAttempt)|;
        k < |attempts| && facts[j].attempt == Some(Numbers(attempts)[k])
    {
      AttemptAt(facts, id, j);
      assert attempts[|Positions(facts[..j], id, HttpAttempt)|] in attempts;
    }
  }

  lemma LastIsLast(facts: seq<Fact>, id: string)
    ensures var attempts := AttemptsOf(facts, id);
      (attempts != [] && attempts[|attempts| - 1].outcome != Some("success"))
        <==> exists j: nat :: LastAttempt(facts, id, j) && facts[j].outcome != Some("success")
  {
    var attempts := AttemptsOf(facts, id);
    if attempts != [] {
      var j := AttemptFrom(facts, id, |attempts| - 1);
      forall l: nat | j < l < |facts| ensures !Of(facts[l], id, HttpAttempt) {
        NoneLater(facts, id, j, l);
      }
      assert LastAttempt(facts, id, j);
      assert forall l: nat :: LastAttempt(facts, id, l) ==> l == j;
    } else if j: nat :| LastAttempt(facts, id, j) {
      AttemptAt(facts, id, j);
      assert false;
    }
  }

  lemma NoneLater(facts: seq<Fact>, id: string, j: nat, l: nat)
    requires j < l < |facts| && Of(facts[j], id, HttpAttempt)
    requires |Positions(facts[..j], id, HttpAttempt)| == |AttemptsOf(facts, id)| - 1
    ensures !Of(facts[l], id, HttpAttempt)
  {
    if Of(facts[l], id, HttpAttempt) {
      MoreBefore(facts, id, j, l);
      AttemptAt(facts, id, l);
      assert false;
    }
  }

  /** Any ledger projects exactly when every event names its call and the events of every call have a record. */
  lemma ProjectsIff(t: Telemetry)
    ensures Projected(t).Success? <==>
      && (forall e <- t.events :: e.callId.Some?)
      && forall e <- t.events ::
           RecordOf(e.callId.value, Filter(t.events, e.callId.value), t.complete && t.dropped == Some(0)).Success?
  {
    if forall e <- t.events :: e.callId.Some? {
      var groups, complete := Grouped(t.events), CaptureComplete(t);
      GroupedPartitions(t.events);
      CollectSucceedsIff(groups, complete);
      GroupsAreCalls(groups, t.events, complete);
    }
  }

  lemma GroupsAreCalls(groups: seq<Group>, events: seq<Fact>, complete: bool)
    requires Partitioned(groups, events)
    ensures (forall g <- groups :: RecordOf(g.id, g.facts, complete).Success?)
      <==> forall e <- events :: RecordOf(e.callId.value, Filter(events, e.callId.value), complete).Success?
  {
    if forall g <- groups :: RecordOf(g.id, g.facts, complete).Success? {
      forall e | e in events ensures RecordOf(e.callId.value, Filter(events, e.callId.value), complete).Success? {
        var i :| 0 <= i < |groups| && groups[i].id == e.callId.value;
        assert groups[i] in groups;
      }
    } else {
      var g :| g in groups && !RecordOf(g.id, g.facts, complete).Success?;
      var i :| 0 <= i < |groups| && groups[i] == g;
      FilterFacts(events, g.id);
      assert g.facts[0] in events && g.facts[0].callId == Some(g.id);
    }
  }
}
