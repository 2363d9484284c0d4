/**
 The model-call ledger: the acceptance audit of a captured event list, the
 projection of that list into one record per logical call, and why a list the
 audit accepts can always be projected.
 */
module TelemetryLedger {
  import opened Wrappers

  // NoKind: the event has none.
  datatype Kind = LogicalCall | HttpAttempt | ModelResult | OtherKind | NoKind

  // An event as it is read back from JSON: None where a field is missing or has another type.
  // `inRange` says whether the record accepts the other fields it takes from this event: of a call
  // its labels, of a result the reported token counts, latency and reasons, of an attempt the status,
  // latency and category. An attempt's outcome is not among them: see `KnownOutcome`.
  datatype Fact = Fact(
    callId: Option<string>, kind: Kind, provider: Option<string>, model: Option<string>,
    outcome: Option<string>, attempt: Option<int>, category: Option<string>, inRange: bool)

  datatype Identity = Identity(provider: string, model: string)

  // `complete` is the capture's own flag, `dropped` its count.
  datatype Telemetry = Telemetry(events: seq<Fact>, complete: bool, dropped: Option<int>)

  // ------------------------------------------------------------------- counting

  function Count(events: seq<Fact>, k: Kind): nat {
    if events == [] then 0
    else Count(events[..|events| - 1], k) + if events[|events| - 1].kind == k then 1 else 0
  }

  function Filter(events: seq<Fact>, id: string): seq<Fact> {
    if events == [] then []
    else
      var before, last := Filter(events[..|events| - 1], id), events[|events| - 1];
      if last.callId == Some(id) then before + [last] else before
  }

  function OfKind(events: seq<Fact>, k: Kind): seq<Fact> {
    if events == [] then []
    else
      var before, last := OfKind(events[..|events| - 1], k), events[|events| - 1];
      if last.kind == k then before + [last] else before
  }

  /** The call ids of the events of one kind, with multiplicity. */
  function Ids(events: seq<Fact>, k: Kind): multiset<string> {
    if events == [] then multiset{}
    else
      var before, last := Ids(events[..|events| - 1], k), events[|events| - 1];
      if last.kind == k && last.callId.Some? then before + multiset{last.callId.value} else before
  }

  // ---------------------------------------------------------------------- audit

  datatype Reason =
    | ResponseLedgerInvalid | TelemetryIncomplete | IdentityMismatch | ProviderFailure | AttemptLedgerInvalid

  predicate Shaped(e: Fact) {
    && e.callId.Some? && e.callId.value != ""
    && !e.kind.OtherKind? && !e.kind.NoKind?
    && (e.kind.ModelResult? ==> e.outcome in {Some("success"), Some("failed"), Some("invalid_json")})
    && (e.kind.HttpAttempt? ==> e.attempt.Some?)
  }

  predicate From(e: Fact, id: Identity) { e.provider == Some(id.provider) && e.model == Some(id.model) }

  /** Every call asked once and answered once, for exactly the calls the usage records name. */
  predicate ResponsesMatch(events: seq<Fact>, usage: set<string>) {
    var logical := Ids(events, LogicalCall);
    && logical != multiset{}
    && logical == Ids(events, ModelResult)
    && (forall id <- logical :: logical[id] == 1)
    && (forall id <- logical :: id in usage) && (forall id <- usage :: id in logical)
    && (forall e <- events :: e.callId.Some? && e.callId.value in logical)
  }

  predicate FailedAtProvider(e: Fact) {
    e.kind.ModelResult? && e.outcome == Some("failed") && e.category != Some("invalid_response")
  }

  /** The HTTP attempts are present and numbered 1, 2, ... in the order they were made. */
  predicate AttemptsNumbered(attempts: seq<Fact>) {
    forall i | 0 <= i < |attempts| :: attempts[i].attempt == Some(i + 1)
  }

  predicate AttemptsOk(events: seq<Fact>, id: string) {
    var attempts := OfKind(Filter(events, id), HttpAttempt);
    attempts != [] && AttemptsNumbered(attempts)
  }

  predicate AllAttemptsOk(events: seq<Fact>) {
    forall id <- Ids(events, LogicalCall) :: AttemptsOk(events, id)
  }

  predicate AnyProviderFailure(events: seq<Fact>) {
    exists e <- events :: FailedAtProvider(e)
  }

  function CallReasons(events: seq<Fact>, usage: set<string>): seq<Reason> {
    (if !ResponsesMatch(events, usage) then [ResponseLedgerInvalid] else [])
    + (if AnyProviderFailure(events) then [ProviderFailure] else [])
    + (if !AllAttemptsOk(events) then [AttemptLedgerInvalid] else [])
  }

  function LedgerReasons(t: Telemetry, id: Identity, usage: set<string>): seq<Reason> {
    if exists e <- t.events :: !Shaped(e) then [ResponseLedgerInvalid]
    else if t.events == [] || !t.complete || t.dropped != Some(0) then [TelemetryIncomplete]
    else if exists e <- t.events :: !From(e, id) then [IdentityMismatch]
    else CallReasons(t.events, usage)
  }

  /** `dict.fromkeys`: keep the first of each reason. */
  function Deduped(reasons: seq<Reason>): seq<Reason> {
    if reasons == [] then []
    else
      var before, last := Deduped(reasons[..|reasons| - 1]), reasons[|reasons| - 1];
      if last in before then before else before + [last]
  }

  /** The loop over calls: one reason for each call whose attempts are not in order. */
  method AttemptReasons(events: seq<Fact>, calls: seq<string>) returns (reasons: seq<Reason>)
    ensures forall r <- reasons :: r.AttemptLedgerInvalid?
    ensures reasons == [] <==> forall c <- calls :: AttemptsOk(events, c)
  {
    reasons := [];
    for i := 0 to |calls|
      invariant forall r <- reasons :: r.AttemptLedgerInvalid?
      invariant reasons == [] <==> forall k | 0 <= k < i :: AttemptsOk(events, calls[k])
    {
      if !AttemptsOk(events, calls[i]) {
        reasons := reasons + [AttemptLedgerInvalid];
      }
    }
    assert forall c <- calls :: exists k :: 0 <= k < |calls| && calls[k] == c;
  }

  /** The checks on the calls themselves; `calls` are the logical ids in the order visited. */
  method AuditCalls(events: seq<Fact>, usage: set<string>, calls: seq<string>) returns (reasons: seq<Reason>)
    requires forall c :: c in calls <==> c in Ids(events, LogicalCall)
    ensures Deduped(reasons) == CallReasons(events, usage)
  {
    var found: seq<Reason> := [];
    if !ResponsesMatch(events, usage) {
      found := found + [ResponseLedgerInvalid];
    }
    if AnyProviderFailure(events) {
      found := found + [ProviderFailure];
    }
    var more := AttemptReasons(events, calls);
    assert more == [] <==> AllAttemptsOk(events) by {
      assert forall c :: c in calls <==> c in Ids(events, LogicalCall);
    }
    CombinedReasons(found, more, !ResponsesMatch(events, usage), AnyProviderFailure(events));
    return found + more;
  }

  lemma CombinedReasons(found: seq<Reason>, more: seq<Reason>, responses: bool, provider: bool)
    requires found == (if responses then [ResponseLedgerInvalid] else []) + (if provider then [ProviderFailure] else [])
    requires forall r <- more :: r.AttemptLedgerInvalid?
    ensures Deduped(found + more) == found + if more == [] then [] else [AttemptLedgerInvalid]
  {
    DedupedTail(found, more);
  }

  /** The ledger part of the audit. */
  method AuditLedger(t: Telemetry, id: Identity, usage: set<string>, calls: seq<string>) returns (reasons: seq<Reason>)
    requires forall c :: c in calls <==> c in Ids(t.events, LogicalCall)
    ensures reasons == LedgerReasons(t, id, usage)
  {
    if exists e <- t.events :: !Shaped(e) {
      return [ResponseLedgerInvalid];
    }
    reasons := [];
    if t.events == [] || !t.complete || t.dropped != Some(0) {
      reasons := reasons + [TelemetryIncomplete];
    } else if exists e <- t.events :: !From(e, id) {
      reasons := reasons + [IdentityMismatch];
    } else {
      reasons := AuditCalls(t.events, usage, calls);
    }
    DedupedSingle(TelemetryIncomplete);
    DedupedSingle(IdentityMismatch);
    reasons := Deduped(reasons);
  }

  lemma DedupedSingle(r: Reason)
    ensures Deduped([r]) == [r]
  {
    assert [r][..0] == [];
  }

  /** Repeats of a last new reason collapse into one. */
  lemma {:induction false} DedupedTail(reasons: seq<Reason>, more: seq<Reason>)
    requires |reasons| <= 2 && (|reasons| == 2 ==> reasons[0] != reasons[1])
    requires forall r <- more :: r.AttemptLedgerInvalid? && r !in reasons
    ensures Deduped(reasons + more) == reasons + if more == [] then [] else [AttemptLedgerInvalid]
  {
    if more == [] {
      assert reasons + more == reasons;
      assert Deduped([]) == [];
      if |reasons| == 2 {
        assert reasons[..1] == [reasons[0]] && [reasons[0]][..0] == [];
        assert Deduped([reasons[0]]) == [reasons[0]];
      } else if |reasons| == 1 {
        assert reasons[..0] == [];
      }
    } else {
      var init := more[..|more| - 1];
      assert forall r <- init :: r in more;
      DedupedTail(reasons, init);
      assert (reasons + more)[..|reasons + more| - 1] == reasons + init;
      assert more[|more| - 1] in more;
    }
  }

  // ----------------------------------------------------------------- projection

  // FieldError: some other field is missing, of the wrong type or out of range.
  datatype Error = MissingField | IdentityError | InconsistentIdentity | LedgerError | FieldError

  datatype TransportOutcome = TransportSuccess | TransportFailed | NotObserved
  datatype Validation = Passed | FailedValidation | Unobserved

  // `failed` and `attempted` are the item counts of the decode check.
  datatype CallRecord = CallRecord(
    callId: string, provider: string, model: string,
    httpCount: Option<nat>, attempts: seq<int>, attemptsComplete: bool,
    transport: TransportOutcome, validation: Validation, attempted: Option<nat>, failed: Option<nat>)

  datatype Group = Group(id: string, facts: seq<Fact>)

  /** Append to the group of that id, or open a new one at the end. */
  function Put(groups: seq<Group>, id: string, e: Fact): seq<Group> {
    if groups == [] then [Group(id, [e])]
    else if groups[0].id == id then [Group(id, groups[0].facts + [e])] + groups[1..]
    else [groups[0]] + Put(groups[1..], id, e)
  }

  function Grouped(events: seq<Fact>): seq<Group>
    requires forall e <- events :: e.callId.Some?
  {
    if events == [] then []
    else
      var last := events[|events| - 1];
      assert forall e <- events[..|events| - 1] :: e in events;
      Put(Grouped(events[..|events| - 1]), last.callId.value, last)
  }

  /** The outcomes an attempt record has words for. */
  predicate KnownOutcome(o: Option<string>) { o in {Some("success"), Some("http_error"), Some("transport_error")} }

  predicate HasIdentity(e: Fact) { e.provider.Some? && e.model.Some? }

  /** The first event, in order, that has no identity or another one than the call's. */
  function IdentityFault(facts: seq<Fact>, call: Fact): Option<Error> {
    if facts == [] then None
    else if !HasIdentity(facts[0]) || !HasIdentity(call) then Some(MissingField)
    else if (facts[0].provider, facts[0].model) != (call.provider, call.model) then Some(InconsistentIdentity)
    else IdentityFault(facts[1..], call)
  }

  /** The complete-ledger rule of a call record: attempts are exactly 1..n, or merely distinct. */
  predicate LedgerRule(numbers: seq<int>, complete: bool) {
    && (forall i, k | 0 <= i < k < |numbers| :: numbers[i] != numbers[k])
    && (complete ==> forall i | 0 <= i < |numbers| :: numbers[i] == i + 1)
  }

  function Numbers(attempts: seq<Fact>): seq<int>
    requires forall a <- attempts :: a.attempt.Some?
  {
    seq(|attempts|, i requires 0 <= i < |attempts| => attempts[i].attempt.value)
  }

  function RecordOf(id: string, facts: seq<Fact>, complete: bool): Result<CallRecord, Error> {
    var logical, results, attempts := OfKind(facts, LogicalCall), OfKind(facts, ModelResult), OfKind(facts, HttpAttempt);
    if exists e <- facts :: e.kind.NoKind? then Failure(MissingField)
    else if |logical| != 1 || |results| > 1 then Failure(IdentityError)
    else if IdentityFault(facts, logical[0]).Some? then Failure(IdentityFault(facts, logical[0]).value)
    else if exists a <- attempts :: a.attempt.None? || a.attempt.value < 1 || !KnownOutcome(a.outcome) || !a.inRange
    then Failure(FieldError)
    else if !HasIdentity(logical[0]) || !logical[0].inRange || (exists r <- results :: !r.inRange) then Failure(FieldError)
    else if !LedgerRule(Numbers(attempts), complete) then Failure(LedgerError)
    else
      var outcome := if results == [] then None else results[0].outcome;
      var decoded := outcome == Some("success") || outcome == Some("invalid_json");
      Success(CallRecord(
        id, logical[0].provider.value, logical[0].model.value,
        if complete then Some(|attempts|) else None, Numbers(attempts), complete,
        if decoded then TransportSuccess
        else if attempts != [] && attempts[|attempts| - 1].outcome != Some("success") then TransportFailed
        else NotObserved,
        if outcome == Some("success") then Passed
        else if outcome == Some("invalid_json") then FailedValidation
        else Unobserved,
        if decoded then Some(1) else None,
        if decoded then Some(if outcome == Some("invalid_json") then 1 else 0) else None))
  }

  function Collect(groups: seq<Group>, complete: bool): Result<seq<CallRecord>, Error> {
    if groups == [] then Success([])
    else match RecordOf(groups[0].id, groups[0].facts, complete)
      case Failure(e) => Failure(e)
      case Success(r) =>
        Prepended([r], Collect(groups[1..], complete))
  }

  function Prepended(first: seq<CallRecord>, rest: Result<seq<CallRecord>, Error>): Result<seq<CallRecord>, Error> {
    if rest.Failure? then rest else Success(first + rest.value)
  }

  lemma PrependedSplits(a: seq<CallRecord>, b: seq<CallRecord>, rest: Result<seq<CallRecord>, Error>)
    ensures Prepended(a, Prepended(b, rest)) == Prepended(a + b, rest)
    ensures Prepended([], rest) == rest
  {
    if rest.Success? {
      assert a + (b + rest.value) == (a + b) + rest.value;
      assert [] + rest.value == rest.value;
    }
  }

  predicate CaptureComplete(t: Telemetry) { t.complete && t.dropped == Some(0) }

  function Projected(t: Telemetry): Result<seq<CallRecord>, Error> {
    if exists e <- t.events :: e.callId.None? then Failure(MissingField)
    else Collect(Grouped(t.events), CaptureComplete(t))
  }

  method PutInPlace(groups: seq<Group>, id: string, e: Fact) returns (after: seq<Group>)
    ensures after == Put(groups, id, e)
  {
    var i := 0;
    while i < |groups| && groups[i].id != id
      invariant i <= |groups| && forall k | 0 <= k < i :: groups[k].id != id
    {
      i := i + 1;
    }
    if i == |groups| {
      PutNew(groups, id, e);
      return groups + [Group(id, [e])];
    }
    PutKnown(groups, id, e, i);
    return groups[i := Group(id, groups[i].facts + [e])];
  }

  /** The first loop: fill the dictionary of lists. */
  method GroupEvents(events: seq<Fact>) returns (groups: Option<seq<Group>>)
    ensures groups.None? <==> exists e <- events :: e.callId.None?
    ensures groups.Some? ==> groups.value == Grouped(events)
  {
    var filled := [];
    for i := 0 to |events|
      invariant forall e <- events[..i] :: e.callId.Some?
      invariant filled == Grouped(events[..i])
    {
      if events[i].callId.None? {
        return None;
      }
      assert events[..i + 1][..i] == events[..i];
      filled := PutInPlace(filled, events[i].callId.value, events[i]);
    }
    assert events[..|events|] == events;
    return Some(filled);
  }

  /** The second loop: one record per group, in the order the groups were opened. */
  method CollectRecords(groups: seq<Group>, complete: bool) returns (r: Result<seq<CallRecord>, Error>)
    ensures r == Collect(groups, complete)
  {
    var records := [];
    var k := 0;
    PrependedSplits([], [], Collect(groups, complete));
    assert groups[0..] == groups;
    while k < |groups|
      invariant k <= |groups|
      invariant Collect(groups, complete) == Prepended(records, Collect(groups[k..], complete))
    {
      assert groups[k..][1..] == groups[k + 1..];
      var record := RecordOf(groups[k].id, groups[k].facts, complete);
      if record.Failure? {
        return Failure(record.error);
      }
      PrependedSplits(records, [record.value], Collect(groups[k + 1..], complete));
      records := records + [record.value];
      k := k + 1;
    }
    assert records + [] == records;
    return Success(records);
  }

  method RuntimeCallRecords(t: Telemetry) returns (r: Result<seq<CallRecord>, Error>)
    ensures r == Projected(t)
  {
    var groups := GroupEvents(t.events);
    if groups.None? {
      return Failure(MissingField);
    }
    r := CollectRecords(groups.value, t.complete && t.dropped == Some(0));
  }

  // --------------------------------------------- an accepted ledger can be projected

  /** Every fact is in exactly one group, in the order it was emitted. */
  predicate Partitioned(groups: seq<Group>, events: seq<Fact>) {
    && (forall i, k | 0 <= i < k < |groups| :: groups[i].id != groups[k].id)
    && (forall i | 0 <= i < |groups| :: groups[i].facts == Filter(events, groups[i].id) && groups[i].facts != [])
    && (forall e <- events :: e.callId.Some? && exists i :: 0 <= i < |groups| && groups[i].id == e.callId.value)
  }

  lemma {:induction false} PutKnown(groups: seq<Group>, id: string, e: Fact, k: nat)
    requires k < |groups| && groups[k].id == id
    requires forall j | 0 <= j < k :: groups[j].id != id
    ensures Put(groups, id, e) == groups[k := Group(id, groups[k].facts + [e])]
  {
    if k > 0 {
      PutKnown(groups[1..], id, e, k - 1);
    }
  }

  lemma {:induction false} PutNew(groups: seq<Group>, id: string, e: Fact)
    requires forall j | 0 <= j < |groups| :: groups[j].id != id
    ensures Put(groups, id, e) == groups + [Group(id, [e])]
  {
    if groups != [] {
      PutNew(groups[1..], id, e);
    }
  }

  lemma {:induction false} FilterFacts(events: seq<Fact>, id: string)
    ensures forall e <- Filter(events, id) :: e in events && e.callId == Some(id)
    ensures Filter(events, id) == [] <==> forall e <- events :: e.callId != Some(id)
  {
    if events != [] {
      FilterFacts(events[..|events| - 1], id);
    }
  }

  lemma {:induction false} OfKindFacts(events: seq<Fact>, k: Kind)
    ensures forall e <- OfKind(events, k) :: e in events && e.kind == k
    ensures forall e <- events :: e.kind == k ==> e in OfKind(events, k)
    ensures |OfKind(events, k)| == Count(events, k)
  {
    if events != [] {
      OfKindFacts(events[..|events| - 1], k);
    }
  }

  lemma {:induction false} IdsCountKind(events: seq<Fact>, k: Kind, id: string)
    ensures Ids(events, k)[id] == |OfKind(Filter(events, id), k)|
  {
    if events != [] {
      var init, last := events[..|events| - 1], events[|events| - 1];
      IdsCountKind(init, k, id);
      var before := Filter(init, id);
      assert (before + [last])[..|before|] == before;
    }
  }

  lemma {:induction false} GroupedPartitions(events: seq<Fact>)
    requires forall e <- events :: e.callId.Some?
    ensures Partitioned(Grouped(events), events)
  {
    if events != [] {
      var init, last := events[..|events| - 1], events[|events| - 1];
      assert forall e <- init :: e in events;
      GroupedPartitions(init);
      PutKeepsPartition(Grouped(init), init, last);
      assert init + [last] == events;
    }
  }

  lemma {:induction false} PutKeepsPartition(groups: seq<Group>, events: seq<Fact>, e: Fact)
    requires Partitioned(groups, events) && e.callId.Some?
    ensures Partitioned(Put(groups, e.callId.value, e), events + [e])
  {
    var id, longer := e.callId.value, events + [e];
    var after := Put(groups, id, e);
    FilterAppend(events, e);
    if k :| 0 <= k < |groups| && groups[k].id == id {
      PutKnown(groups, id, e, k);
      assert after[k].id == id;
    } else {
      PutNew(groups, id, e);
      FilterFacts(events, id);
      assert after[|groups|].id == id;
    }
    forall x <- longer
      ensures x.callId.Some? && exists i :: 0 <= i < |after| && after[i].id == x.callId.value
    {
      if x in events {
        var i :| 0 <= i < |groups| && groups[i].id == x.callId.value;
        assert after[i].id == x.callId.value;
      } else {
        assert x == e;
      }
    }
  }

  lemma FilterAppend(events: seq<Fact>, e: Fact)
    requires e.callId.Some?
    ensures forall id :: Filter(events + [e], id) == Filter(events, id) + if e.callId.value == id then [e] else []
  {
    assert (events + [e])[..|events|] == events;
  }

  /** The number of facts of one kind over all the groups. */
  function SumCount(groups: seq<Group>, k: Kind): nat {
    if groups == [] then 0 else Count(groups[0].facts, k) + SumCount(groups[1..], k)
  }

  lemma {:induction false} PutAddsOne(groups: seq<Group>, id: string, e: Fact, k: Kind)
    ensures SumCount(Put(groups, id, e), k) == SumCount(groups, k) + if e.kind == k then 1 else 0
  {
    if groups == [] {
      assert [e][..0] == [];
      assert Count([e], k) == Count([], k) + if e.kind == k then 1 else 0;
      assert SumCount([Group(id, [e])], k) == Count([e], k) + SumCount([], k);
    } else if groups[0].id == id {
      var facts := groups[0].facts;
      assert (facts + [e])[..|facts|] == facts;
    } else {
      PutAddsOne(groups[1..], id, e, k);
    }
  }

  lemma {:induction false} GroupingConserves(events: seq<Fact>, k: Kind)
    requires forall e <- events :: e.callId.Some?
    ensures SumCount(Grouped(events), k) == Count(events, k)
  {
    if events != [] {
      var init, last := events[..|events| - 1], events[|events| - 1];
      assert forall e <- init :: e in events;
      GroupingConserves(init, k);
      PutAddsOne(Grouped(init), last.callId.value, last, k);
    }
  }

  /** What the audit says nothing about: the other fields a record takes from its events. */
  predicate FieldsInRange(e: Fact) {
    match e.kind
    case LogicalCall | ModelResult => e.inRange
    case HttpAttempt => KnownOutcome(e.outcome) && e.inRange
    case OtherKind | NoKind => true
  }

  lemma {:induction false} NoIdentityFault(facts: seq<Fact>, call: Fact, id: Identity)
    requires From(call, id) && forall e <- facts :: From(e, id)
    ensures IdentityFault(facts, call) == None
  {
    if facts != [] {
      assert From(facts[0], id) && forall e <- facts[1..] :: e in facts;
      assert (facts[0].provider, facts[0].model) == (call.provider, call.model);
      NoIdentityFault(facts[1..], call, id);
    }
  }

  /** A group the audit has nothing against. */
  predicate GroupAccepted(facts: seq<Fact>, id: Identity) {
    && |OfKind(facts, LogicalCall)| == 1 && |OfKind(facts, ModelResult)| == 1
    && (forall e <- facts :: From(e, id) && !e.kind.NoKind?)
    && AttemptsNumbered(OfKind(facts, HttpAttempt))
  }

  predicate RecordMatches(r: CallRecord, g: Group, id: Identity) {
    && r.callId == g.id && r.provider == id.provider && r.model == id.model && r.attemptsComplete
    && r.httpCount == Some(Count(g.facts, HttpAttempt)) && |r.attempts| == Count(g.facts, HttpAttempt)
    && forall i | 0 <= i < |r.attempts| :: r.attempts[i] == i + 1
  }

  lemma AcceptedGroupProjects(g: Group, id: Identity)
    requires GroupAccepted(g.facts, id)
    ensures RecordOf(g.id, g.facts, true).Success? <==> forall e <- g.facts :: FieldsInRange(e)
    ensures var r := RecordOf(g.id, g.facts, true); r.Success? ==> RecordMatches(r.value, g, id)
  {
    var logical, results, attempts :=
      OfKind(g.facts, LogicalCall), OfKind(g.facts, ModelResult), OfKind(g.facts, HttpAttempt);
    OfKindFacts(g.facts, LogicalCall);
    OfKindFacts(g.facts, HttpAttempt);
    assert logical[0] in g.facts;
    NoIdentityFault(g.facts, logical[0], id);
    NumberedAreInOrder(attempts);
    FieldsOfKinds(g.facts);
    OnlyOne(logical);
    OnlyOne(results);
  }

  lemma OnlyOne(facts: seq<Fact>)
    requires |facts| == 1
    ensures (forall e <- facts :: e.inRange) <==> facts[0].inRange
  {
  }

  lemma NumberedAreInOrder(attempts: seq<Fact>)
    requires AttemptsNumbered(attempts)
    ensures forall a <- attempts :: a.attempt.Some? && a.attempt.value >= 1
    ensures LedgerRule(Numbers(attempts), true)
  {
    forall a <- attempts ensures a.attempt.Some? && a.attempt.value >= 1 {
      var i :| 0 <= i < |attempts| && attempts[i] == a;
    }
  }

  /** The fields of all events are in range when those of each kind are. */
  lemma FieldsOfKinds(facts: seq<Fact>)
    ensures (forall e <- facts :: FieldsInRange(e)) <==>
      && (forall c <- OfKind(facts, LogicalCall) :: c.inRange)
      && (forall r <- OfKind(facts, ModelResult) :: r.inRange)
      && (forall a <- OfKind(facts, HttpAttempt) :: KnownOutcome(a.outcome) && a.inRange)
  {
    OfKindFacts(facts, LogicalCall);
    OfKindFacts(facts, ModelResult);
    OfKindFacts(facts, HttpAttempt);
    if forall e <- facts :: FieldsInRange(e) {
      assert forall c <- OfKind(facts, LogicalCall) :: FieldsInRange(c);
      assert forall r <- OfKind(facts, ModelResult) :: FieldsInRange(r);
      assert forall a <- OfKind(facts, HttpAttempt) :: FieldsInRange(a);
    }
  }

  predicate RecordsMatch(records: seq<CallRecord>, groups: seq<Group>, id: Identity) {
    |records| == |groups| && forall i | 0 <= i < |groups| :: RecordMatches(records[i], groups[i], id)
  }

  function SumHttp(records: seq<CallRecord>): nat {
    if records == [] then 0
    else SumHttp(records[1..]) + if records[0].httpCount.Some? then records[0].httpCount.value else 0
  }

  lemma RecordsPrepend(r: CallRecord, records: seq<CallRecord>, g: Group, groups: seq<Group>, id: Identity)
    requires RecordMatches(r, g, id) && RecordsMatch(records, groups, id)
    ensures RecordsMatch([r] + records, [g] + groups, id)
    ensures SumHttp([r] + records) == SumHttp(records) + Count(g.facts, HttpAttempt)
  {
    assert ([r] + records)[1..] == records;
  }

  lemma {:induction false} CollectSucceedsIff(groups: seq<Group>, complete: bool)
    ensures Collect(groups, complete).Success? <==> forall g <- groups :: RecordOf(g.id, g.facts, complete).Success?
  {
    if groups != [] {
      assert forall g <- groups :: g == groups[0] || g in groups[1..];
      CollectSucceedsIff(groups[1..], complete);
    }
  }

  lemma {:induction false} CollectMatches(groups: seq<Group>, id: Identity)
    requires Collect(groups, true).Success?
    requires forall g <- groups :: RecordOf(g.id, g.facts, true).Success?
                                   ==> RecordMatches(RecordOf(g.id, g.facts, true).value, g, id)
    ensures var records := Collect(groups, true).value;
      RecordsMatch(records, groups, id) && SumHttp(records) == SumCount(groups, HttpAttempt)
  {
    if groups != [] {
      var first, rest := groups[0], groups[1..];
      CollectMatches(rest, id);
      assert groups == [first] + rest;
      RecordsPrepend(RecordOf(first.id, first.facts, true).value, Collect(rest, true).value, first, rest, id);
    }
  }

  lemma {:induction false} OneCallEach(groups: seq<Group>)
    requires forall g <- groups :: |OfKind(g.facts, LogicalCall)| == 1
    ensures SumCount(groups, LogicalCall) == |groups|
  {
    if groups != [] {
      OneCallEach(groups[1..]);
      OfKindFacts(groups[0].facts, LogicalCall);
    }
  }

  lemma AcceptedGroupsProject(groups: seq<Group>, id: Identity)
    requires forall g <- groups :: GroupAccepted(g.facts, id)
    ensures Collect(groups, true).Success? <==> forall g <- groups :: forall e <- g.facts :: FieldsInRange(e)
    ensures var r := Collect(groups, true);
      r.Success? ==> RecordsMatch(r.value, groups, id) && SumHttp(r.value) == SumCount(groups, HttpAttempt)
    ensures SumCount(groups, LogicalCall) == |groups|
  {
    forall g <- groups
      ensures RecordOf(g.id, g.facts, true).Success? <==> forall e <- g.facts :: FieldsInRange(e)
      ensures RecordOf(g.id, g.facts, true).Success? ==> RecordMatches(RecordOf(g.id, g.facts, true).value, g, id)
    {
      AcceptedGroupProjects(g, id);
    }
    CollectSucceedsIff(groups, true);
    if Collect(groups, true).Success? {
      CollectMatches(groups, id);
    }
    OneCallEach(groups);
  }

  /** The decode check of a record counts what the call's one result says, and never more failures than items. */
  lemma RecordReportsResult(id: string, facts: seq<Fact>, complete: bool)
    requires RecordOf(id, facts, complete).Success?
    ensures var r := RecordOf(id, facts, complete).value;
      && (r.validation.Passed? <==> exists e <- facts :: e.kind.ModelResult? && e.outcome == Some("success"))
      && (r.validation.FailedValidation? <==> exists e <- facts :: e.kind.ModelResult? && e.outcome == Some("invalid_json"))
      && (r.transport.TransportSuccess? <==> !r.validation.Unobserved?)
      && (r.attempted.Some? <==> !r.validation.Unobserved?) && (r.failed.Some? <==> r.attempted.Some?)
      && (r.failed.Some? ==> r.failed.value <= r.attempted.value
                             && (r.failed.value == r.attempted.value <==> r.validation.FailedValidation?))
      && (r.transport.TransportFailed? ==> exists e <- facts :: e.kind.HttpAttempt? && e.outcome != Some("success"))
  {
    OfKindFacts(facts, ModelResult);
    OfKindFacts(facts, HttpAttempt);
    var results, attempts := OfKind(facts, ModelResult), OfKind(facts, HttpAttempt);
    assert forall e <- facts :: e.kind.ModelResult? ==> e in results;
    if results != [] {
      assert results[0] in results;
    }
    if attempts != [] {
      assert attempts[|attempts| - 1] in attempts;
    }
  }

  /** No reason from the audit means every group of facts is one finished call. */
  lemma AcceptedGroup(t: Telemetry, id: Identity, usage: set<string>, g: Group)
    requires LedgerReasons(t, id, usage) == []
    requires g.facts == Filter(t.events, g.id) && g.facts != []
    ensures GroupAccepted(g.facts, id) && OfKind(g.facts, HttpAttempt) != []
  {
    assert ResponsesMatch(t.events, usage) && AllAttemptsOk(t.events);
    FilterFacts(t.events, g.id);
    assert g.facts[0] in t.events && g.facts[0].callId == Some(g.id);
    var logical := Ids(t.events, LogicalCall);
    assert g.id in logical && logical[g.id] == 1;
    IdsCountKind(t.events, LogicalCall, g.id);
    IdsCountKind(t.events, ModelResult, g.id);
    assert forall e <- g.facts :: From(e, id) && Shaped(e);
    assert AttemptsOk(t.events, g.id);
  }

  lemma AcceptedGroups(t: Telemetry, id: Identity, usage: set<string>, groups: seq<Group>)
    requires LedgerReasons(t, id, usage) == []
    requires Partitioned(groups, t.events)
    ensures forall g <- groups :: GroupAccepted(g.facts, id) && OfKind(g.facts, HttpAttempt) != []
  {
    forall g <- groups ensures GroupAccepted(g.facts, id) && OfKind(g.facts, HttpAttempt) != [] {
      var i :| 0 <= i < |groups| && groups[i] == g;
      AcceptedGroup(t, id, usage, g);
    }
  }

  lemma PartitionRanges(groups: seq<Group>, events: seq<Fact>)
    requires Partitioned(groups, events)
    ensures (forall g <- groups :: forall e <- g.facts :: FieldsInRange(e)) <==> forall e <- events :: FieldsInRange(e)
  {
    if forall g <- groups :: forall e <- g.facts :: FieldsInRange(e) {
      forall e <- events ensures FieldsInRange(e) {
        var i :| 0 <= i < |groups| && groups[i].id == e.callId.value;
        InFilter(events, e);
        assert groups[i] in groups && e in groups[i].facts;
      }
    } else {
      var g :| g in groups && exists e <- g.facts :: !FieldsInRange(e);
      var i :| 0 <= i < |groups| && groups[i] == g;
      FilterFacts(events, g.id);
    }
  }

  lemma {:induction false} InFilter(events: seq<Fact>, e: Fact)
    requires e in events && e.callId.Some?
    ensures e in Filter(events, e.callId.value)
  {
    if e in events[..|events| - 1] {
      InFilter(events[..|events| - 1], e);
    }
  }

  /**
   A ledger the audit accepts projects exactly when every attempt has a known outcome and the other
   fields its records take from calls, results and attempts are in range: no identity or attempt check of the projection can fail. The
   records are then one per logical call, each holding its own attempts 1..n, and the counts add up
   to all the attempts.
   */
  lemma AcceptedLedgerProjects(t: Telemetry, id: Identity, usage: set<string>)
    requires LedgerReasons(t, id, usage) == []
    ensures Projected(t).Success? <==> forall e <- t.events :: FieldsInRange(e)
    ensures Projected(t).Success? ==>
      var records := Projected(t).value;
      && |records| == Count(t.events, LogicalCall)
      && SumHttp(records) == Count(t.events, HttpAttempt)
      && (forall i, k | 0 <= i < k < |records| :: records[i].callId != records[k].callId)
      && (forall r <- records ::
            && r.callId in Ids(t.events, LogicalCall) && r.callId in usage
            && r.attempts != [] && r.httpCount == Some(|r.attempts|)
            && |r.attempts| == |OfKind(Filter(t.events, r.callId), HttpAttempt)|
            && forall i | 0 <= i < |r.attempts| :: r.attempts[i] == i + 1)
  {
    assert ResponsesMatch(t.events, usage);
    var groups := Grouped(t.events);
    GroupedPartitions(t.events);
    AcceptedGroups(t, id, usage, groups);
    AcceptedGroupsProject(groups, id);
    PartitionRanges(groups, t.events);
    GroupingConserves(t.events, LogicalCall);
    GroupingConserves(t.events, HttpAttempt);
    assert Projected(t) == Collect(groups, true);
    if Projected(t).Success? {
      RecordsOfAccepted(t, id, usage, groups, Projected(t).value);
    }
  }

  lemma RecordsOfAccepted(t: Telemetry, id: Identity, usage: set<string>, groups: seq<Group>, records: seq<CallRecord>)
    requires ResponsesMatch(t.events, usage) && Partitioned(groups, t.events) && RecordsMatch(records, groups, id)
    requires forall g <- groups :: OfKind(g.facts, HttpAttempt) != []
    ensures forall i, k | 0 <= i < k < |records| :: records[i].callId != records[k].callId
    ensures forall r <- records ::
      && r.callId in Ids(t.events, LogicalCall) && r.callId in usage
      && r.attempts != [] && r.httpCount == Some(|r.attempts|)
      && |r.attempts| == |OfKind(Filter(t.events, r.callId), HttpAttempt)|
      && forall i | 0 <= i < |r.attempts| :: r.attempts[i] == i + 1
  {
    forall r <- records
      ensures r.callId in Ids(t.events, LogicalCall)
      ensures r.attempts != [] && |r.attempts| == |OfKind(Filter(t.events, r.callId), HttpAttempt)|
      ensures RecordMatches(r, Group(r.callId, Filter(t.events, r.callId)), id)
    {
      var i :| 0 <= i < |records| && records[i] == r;
      assert RecordMatches(records[i], groups[i], id) && groups[i] in groups;
      OfKindFacts(groups[i].facts, HttpAttempt);
      FilterFacts(t.events, r.callId);
      assert groups[i].facts[0] in t.events;
    }
  }
}
