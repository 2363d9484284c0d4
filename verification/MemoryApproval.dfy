/**
 Dual-engineer approval of memory candidates and the publication it triggers.
 */
module MemoryApproval {
  import opened Wrappers

  datatype Status = PendingApproval | Published | Rejected
  datatype Decision = Approve | Reject
  datatype Role = YieldEngineer | ProcessEngineer | EquipmentEngineer | QualityEngineer
  datatype IndexStatus = NotRequested | IndexPending | IndexCompleted

  datatype Approval = Approval(
    approvalId: string, candidateId: string, engineerId: string, role: Role,
    decision: Decision, comment: string, decidedAt: int)

  // `content` stands for the RCA conclusion a candidate carries; no decision reads or writes it.
  datatype Candidate = Candidate(
    candidateId: string, jobId: string, status: Status, requiresProcess: bool,
    approvals: seq<Approval>, publishedCaseId: Option<string>,
    indexStatus: IndexStatus, indexAttempts: nat, updatedAt: int, content: string)

  datatype CaseRecord = CaseRecord(caseId: string, sourceCandidateId: string, approvalCount: nat)
  datatype DocumentRecord = DocumentRecord(documentId: string, caseId: string, approvals: seq<Approval>)

  datatype AuditAction = ApprovalRecorded | CandidatePublished | CandidateRejected
  datatype AuditEvent = AuditEvent(action: AuditAction, candidateId: string, actor: string)

  datatype Error = NotFound | Conflict | NeedsProcessEngineer | Invalid

  // -------------------------------------------------------------- identifiers

  predicate Space(c: char) { c == ' ' || '\t' <= c <= '\r' || '\U{1c}' <= c <= '\U{1f}' }

  function StripLeft(s: string): string {
    if s != "" && Space(s[0]) then StripLeft(s[1..]) else s
  }

  function StripRight(s: string): string {
    if s != "" && Space(s[|s| - 1]) then StripRight(s[..|s| - 1]) else s
  }

  function UpperChar(c: char): char {
    if 'a' <= c <= 'z' then (c as int - 32) as char else c
  }

  function Upper(s: string): string {
    seq(|s|, i requires 0 <= i < |s| => UpperChar(s[i]))
  }

  function Strip(s: string): string { StripRight(StripLeft(s)) }

  /** The engineer identity decisions are compared by. */
  function Normalize(s: string): string { Upper(Strip(s)) }

  function RemovePrefix(s: string, prefix: string): string {
    if prefix <= s then s[|prefix|..] else s
  }

  function CaseId(candidateId: string): string { "RCA_MEMORY_" + RemovePrefix(candidateId, "MEM_") }
  function DocumentId(candidateId: string): string { "DOC_MEMORY_" + RemovePrefix(candidateId, "MEM_") }

  // ---------------------------------------------------------------- decisions

  function Approved(approvals: seq<Approval>): seq<Approval> {
    if approvals == [] then []
    else (if approvals[0].decision.Approve? then [approvals[0]] else []) + Approved(approvals[1..])
  }

  predicate HasProcess(approvals: seq<Approval>) {
    exists a <- approvals :: a.role.ProcessEngineer?
  }

  predicate Decided(c: Candidate, engineerId: string) {
    exists a <- c.approvals :: a.engineerId == engineerId
  }

  datatype Outcome = Outcome(
    updated: Candidate, published: Option<(CaseRecord, DocumentRecord)>, audit: seq<AuditEvent>)

  function ApplyDecision(c: Candidate, a: Approval): Result<Outcome, Error> {
    if !c.status.PendingApproval? then Failure(Conflict)
    else if Decided(c, a.engineerId) then Failure(Conflict)
    else
      var approvals := c.approvals + [a];
      var approved := Approved(approvals);
      var enough := a.decision.Approve? && |approved| >= 2;
      if enough && c.requiresProcess && !HasProcess(approved) then Failure(NeedsProcessEngineer)
      else if exists x <- approvals :: x.candidateId != c.candidateId then Failure(Invalid)
      else
        var status := if a.decision.Reject? then Rejected else if enough then Published else PendingApproval;
        var caseId := CaseId(c.candidateId);
        var updated := c.(
          status := status, approvals := approvals, updatedAt := a.decidedAt,
          publishedCaseId := if status.Published? then Some(caseId) else None,
          indexStatus := if status.Published? then IndexPending else NotRequested);
        Success(Outcome(
          updated,
          if status.Published?
          then Some((CaseRecord(caseId, c.candidateId, |approved|),
                     DocumentRecord(DocumentId(c.candidateId), caseId, approvals)))
          else None,
          [AuditEvent(ApprovalRecorded, c.candidateId, a.engineerId)]
          + match status
            case PendingApproval => []
            case Published => [AuditEvent(CandidatePublished, c.candidateId, a.engineerId)]
            case Rejected => [AuditEvent(CandidateRejected, c.candidateId, a.engineerId)]))
  }

  // -------------------------------------------------------------------- store

  datatype Memory = Memory(
    candidates: map<string, Candidate>, byJob: map<string, string>,
    cases: map<string, CaseRecord>, documents: map<string, DocumentRecord>, audit: seq<AuditEvent>)

  const EMPTY := Memory(map[], map[], map[], map[], [])

  function Created(m: Memory, c: Candidate): Memory {
    if c.jobId in m.byJob then m
    else m.(candidates := m.candidates[c.candidateId := c], byJob := m.byJob[c.jobId := c.candidateId])
  }

  /** A published candidate is indexed in the same step that publishes it. */
  function Indexed(c: Candidate): Candidate {
    if c.status.Published? then c.(indexStatus := IndexCompleted, indexAttempts := c.indexAttempts + 1) else c
  }

  function Recorded(m: Memory, id: string, o: Outcome): Memory {
    m.(candidates := m.candidates[id := Indexed(o.updated)],
       cases := if o.published.Some? then m.cases[o.published.value.0.caseId := o.published.value.0] else m.cases,
       documents := if o.published.Some?
                    then m.documents[o.published.value.1.documentId := o.published.value.1] else m.documents,
       audit := m.audit + o.audit)
  }

  function Committed(m: Memory, candidateId: string, a: Approval): Memory {
    if candidateId !in m.candidates then m
    else match ApplyDecision(m.candidates[candidateId], a)
      case Failure(_) => m
      case Success(o) => Recorded(m, candidateId, o)
  }

  datatype Action =
    | Create(candidate: Candidate)
    | Decide(candidateId: string, approvalId: string, engineer: string, role: Role,
             decision: Decision, comment: string, at: int)

  /** The approval the service builds, or None where its constructor refuses. */
  function Built(d: Action): Option<Approval>
    requires d.Decide?
  {
    var engineer := Normalize(d.engineer);
    if d.candidateId == "" || d.approvalId == "" || engineer == "" then None
    else Some(Approval(d.approvalId, d.candidateId, engineer, d.role, d.decision, Strip(d.comment), d.at))
  }

  function Step(m: Memory, a: Action): Memory {
    match a
    case Create(c) => Created(m, c)
    case Decide(id, _, _, _, _, _, _) => if Built(a).Some? then Committed(m, id, Built(a).value) else m
  }

  function Run(m: Memory, actions: seq<Action>): Memory
    decreases |actions|
  {
    if actions == [] then m else Run(Step(m, actions[0]), actions[1..])
  }

  /** Why a decision is refused, read off the stored candidate; None when it is taken. */
  function Refusal(m: Memory, d: Action): Option<Error>
    requires d.Decide?
  {
    if d.candidateId == "" || d.approvalId == "" || Normalize(d.engineer) == "" then Some(Invalid)
    else if d.candidateId !in m.candidates then Some(NotFound)
    else
      var c := m.candidates[d.candidateId];
      if !c.status.PendingApproval? || Decided(c, Normalize(d.engineer)) then Some(Conflict)
      else if d.decision.Approve? && c.approvals != [] && c.requiresProcess
              && !d.role.ProcessEngineer? && !c.approvals[0].role.ProcessEngineer?
      then Some(NeedsProcessEngineer)
      else None
  }

  class InMemoryMemoryStore {
    var candidates: map<string, Candidate>
    var byJob: map<string, string>
    var cases: map<string, CaseRecord>
    var documents: map<string, DocumentRecord>
    var audit: seq<AuditEvent>

    function State(): Memory
      reads this
    {
      Memory(candidates, byJob, cases, documents, audit)
    }

    predicate Valid()
      reads this
    {
      forall j <- byJob :: byJob[j] in candidates
    }

    constructor ()
      ensures Valid() && State() == EMPTY
    {
      candidates, byJob, cases, documents, audit := map[], map[], map[], map[], [];
    }

    method Create(c: Candidate) returns (r: Candidate)
      requires Valid()
      modifies this
      ensures Valid() && State() == Created(old(State()), c)
      ensures r == if c.jobId in old(byJob) then old(candidates)[old(byJob)[c.jobId]] else c
    {
      if c.jobId in byJob {
        return candidates[byJob[c.jobId]];
      }
      candidates := candidates[c.candidateId := c];
      byJob := byJob[c.jobId := c.candidateId];
      return c;
    }

    method CommitDecision(candidateId: string, a: Approval) returns (r: Result<Candidate, Error>)
      requires Valid()
      modifies this
      ensures Valid() && State() == Committed(old(State()), candidateId, a)
      ensures r == if candidateId !in old(candidates) then Failure(NotFound)
                   else match ApplyDecision(old(candidates)[candidateId], a)
                        case Failure(e) => Failure(e)
                        case Success(_) => Success(candidates[candidateId])
    {
      if candidateId !in candidates {
        return Failure(NotFound);
      }
      var outcome := ApplyDecision(candidates[candidateId], a);
      if outcome.Failure? {
        return Failure(outcome.error);
      }
      var updated := outcome.value.updated;
      if updated.status == Published {
        updated := updated.(indexStatus := IndexCompleted, indexAttempts := updated.indexAttempts + 1);
      }
      candidates := candidates[candidateId := updated];
      if outcome.value.published.Some? {
        var (c, d) := outcome.value.published.value;
        cases := cases[c.caseId := c];
        documents := documents[d.documentId := d];
      }
      audit := audit + outcome.value.audit;
      return Success(updated);
    }

    /** The service call: identities are normalised before anything is compared. */
    method DecideAs(d: Action) returns (r: Result<Candidate, Error>)
      requires Valid() && d.Decide?
      modifies this
      ensures Valid() && State() == Step(old(State()), d)
      ensures MemoryInv(old(State())) ==> r == if Refusal(old(State()), d).Some? then Failure(Refusal(old(State()), d).value)
                                               else Success(candidates[d.candidateId])
    {
      if MemoryInv(State()) {
        DecisionReply(State(), d);
      }
      var approval := Built(d);
      if approval.None? {
        return Failure(Invalid);
      }
      r := CommitDecision(d.candidateId, approval.value);
    }
  }

  // --------------------------------------------------------------- invariants

  predicate DistinctEngineers(approvals: seq<Approval>) {
    forall i, k | 0 <= i < k < |approvals| :: approvals[i].engineerId != approvals[k].engineerId
  }

  predicate AllApprove(approvals: seq<Approval>) {
    forall a <- approvals :: a.decision.Approve?
  }

  /** Which decisions lead to which status. */
  predicate Shaped(status: Status, approvals: seq<Approval>, requiresProcess: bool) {
    match status
    case PendingApproval => |approvals| <= 1 && AllApprove(approvals)
    case Published => |approvals| == 2 && AllApprove(approvals) && (requiresProcess ==> HasProcess(approvals))
    case Rejected =>
      && 1 <= |approvals| <= 2 && approvals[|approvals| - 1].decision.Reject?
      && AllApprove(approvals[..|approvals| - 1])
  }

  predicate CandidateInv(c: Candidate) {
    && DistinctEngineers(c.approvals)
    && (forall a <- c.approvals ::
          a.candidateId == c.candidateId && a.engineerId != "" && Normalize(a.engineerId) == a.engineerId)
    && (c.publishedCaseId == if c.status.Published? then Some(CaseId(c.candidateId)) else None)
    && (c.indexStatus == if c.status.Published? then IndexCompleted else NotRequested)
    && Shaped(c.status, c.approvals, c.requiresProcess)
  }

  predicate CandidatesInv(m: Memory) {
    forall id <- m.candidates ::
      m.candidates[id].candidateId == id && "MEM_" <= id && CandidateInv(m.candidates[id])
  }

  predicate JobsInv(m: Memory) {
    && (forall id <- m.candidates :: m.candidates[id].jobId in m.byJob && m.byJob[m.candidates[id].jobId] == id)
    && (forall j <- m.byJob :: m.byJob[j] in m.candidates && m.candidates[m.byJob[j]].jobId == j)
  }

  predicate IsPublishedAs(m: Memory, id: string)
    requires id in m.candidates
  {
    && CaseId(id) in m.cases && m.cases[CaseId(id)] == CaseRecord(CaseId(id), id, 2)
    && DocumentId(id) in m.documents
    && m.documents[DocumentId(id)] == DocumentRecord(DocumentId(id), CaseId(id), m.candidates[id].approvals)
  }

  predicate PublishedInv(m: Memory) {
    forall id <- m.candidates | m.candidates[id].status.Published? :: IsPublishedAs(m, id)
  }

  predicate CasesInv(m: Memory) {
    forall k <- m.cases ::
      var id := m.cases[k].sourceCandidateId;
      id in m.candidates && m.candidates[id].status.Published? && k == CaseId(id)
  }

  predicate MemoryInv(m: Memory) {
    CandidatesInv(m) && JobsInv(m) && PublishedInv(m) && CasesInv(m)
  }

  /** A candidate as the RCA pipeline creates it, under an id never used before. */
  predicate LegalIn(m: Memory, a: Action) {
    a.Create? ==>
      var c := a.candidate;
      && c.status.PendingApproval? && c.approvals == [] && c.publishedCaseId.None? && c.indexStatus.NotRequested?
      && "MEM_" <= c.candidateId && c.candidateId !in m.candidates
  }

  predicate LegalRun(m: Memory, actions: seq<Action>)
    decreases |actions|
  {
    actions != [] ==> LegalIn(m, actions[0]) && LegalRun(Step(m, actions[0]), actions[1..])
  }

  lemma StripIdempotent(s: string)
    ensures StripLeft(StripLeft(s)) == StripLeft(s)
    ensures StripRight(StripRight(s)) == StripRight(s)
    ensures StripLeft(s) == s ==> StripLeft(StripRight(s)) == StripRight(s)
  {
    StripRightKeepsHead(s);
    StripLeftStops(s);
    StripRightStops(s);
  }

  lemma {:induction false} StripLeftStops(s: string)
    ensures StripLeft(s) == "" || !Space(StripLeft(s)[0])
  {
    if s != "" && Space(s[0]) {
      StripLeftStops(s[1..]);
    }
  }

  lemma {:induction false} StripRightStops(s: string)
    ensures StripRight(s) == "" || !Space(StripRight(s)[|StripRight(s)| - 1])
  {
    if s != "" && Space(s[|s| - 1]) {
      StripRightStops(s[..|s| - 1]);
    }
  }

  lemma {:induction false} StripRightKeepsHead(s: string)
    ensures StripRight(s) == "" || (s != "" && StripRight(s)[0] == s[0])
  {
    if s != "" && Space(s[|s| - 1]) {
      StripRightKeepsHead(s[..|s| - 1]);
    }
  }

  /** Normalising again changes nothing, so normal forms can be compared directly. */
  lemma NormalizeIdempotent(s: string)
    ensures Normalize(Normalize(s)) == Normalize(s)
  {
    var left := StripLeft(s);
    var core := StripRight(left);
    StripIdempotent(s);
    StripIdempotent(left);
    StripRightKeepsHead(left);
    StripLeftStops(s);
    StripRightStops(left);
    var up := Upper(core);
    if core != "" {
      assert !Space(up[0]) && !Space(up[|up| - 1]);
      assert StripLeft(up) == up && StripRight(up) == up;
    }
    assert Upper(up) == up;
  }

  const BLANKS := " \t\n\U{0b}\U{0c}\r\U{1c}\U{1d}\U{1e}\U{1f}"

  lemma BlanksAre(c: char)
    ensures Space(c) <==> c in BLANKS
  {
    assert BLANKS[1] == '\t' && BLANKS[2] == '\n' && BLANKS[3] == '\U{0b}' && BLANKS[4] == '\U{0c}' && BLANKS[5] == '\r';
    assert BLANKS[6] == '\U{1c}' && BLANKS[7] == '\U{1d}' && BLANKS[8] == '\U{1e}' && BLANKS[9] == '\U{1f}';
  }

  predicate Blank(s: string) { forall c <- s :: c in BLANKS }

  lemma {:induction false} LeftBlanks(s: string) returns (left: string)
    ensures s == left + StripLeft(s) && Blank(left)
  {
    left := "";
    if s != "" && Space(s[0]) {
      BlanksAre(s[0]);
      var rest := LeftBlanks(s[1..]);
      left := [s[0]] + rest;
    }
  }

  lemma {:induction false} RightBlanks(s: string) returns (right: string)
    ensures s == StripRight(s) + right && Blank(right)
  {
    right := "";
    if s != "" && Space(s[|s| - 1]) {
      BlanksAre(s[|s| - 1]);
      var rest := RightBlanks(s[..|s| - 1]);
      right := rest + [s[|s| - 1]];
    }
  }

  /** Stripping takes the blanks off both ends, all of them and nothing else. */
  lemma StripTakesBlanks(s: string) returns (left: string, right: string)
    ensures s == left + Strip(s) + right && Blank(left) && Blank(right)
    ensures Strip(s) != "" ==> Strip(s)[0] !in BLANKS && Strip(s)[|Strip(s)| - 1] !in BLANKS
  {
    left := LeftBlanks(s);
    right := RightBlanks(StripLeft(s));
    assert s == left + (Strip(s) + right);
    StripLeftStops(s);
    StripRightStops(StripLeft(s));
    StripRightKeepsHead(StripLeft(s));
    if Strip(s) != "" {
      BlanksAre(Strip(s)[0]);
      BlanksAre(Strip(s)[|Strip(s)| - 1]);
    }
  }

  /** The same ASCII letter, in either case. */
  predicate SameLetter(a: char, b: char) {
    || a == b
    || ('a' <= a <= 'z' && a as int - b as int == 'a' as int - 'A' as int)
    || ('a' <= b <= 'z' && b as int - a as int == 'a' as int - 'A' as int)
  }

  /** Two spellings are one identity exactly when, without the blanks around them, they differ in letter case only. */
  lemma SameIdentityIff(s: string, t: string)
    ensures Normalize(s) == Normalize(t) <==>
      |Strip(s)| == |Strip(t)| && forall i | 0 <= i < |Strip(s)| :: SameLetter(Strip(s)[i], Strip(t)[i])
  {
    var a, b := Strip(s), Strip(t);
    assert |Upper(a)| == |a| && |Upper(b)| == |b|;
    if |a| == |b| {
      forall i | 0 <= i < |a| ensures Upper(a)[i] == Upper(b)[i] <==> SameLetter(a[i], b[i]) {
      }
      assert Upper(a) == Upper(b) <==> forall i | 0 <= i < |a| :: Upper(a)[i] == Upper(b)[i];
    }
  }

  lemma ApprovedAppend(approvals: seq<Approval>, a: Approval)
    ensures Approved(approvals + [a]) == Approved(approvals) + if a.decision.Approve? then [a] else []
  {
    if approvals == [] {
      assert approvals + [a] == [a];
    } else {
      assert (approvals + [a])[1..] == approvals[1..] + [a];
    }
  }

  lemma {:induction false} ApprovedAll(approvals: seq<Approval>)
    requires AllApprove(approvals)
    ensures Approved(approvals) == approvals
  {
    if approvals != [] {
      assert approvals[0] in approvals && forall a <- approvals[1..] :: a in approvals;
      ApprovedAll(approvals[1..]);
    }
  }

  lemma CaseIdInjective(a: string, b: string)
    requires "MEM_" <= a && "MEM_" <= b
    ensures CaseId(a) == CaseId(b) ==> a == b
    ensures DocumentId(a) == DocumentId(b) ==> a == b
  {
    assert a == a[..4] + a[4..] && b == b[..4] + b[4..];
    assert CaseId(a)[11..] == a[4..] && CaseId(b)[11..] == b[4..];
    assert DocumentId(a)[11..] == a[4..] && DocumentId(b)[11..] == b[4..];
  }

  /** Publication ids collide exactly when two ids differ by the one prefix. */
  lemma CaseIdsCollideIff(a: string, b: string)
    requires a != b
    ensures CaseId(a) == CaseId(b) <==>
            (a == "MEM_" + b && !("MEM_" <= b)) || (b == "MEM_" + a && !("MEM_" <= a))
  {
    assert CaseId(a)[11..] == RemovePrefix(a, "MEM_") && CaseId(b)[11..] == RemovePrefix(b, "MEM_");
    assert "MEM_" <= a ==> a == "MEM_" + a[4..];
    assert "MEM_" <= b ==> b == "MEM_" + b[4..];
  }

  lemma CreatedCandidates(m: Memory, c: Candidate)
    requires CandidatesInv(m) && JobsInv(m) && LegalIn(m, Create(c))
    ensures CandidatesInv(Created(m, c)) && JobsInv(Created(m, c))
  {
  }

  lemma CreatedPublications(m: Memory, c: Candidate)
    requires PublishedInv(m) && CasesInv(m) && LegalIn(m, Create(c))
    ensures PublishedInv(Created(m, c)) && CasesInv(Created(m, c))
  {
    forall id | id in Created(m, c).candidates && Created(m, c).candidates[id].status.Published?
      ensures IsPublishedAs(Created(m, c), id)
    {
      assert IsPublishedAs(m, id);
    }
  }

  /** What an accepted decision on `id` may write. */
  predicate Lawful(c: Candidate, o: Outcome) {
    && c.status.PendingApproval?
    && o.updated.candidateId == c.candidateId && o.updated.jobId == c.jobId
    && CandidateInv(Indexed(o.updated))
    && (o.published.Some? <==> o.updated.status.Published?)
    && (o.published.Some? ==>
          o.published.value == (CaseRecord(CaseId(c.candidateId), c.candidateId, 2),
                                DocumentRecord(DocumentId(c.candidateId), CaseId(c.candidateId), o.updated.approvals)))
  }

  /** Every accepted decision takes a pending candidate to a lawful one. */
  lemma DecisionKeepsInv(c: Candidate, a: Approval)
    requires CandidateInv(c) && a.engineerId != "" && Normalize(a.engineerId) == a.engineerId
    requires ApplyDecision(c, a).Success?
    ensures Lawful(c, ApplyDecision(c, a).value)
  {
    assert a in c.approvals + [a];
    IdentitiesKept(c, a);
    ShapeKept(c, a);
  }

  lemma ShapeKept(c: Candidate, a: Approval)
    requires Shaped(PendingApproval, c.approvals, c.requiresProcess) && c.status.PendingApproval?
    requires ApplyDecision(c, a).Success?
    ensures Shaped(ApplyDecision(c, a).value.updated.status, c.approvals + [a], c.requiresProcess)
    ensures ApplyDecision(c, a).value.updated.status.Published? ==> |Approved(c.approvals + [a])| == 2
  {
    ApprovalsAfter(c.approvals, a);
    assert (c.approvals + [a])[|c.approvals|] == a;
  }

  /** The clauses about who decided, whatever the decision. */
  lemma IdentitiesKept(c: Candidate, a: Approval)
    requires CandidateInv(c) && !Decided(c, a.engineerId) && a.candidateId == c.candidateId
    requires a.engineerId != "" && Normalize(a.engineerId) == a.engineerId
    ensures DistinctEngineers(c.approvals + [a])
    ensures forall x <- c.approvals + [a] ::
      x.candidateId == c.candidateId && x.engineerId != "" && Normalize(x.engineerId) == x.engineerId
  {
    EngineersAppended(c, a);
  }

  lemma ApprovalsAfter(approvals: seq<Approval>, a: Approval)
    requires AllApprove(approvals)
    ensures var after := approvals + [a];
      && after[..|after| - 1] == approvals
      && (a.decision.Approve? ==> AllApprove(after) && Approved(after) == after)
  {
    ApprovedAppend(approvals, a);
    ApprovedAll(approvals);
  }

  lemma EngineersAppended(c: Candidate, a: Approval)
    requires DistinctEngineers(c.approvals) && !Decided(c, a.engineerId)
    requires Normalize(a.engineerId) == a.engineerId
    requires forall x <- c.approvals :: Normalize(x.engineerId) == x.engineerId
    ensures DistinctEngineers(c.approvals + [a])
    ensures forall x <- c.approvals + [a] :: x in c.approvals || x == a
  {
    assert forall i | 0 <= i < |c.approvals| :: c.approvals[i] in c.approvals;
  }

  lemma RecordedCandidates(m: Memory, id: string, o: Outcome)
    requires CandidatesInv(m) && JobsInv(m) && id in m.candidates && Lawful(m.candidates[id], o)
    ensures CandidatesInv(Recorded(m, id, o)) && JobsInv(Recorded(m, id, o))
  {
  }

  lemma RecordedPublications(m: Memory, id: string, o: Outcome)
    requires CandidatesInv(m) && PublishedInv(m) && CasesInv(m) && id in m.candidates && Lawful(m.candidates[id], o)
    ensures PublishedInv(Recorded(m, id, o)) && CasesInv(Recorded(m, id, o))
  {
    var n := Recorded(m, id, o);
    forall x | x in n.candidates && n.candidates[x].status.Published?
      ensures IsPublishedAs(n, x)
    {
      if x != id {
        RecordedElsewhere(m, id, o, x);
      }
    }
  }

  /** What is published of one candidate is untouched by a decision on another. */
  lemma RecordedElsewhere(m: Memory, id: string, o: Outcome, x: string)
    requires CandidatesInv(m) && id in m.candidates && Lawful(m.candidates[id], o)
    requires x in m.candidates && x != id && IsPublishedAs(m, x)
    ensures IsPublishedAs(Recorded(m, id, o), x)
  {
    CaseIdInjective(x, id);
  }

  lemma CommitKeepsInv(m: Memory, id: string, a: Approval)
    requires MemoryInv(m) && a.engineerId != "" && Normalize(a.engineerId) == a.engineerId
    ensures MemoryInv(Committed(m, id, a))
  {
    if id in m.candidates && ApplyDecision(m.candidates[id], a).Success? {
      DecisionKeepsInv(m.candidates[id], a);
      RecordedCandidates(m, id, ApplyDecision(m.candidates[id], a).value);
      RecordedPublications(m, id, ApplyDecision(m.candidates[id], a).value);
    }
  }

  lemma StepKeepsInv(m: Memory, a: Action)
    requires MemoryInv(m) && LegalIn(m, a)
    ensures MemoryInv(Step(m, a))
  {
    match a
    case Create(c) =>
      CreatedCandidates(m, c);
      CreatedPublications(m, c);
    case Decide(id, _, engineer, _, _, _, _) =>
      if Built(a).Some? {
        NormalizeIdempotent(engineer);
        CommitKeepsInv(m, id, Built(a).value);
      }
  }

  lemma {:induction false} RunKeepsInv(m: Memory, actions: seq<Action>)
    requires MemoryInv(m) && LegalRun(m, actions)
    ensures MemoryInv(Run(m, actions))
    decreases |actions|
  {
    if actions != [] {
      StepKeepsInv(m, actions[0]);
      RunKeepsInv(Step(m, actions[0]), actions[1..]);
    }
  }

  // ------------------------------------------------------------------ theorems

  /** Over any decisions: published exactly with two approvals, by two engineers whose normalised
      ids differ, one of them a process engineer where that is required. */
  lemma PublishedIffDualControl(actions: seq<Action>, id: string)
    requires LegalRun(EMPTY, actions) && id in Run(EMPTY, actions).candidates
    ensures var c := Run(EMPTY, actions).candidates[id];
            c.status.Published? <==>
            && |c.approvals| == 2
            && c.approvals[0].decision.Approve? && c.approvals[1].decision.Approve?
            && Normalize(c.approvals[0].engineerId) != Normalize(c.approvals[1].engineerId)
            && (c.requiresProcess ==> c.approvals[0].role.ProcessEngineer? || c.approvals[1].role.ProcessEngineer?)
  {
    RunKeepsInv(EMPTY, actions);
    DualControlOf(Run(EMPTY, actions).candidates[id]);
  }

  lemma DualControlOf(c: Candidate)
    requires CandidateInv(c)
    ensures c.status.Published? <==>
            && |c.approvals| == 2
            && c.approvals[0].decision.Approve? && c.approvals[1].decision.Approve?
            && Normalize(c.approvals[0].engineerId) != Normalize(c.approvals[1].engineerId)
            && (c.requiresProcess ==> c.approvals[0].role.ProcessEngineer? || c.approvals[1].role.ProcessEngineer?)
  {
    if |c.approvals| == 2 {
      TwoApprovals(c.approvals);
    }
  }

  lemma TwoApprovals(approvals: seq<Approval>)
    requires |approvals| == 2
    ensures AllApprove(approvals) <==> approvals[0].decision.Approve? && approvals[1].decision.Approve?
    ensures AllApprove(approvals[..1]) <==> approvals[0].decision.Approve?
    ensures HasProcess(approvals) <==> approvals[0].role.ProcessEngineer? || approvals[1].role.ProcessEngineer?
    ensures forall a <- approvals :: a == approvals[0] || a == approvals[1]
    ensures approvals[0] in approvals && approvals[1] in approvals
  {
    assert approvals[..1] == [approvals[0]];
  }

  /** Published cases and published candidates are in bijection. */
  lemma CasesMatchCandidates(actions: seq<Action>)
    requires LegalRun(EMPTY, actions)
    ensures var m := Run(EMPTY, actions);
            && m.cases.Keys == (set id | id in m.candidates && m.candidates[id].status.Published? :: CaseId(id))
            && (forall a <- m.candidates, b <- m.candidates :: CaseId(a) == CaseId(b) ==> a == b)
            && (forall k <- m.cases :: CaseId(m.cases[k].sourceCandidateId) == k)
  {
    RunKeepsInv(EMPTY, actions);
    var m := Run(EMPTY, actions);
    forall a, b | a in m.candidates && b in m.candidates && CaseId(a) == CaseId(b)
      ensures a == b
    {
      CaseIdInjective(a, b);
    }
  }

  lemma TerminalStep(m: Memory, a: Action, id: string)
    requires id in m.candidates && m.candidates[id].candidateId == id && LegalIn(m, a)
    requires !m.candidates[id].status.PendingApproval?
    ensures id in Step(m, a).candidates && Step(m, a).candidates[id] == m.candidates[id]
  {
  }

  /** A published or rejected candidate is never changed again. */
  lemma {:induction false} TerminalIsFinal(m: Memory, actions: seq<Action>, id: string)
    requires LegalRun(m, actions) && id in m.candidates && m.candidates[id].candidateId == id
    requires !m.candidates[id].status.PendingApproval?
    ensures id in Run(m, actions).candidates && Run(m, actions).candidates[id] == m.candidates[id]
    decreases |actions|
  {
    if actions != [] {
      TerminalStep(m, actions[0], id);
      TerminalIsFinal(Step(m, actions[0]), actions[1..], id);
    }
  }

  /** A second decision under any spelling of the same identity is refused and writes nothing. */
  lemma SameEngineerRefused(m: Memory, d: Action, e: Action)
    requires MemoryInv(m) && d.Decide? && e.Decide? && d.candidateId == e.candidateId
    requires Built(d).Some? && d.candidateId in m.candidates
    requires ApplyDecision(m.candidates[d.candidateId], Built(d).value).Success?
    requires Normalize(d.engineer) == Normalize(e.engineer)
    ensures Step(Step(m, d), e) == Step(m, d)
  {
    var c := Step(m, d).candidates[d.candidateId];
    assert c.approvals == m.candidates[d.candidateId].approvals + [Built(d).value];
    assert Built(d).value in c.approvals;
  }

  // ------------------------------------------------------ what a decision does

  /** Whatever is created, a job has one candidate: the first one created for it. */
  lemma CreatedOncePerJob(m: Memory, c: Candidate)
    requires MemoryInv(m) && LegalIn(m, Create(c))
    ensures var n := Step(m, Create(c));
      && (n == m <==> exists id <- m.candidates :: m.candidates[id].jobId == c.jobId)
      && (n != m ==> n == m.(candidates := m.candidates[c.candidateId := c], byJob := m.byJob[c.jobId := c.candidateId]))
      && c.jobId in n.byJob && n.byJob[c.jobId] in n.candidates && n.candidates[n.byJob[c.jobId]].jobId == c.jobId
      && (forall a <- n.candidates, b <- n.candidates :: n.candidates[a].jobId == n.candidates[b].jobId ==> a == b)
  {
    StepKeepsInv(m, Create(c));
    var n := Step(m, Create(c));
    assert n != m ==> c.candidateId in n.candidates && c.candidateId !in m.candidates;
  }

  lemma DecisionOutcome(c: Candidate, a: Approval)
    requires CandidateInv(c) && a.candidateId == c.candidateId
    ensures var r := ApplyDecision(c, a);
      if !c.status.PendingApproval? || Decided(c, a.engineerId) then r == Failure(Conflict)
      else if a.decision.Approve? && c.approvals != [] && c.requiresProcess
              && !a.role.ProcessEngineer? && !c.approvals[0].role.ProcessEngineer?
      then r == Failure(NeedsProcessEngineer)
      else
        && r.Success?
        && r.value.updated.approvals == c.approvals + [a]
        && r.value.updated.status == if a.decision.Reject? then Rejected
                                     else if c.approvals == [] then PendingApproval else Published
  {
    if c.status.PendingApproval? {
      ApprovalsAfter(c.approvals, a);
      ProcessAfter(c.approvals, a);
      assert (c.approvals + [a])[|c.approvals|] == a;
    }
  }

  lemma ProcessAfter(approvals: seq<Approval>, a: Approval)
    requires |approvals| <= 1
    ensures HasProcess(approvals + [a]) <==>
      a.role.ProcessEngineer? || (approvals != [] && approvals[0].role.ProcessEngineer?)
  {
    assert a in approvals + [a];
    if approvals != [] {
      assert approvals[0] in approvals + [a];
    }
  }

  /** What `ApplyDecision` answers for a decision the service builds. */
  lemma DecisionReply(m: Memory, d: Action)
    requires MemoryInv(m) && d.Decide?
    ensures Built(d).None? <==> d.candidateId == "" || d.approvalId == "" || Normalize(d.engineer) == ""
    ensures Built(d).Some? && d.candidateId in m.candidates ==>
      match ApplyDecision(m.candidates[d.candidateId], Built(d).value)
      case Failure(e) => Refusal(m, d) == Some(e)
      case Success(_) => Refusal(m, d) == None
  {
    if Built(d).Some? && d.candidateId in m.candidates {
      DecisionOutcome(m.candidates[d.candidateId], Built(d).value);
    }
  }

  /**
   A decision is taken exactly when the candidate is pending, the engineer has not decided on it under any
   spelling, and it is not the second approval of a candidate that still lacks its process engineer; a
   rejection needs no one else. Everything else writes nothing.
   */
  lemma DecisionTakenIff(m: Memory, d: Action)
    requires MemoryInv(m) && d.Decide?
    ensures Step(m, d) != m <==>
      && d.approvalId != "" && Normalize(d.engineer) != "" && d.candidateId in m.candidates
      && var c := m.candidates[d.candidateId];
      && c.status.PendingApproval?
      && (forall a <- c.approvals :: Normalize(a.engineerId) != Normalize(d.engineer))
      && (d.decision.Approve? && c.approvals != [] && c.requiresProcess ==>
            d.role.ProcessEngineer? || c.approvals[0].role.ProcessEngineer?)
    ensures Step(m, d) != m <==> Refusal(m, d).None?
  {
    DecisionReply(m, d);
    if d.candidateId in m.candidates {
      var c := m.candidates[d.candidateId];
      assert forall a <- c.approvals :: Normalize(a.engineerId) == a.engineerId;
      assert d.candidateId[..4] == "MEM_";
      if Refusal(m, d).None? {
        DecisionOutcome(c, Built(d).value);
        AcceptedWrites(m, d);
        assert |Step(m, d).candidates[d.candidateId].approvals| == |c.approvals| + 1;
      }
    }
  }

  /**
   What a decision that is taken writes: the approval under the normalised identity, the status it leads to,
   on publication the case and its document, and the audit trail. Nothing else changes.
   */
  lemma DecisionWrites(m: Memory, d: Action)
    requires MemoryInv(m) && d.Decide? && Step(m, d) != m
    ensures var n, id := Step(m, d), d.candidateId;
      && id in m.candidates && id in n.candidates
      && var c, k := m.candidates[id], n.candidates[id];
      var published := d.decision.Approve? && c.approvals != [];
      && n == m.(candidates := m.candidates[id := k], cases := n.cases, documents := n.documents, audit := n.audit)
      && k.approvals == c.approvals
           + [Approval(d.approvalId, id, Normalize(d.engineer), d.role, d.decision, Strip(d.comment), d.at)]
      && k.status == (if d.decision.Reject? then Rejected else if published then Published else PendingApproval)
      && (k.candidateId, k.jobId, k.requiresProcess, k.content) == (c.candidateId, c.jobId, c.requiresProcess, c.content)
      && k.updatedAt == d.at && k.publishedCaseId == (if published then Some(CaseId(id)) else None)
      && k.indexStatus == (if published then IndexCompleted else NotRequested)
      && k.indexAttempts == c.indexAttempts + (if published then 1 else 0)
      && n.cases == (if published then m.cases[CaseId(id) := CaseRecord(CaseId(id), id, 2)] else m.cases)
      && n.documents == (if published
                         then m.documents[DocumentId(id) := DocumentRecord(DocumentId(id), CaseId(id), k.approvals)]
                         else m.documents)
      && n.audit == m.audit + [AuditEvent(ApprovalRecorded, id, Normalize(d.engineer))]
                    + if d.decision.Reject? then [AuditEvent(CandidateRejected, id, Normalize(d.engineer))]
                      else if published then [AuditEvent(CandidatePublished, id, Normalize(d.engineer))] else []
  {
    var c := m.candidates[d.candidateId];
    DecisionTakenIff(m, d);
    DecisionOutcome(c, Built(d).value);
    AcceptedWrites(m, d);
    ApprovalsAfter(c.approvals, Built(d).value);
    AuditAppended(m, d);
  }

  lemma AuditAppended(m: Memory, d: Action)
    requires d.Decide? && Built(d).Some? && d.candidateId in m.candidates
    requires ApplyDecision(m.candidates[d.candidateId], Built(d).value).Success?
    ensures Step(m, d).audit == m.audit + ApplyDecision(m.candidates[d.candidateId], Built(d).value).value.audit
  {
  }

  /** A process engineer's approval. */
  function Approving(id: string, engineer: string): Action {
    Decide(id, "APPROVAL", engineer, ProcessEngineer, Approve, "", 0)
  }

  lemma FreshApprovalAccepted(c: Candidate, a: Approval)
    requires CandidateInv(c) && c.status.PendingApproval? && a.candidateId == c.candidateId
    requires a.role.ProcessEngineer? && a.decision.Approve? && !Decided(c, a.engineerId)
    ensures ApplyDecision(c, a).Success?
    ensures var u := ApplyDecision(c, a).value.updated;
            && u.approvals == c.approvals + [a]
            && u.status == (if |c.approvals| == 1 then Published else PendingApproval)
  {
    ApprovedAppend(c.approvals, a);
    ApprovedAll(c.approvals);
    assert (c.approvals + [a])[|c.approvals|] == a;
  }

  lemma LettersAreNormal()
    ensures Normalize("A") == "A" && Normalize("B") == "B"
  {
    assert Upper("A") == "A" && Upper("B") == "B";
  }

  lemma AcceptedWrites(m: Memory, d: Action)
    requires d.Decide? && Built(d).Some? && d.candidateId in m.candidates
    requires ApplyDecision(m.candidates[d.candidateId], Built(d).value).Success?
    ensures var o := ApplyDecision(m.candidates[d.candidateId], Built(d).value).value;
            d.candidateId in Step(m, d).candidates && Step(m, d).candidates[d.candidateId] == Indexed(o.updated)
  {
  }

  lemma FreshApproverSucceeds(m: Memory, id: string, engineer: string)
    requires MemoryInv(m) && id in m.candidates && m.candidates[id].status.PendingApproval?
    requires engineer == "A" || engineer == "B"
    requires !Decided(m.candidates[id], engineer)
    ensures var n := Step(m, Approving(id, engineer));
            && id in n.candidates
            && |n.candidates[id].approvals| == |m.candidates[id].approvals| + 1
            && n.candidates[id].approvals[|m.candidates[id].approvals|].engineerId == engineer
            && n.candidates[id].status == (if |m.candidates[id].approvals| == 1 then Published else PendingApproval)
  {
    var c, d := m.candidates[id], Approving(id, engineer);
    assert CandidateInv(c) && c.candidateId == id;
    assert id[0] == 'M';
    LettersAreNormal();
    FreshApprovalAccepted(c, Built(d).value);
    AcceptedWrites(m, d);
  }

  lemma RunTwo(m: Memory, a: Action, b: Action)
    ensures Run(m, [a]) == Step(m, a) && Run(m, [a, b]) == Step(Step(m, a), b)
    ensures a.Decide? && b.Decide? ==> LegalRun(m, [a]) && LegalRun(m, [a, b])
  {
    assert [a, b][1..] == [b];
    assert forall n, x :: Run(n, [x]) == Run(Step(n, x), []);
    assert forall n: Memory :: LegalRun(n, []);
  }

  predicate Publishes(m: Memory, actions: seq<Action>, id: string) {
    LegalRun(m, actions) && id in Run(m, actions).candidates && Run(m, actions).candidates[id].status.Published?
  }

  lemma SecondApprovalPublishes(m: Memory, id: string)
    requires MemoryInv(m) && id in m.candidates && m.candidates[id].status.PendingApproval?
    requires |m.candidates[id].approvals| == 1
    ensures var first := if m.candidates[id].approvals[0].engineerId == "A" then "B" else "A";
            Publishes(m, [Approving(id, first)], id)
  {
    var first := if m.candidates[id].approvals[0].engineerId == "A" then "B" else "A";
    FreshApproverSucceeds(m, id, first);
    RunTwo(m, Approving(id, first), Approving(id, first));
  }

  lemma FirstApproval(m: Memory, id: string)
    requires MemoryInv(m) && id in m.candidates && m.candidates[id].status.PendingApproval?
    requires |m.candidates[id].approvals| == 0
    ensures var n := Step(m, Approving(id, "A"));
            && MemoryInv(n) && id in n.candidates && n.candidates[id].status.PendingApproval?
            && |n.candidates[id].approvals| == 1 && n.candidates[id].approvals[0].engineerId == "A"
  {
    StepKeepsInv(m, Approving(id, "A"));
    FreshApproverSucceeds(m, id, "A");
  }

  lemma ThenSecond(m: Memory, n: Memory, id: string)
    requires n == Step(m, Approving(id, "A")) && MemoryInv(n)
    requires id in n.candidates && n.candidates[id].status.PendingApproval?
    requires |n.candidates[id].approvals| == 1 && n.candidates[id].approvals[0].engineerId == "A"
    ensures Publishes(m, [Approving(id, "A"), Approving(id, "B")], id)
  {
    FreshApproverSucceeds(n, id, "B");
    RunTwo(m, Approving(id, "A"), Approving(id, "B"));
  }

  /** No pending candidate is stuck: two decisions at most publish it. */
  lemma PendingCanBePublished(m: Memory, id: string)
    requires MemoryInv(m) && id in m.candidates && m.candidates[id].status.PendingApproval?
    ensures exists actions :: |actions| <= 2 && Publishes(m, actions, id)
  {
    if |m.candidates[id].approvals| == 1 {
      SecondApprovalPublishes(m, id);
    } else {
      assert CandidateInv(m.candidates[id]);
      FirstApproval(m, id);
      ThenSecond(m, Step(m, Approving(id, "A")), id);
      assert |[Approving(id, "A"), Approving(id, "B")]| <= 2;
    }
  }
}
