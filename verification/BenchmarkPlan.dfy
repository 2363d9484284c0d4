/**
 The frozen experiment plan: every case on both models in every replicate, with
 the model that goes first alternating.
 */
module BenchmarkPlan {
  import opened Wrappers

  datatype PlannedRun = PlannedRun(
    runId: string, caseId: string, provider: string, model: string, replicate: nat, order: nat)

  datatype Error = UnsafePlanId | CasesOrRepeats | UnsafeCaseId | CommitRequired | PromptHashRequired

  const PAIRS: seq<(string, string)> := [("dashscope", "qwen-plus"), ("deepseek", "deepseek-v4-pro")]

  predicate SafeChar(c: char) {
    'A' <= c <= 'Z' || 'a' <= c <= 'z' || '0' <= c <= '9' || c == '_' || c == '-'
  }

  predicate Safe(id: string) { 1 <= |id| <= 100 && forall c <- id :: SafeChar(c) }

  predicate Hex(s: string, n: nat) { |s| == n && forall c <- s :: 'a' <= c <= 'f' || '0' <= c <= '9' }

  function Rejection(planId: string, cases: seq<string>, commit: string, promptHash: string, repeats: int): Option<Error> {
    if !Safe(planId) then Some(UnsafePlanId)
    else if cases == [] || !Distinct(cases) || repeats !in {1, 2, 3} then Some(CasesOrRepeats)
    else if exists c <- cases :: !Safe(c) then Some(UnsafeCaseId)
    else if !Hex(commit, 40) then Some(CommitRequired)
    else if !Hex(promptHash, 64) then Some(PromptHashRequired)
    else None
  }

  function RunId(planId: string, caseId: string, provider: string, replicate: nat): string
    requires replicate < 10
  {
    planId + "_" + caseId + "_" + provider + "_r" + [('0' as int + replicate) as char]
  }

  /** Which pair runs first for the case at `index`. */
  function Lead(index: nat, replicate: nat): nat
    requires replicate >= 1
  {
    (index + replicate - 1) % 2
  }

  /** The pair at place 0 or 1 of a case. */
  function PairAt(index: nat, replicate: nat, place: nat): (k: nat)
    requires replicate >= 1 && place < 2
    ensures k < 2
  {
    if place == 0 then Lead(index, replicate) else 1 - Lead(index, replicate)
  }

  function RunOf(planId: string, cases: seq<string>, index: nat, replicate: nat, place: nat, order: nat): PlannedRun
    requires index < |cases| && 1 <= replicate <= 3 && place < 2
  {
    var pair := PAIRS[PairAt(index, replicate, place)];
    PlannedRun(RunId(planId, cases[index], pair.0, replicate), cases[index], pair.0, pair.1, replicate, order)
  }

  /** Where a run stands, counting from 0. */
  function Place(n: nat, index: nat, replicate: nat, place: nat): nat
    requires replicate >= 1
  {
    (replicate - 1) * (2 * n) + 2 * index + place
  }

  /** Exactly the runs of the first `filled` places. */
  ghost predicate Filled(rows: seq<PlannedRun>, planId: string, cases: seq<string>) {
    forall index: nat, replicate: nat, place: nat
      | index < |cases| && 1 <= replicate <= 3 && place < 2 && Place(|cases|, index, replicate, place) < |rows| ::
      rows[Place(|cases|, index, replicate, place)]
        == RunOf(planId, cases, index, replicate, place, Place(|cases|, index, replicate, place) + 1)
  }

  lemma {:induction false} LaterBlock(a: nat, b: nat, size: nat)
    requires a < b
    ensures a * size + size <= b * size
    decreases b - a
  {
    assert b * size == (b - 1) * size + size;
    if a + 1 < b {
      LaterBlock(a, b - 1, size);
    }
  }

  lemma BlockBelow(j: nat, size: nat, blocks: nat)
    requires size > 0 && j < size * blocks
    ensures j / size < blocks && j == (j / size) * size + j % size
  {
    var block := j / size;
    if blocks < block {
      LaterBlock(blocks, block, size);
    }
  }

  lemma PlaceInjective(n: nat, i: nat, r: nat, p: nat, i': nat, r': nat, p': nat)
    requires i < n && i' < n && r >= 1 && r' >= 1 && p < 2 && p' < 2
    requires Place(n, i, r, p) == Place(n, i', r', p')
    ensures i == i' && r == r' && p == p'
  {
    if r < r' {
      LaterBlock(r - 1, r' - 1, 2 * n);
    } else if r' < r {
      LaterBlock(r' - 1, r - 1, 2 * n);
    }
  }

  /** Every position of a plan is the place of some run. */
  lemma PlaceOnto(n: nat, repeats: nat, j: nat) returns (i: nat, r: nat, p: nat)
    requires n > 0 && j < 2 * n * repeats
    ensures i < n && 1 <= r <= repeats && p < 2 && Place(n, i, r, p) == j
  {
    var block, rest := j / (2 * n), j % (2 * n);
    BlockBelow(j, 2 * n, repeats);
    i, r, p := rest / 2, block + 1, rest % 2;
  }

  lemma FilledAppend(rows: seq<PlannedRun>, planId: string, cases: seq<string>, index: nat, replicate: nat, place: nat)
    requires index < |cases| && 1 <= replicate <= 3 && place < 2
    requires Filled(rows, planId, cases) && |rows| == Place(|cases|, index, replicate, place)
    ensures Filled(rows + [RunOf(planId, cases, index, replicate, place, |rows| + 1)], planId, cases)
  {
    var after := rows + [RunOf(planId, cases, index, replicate, place, |rows| + 1)];
    forall i: nat, r: nat, p: nat | i < |cases| && 1 <= r <= 3 && p < 2 && Place(|cases|, i, r, p) < |after|
      ensures after[Place(|cases|, i, r, p)] == RunOf(planId, cases, i, r, p, Place(|cases|, i, r, p) + 1)
    {
      if Place(|cases|, i, r, p) == |rows| {
        PlaceInjective(|cases|, i, r, p, index, replicate, place);
      }
    }
  }

  /** `cases` are the case ids in the order of their seeded digests. */
  method MakePlan(planId: string, cases: seq<string>, commit: string, promptHash: string, repeats: int)
    returns (r: Result<seq<PlannedRun>, Error>)
    ensures r.Failure? <==> Rejection(planId, cases, commit, promptHash, repeats).Some?
    ensures r.Failure? ==> Some(r.error) == Rejection(planId, cases, commit, promptHash, repeats)
    ensures r.Success? ==> |r.value| == 2 * |cases| * repeats && Filled(r.value, planId, cases)
  {
    var rejected := Rejection(planId, cases, commit, promptHash, repeats);
    if rejected.Some? {
      return Failure(rejected.value);
    }
    var n := |cases|;
    var rows: seq<PlannedRun> := [];
    for replicate := 1 to repeats + 1
      invariant |rows| == (replicate - 1) * (2 * n)
      invariant Filled(rows, planId, cases)
    {
      for index := 0 to n
        invariant |rows| == (replicate - 1) * (2 * n) + 2 * index
        invariant Filled(rows, planId, cases)
      {
        var pairs := if (index + replicate - 1) % 2 == 0 then PAIRS else [PAIRS[1], PAIRS[0]];
        for place := 0 to 2
          invariant |rows| == Place(n, index, replicate, place)
          invariant Filled(rows, planId, cases)
        {
          var pair := pairs[place];
          var run := PlannedRun(
            RunId(planId, cases[index], pair.0, replicate), cases[index], pair.0, pair.1, replicate, |rows| + 1);
          assert run == RunOf(planId, cases, index, replicate, place, |rows| + 1);
          FilledAppend(rows, planId, cases, index, replicate, place);
          rows := rows + [run];
        }
      }
      assert (replicate - 1) * (2 * n) + 2 * n == replicate * (2 * n);
    }
    assert 2 * n * repeats == repeats * (2 * n);
    return Success(rows);
  }

  // ----------------------------------------------------------------- which plans are made

  const UPPER := "ABCDEFGHIJKLMNOPQRSTUVWXYZ"
  const LOWER := "abcdefghijklmnopqrstuvwxyz"
  const DIGITS := "0123456789"
  const HEX_DIGITS := "0123456789abcdef"

  predicate IsLetter(c: char) { c in UPPER || c in LOWER || c in DIGITS || c == '_' || c == '-' }

  /** A name of 1 to 100 of these characters. */
  predicate IsName(id: string) { id != "" && |id| <= 100 && forall c <- id :: IsLetter(c) }

  predicate IsDigest(s: string, n: nat) { |s| == n && forall c <- s :: c in HEX_DIGITS }

  lemma UpperAre(c: char)
    ensures c in UPPER <==> 'A' <= c <= 'Z'
  {
    if 'A' <= c <= 'Z' {
      assert UPPER[c as int - 'A' as int] == c;
    }
  }

  lemma LowerAre(c: char)
    ensures c in LOWER <==> 'a' <= c <= 'z'
  {
    if 'a' <= c <= 'z' {
      assert LOWER[c as int - 'a' as int] == c;
    }
  }

  lemma DigitsAre(c: char)
    ensures c in DIGITS <==> '0' <= c <= '9'
  {
    if '0' <= c <= '9' {
      assert DIGITS[c as int - '0' as int] == c;
    }
  }

  lemma LettersAre(c: char)
    ensures IsLetter(c) <==> SafeChar(c)
  {
    UpperAre(c);
    LowerAre(c);
    DigitsAre(c);
  }

  lemma HexDigitsAre(c: char)
    ensures c in HEX_DIGITS <==> 'a' <= c <= 'f' || '0' <= c <= '9'
  {
    if 'a' <= c <= 'f' {
      assert HEX_DIGITS[10 + c as int - 'a' as int] == c;
    } else if '0' <= c <= '9' {
      assert HEX_DIGITS[c as int - '0' as int] == c;
    }
  }

  lemma NamesAre(id: string)
    ensures Safe(id) <==> IsName(id)
  {
    forall c | c in id ensures IsLetter(c) <==> SafeChar(c) {
      LettersAre(c);
    }
  }

  lemma DigestsAre(s: string, n: nat)
    ensures Hex(s, n) <==> IsDigest(s, n)
  {
    forall c | c in s ensures c in HEX_DIGITS <==> 'a' <= c <= 'f' || '0' <= c <= '9' {
      HexDigitsAre(c);
    }
  }

  /** A plan is made exactly of named cases, each once, in one to three repeats, for an exact commit and prompt;
      otherwise the first of these that is violated is reported. */
  lemma PlanMadeIff(planId: string, cases: seq<string>, commit: string, promptHash: string, repeats: int)
    ensures var r := Rejection(planId, cases, commit, promptHash, repeats);
      var sized := cases != [] && 1 <= repeats <= 3 && forall i, k | 0 <= i < k < |cases| :: cases[i] != cases[k];
      var named := forall c <- cases :: IsName(c);
      && (r.None? <==> IsName(planId) && sized && named && IsDigest(commit, 40) && IsDigest(promptHash, 64))
      && (r == Some(UnsafePlanId) <==> !IsName(planId))
      && (r == Some(CasesOrRepeats) <==> IsName(planId) && !sized)
      && (r == Some(UnsafeCaseId) <==> IsName(planId) && sized && !named)
      && (r == Some(CommitRequired) <==> IsName(planId) && sized && named && !IsDigest(commit, 40))
      && (r == Some(PromptHashRequired) <==>
            IsName(planId) && sized && named && IsDigest(commit, 40) && !IsDigest(promptHash, 64))
  {
    NamesAre(planId);
    forall c | c in cases ensures Safe(c) <==> IsName(c) {
      NamesAre(c);
    }
    DigestsAre(commit, 40);
    DigestsAre(promptHash, 64);
  }

  /** The run ids of such a plan are made of the same characters: each is the name of one file or directory. */
  lemma RunIdsAreNames(planId: string, caseId: string, k: nat, replicate: nat)
    requires IsName(planId) && IsName(caseId) && k < 2 && replicate < 10
    ensures var id := RunId(planId, caseId, PAIRS[k].0, replicate);
      id != "" && (forall c <- id :: IsLetter(c)) && '/' !in id && '.' !in id && '\\' !in id
  {
    var provider, digit := PAIRS[k].0, [('0' as int + replicate) as char];
    forall c | c in provider || c in "_r" || c in digit ensures IsLetter(c) {
      LettersAre(c);
    }
    LettersAre('/');
    LettersAre('.');
    LettersAre('\\');
  }

  // ------------------------------------------------------------ what the plan promises

  lemma RunIdInjective(planId: string, c: string, k: nat, r: nat, c': string, k': nat, r': nat)
    requires k < 2 && k' < 2 && r < 10 && r' < 10
    requires RunId(planId, c, PAIRS[k].0, r) == RunId(planId, c', PAIRS[k'].0, r')
    ensures c == c' && k == k' && r == r'
  {
    var a, b := RunId(planId, c, PAIRS[k].0, r), RunId(planId, c', PAIRS[k'].0, r');
    assert a[|a| - 1] == ('0' as int + r) as char && b[|b| - 1] == ('0' as int + r') as char;
    assert a[|a| - 4] == (if k == 0 then 'e' else 'k') && b[|b| - 4] == (if k' == 0 then 'e' else 'k');
    assert k == k';
    assert a[|planId| + 1..][..|c|] == c && b[|planId| + 1..][..|c'|] == c';
    assert |c| == |c'|;
  }

  predicate IsRun(row: PlannedRun, caseId: string, k: nat, replicate: nat)
    requires k < 2
  {
    row.caseId == caseId && (row.provider, row.model) == PAIRS[k] && row.replicate == replicate
  }

  /** Run ids never repeat, and the order index counts the rows from 1. */
  lemma RunIdsDistinct(planId: string, cases: seq<string>, repeats: nat, rows: seq<PlannedRun>, j: nat, l: nat)
    requires cases != [] && Distinct(cases) && repeats <= 3
    requires |rows| == 2 * |cases| * repeats && Filled(rows, planId, cases)
    requires j < l < |rows|
    ensures rows[j].runId != rows[l].runId && rows[j].order == j + 1 && rows[l].order == l + 1
  {
    var i, r, p := PlaceOnto(|cases|, repeats, j);
    var i', r', p' := PlaceOnto(|cases|, repeats, l);
    if rows[j].runId == rows[l].runId {
      var k, k' := PairAt(i, r, p), PairAt(i', r', p');
      RunIdInjective(planId, cases[i], k, r, cases[i'], k', r');
    }
  }

  /** Every case meets every model once in every replicate. */
  lemma EachCombinationOnce(planId: string, cases: seq<string>, repeats: nat, rows: seq<PlannedRun>,
                            i: nat, k: nat, r: nat) returns (at: nat)
    requires cases != [] && Distinct(cases) && repeats <= 3
    requires |rows| == 2 * |cases| * repeats && Filled(rows, planId, cases)
    requires i < |cases| && k < 2 && 1 <= r <= repeats
    ensures at < |rows| && IsRun(rows[at], cases[i], k, r)
    ensures forall j | 0 <= j < |rows| :: IsRun(rows[j], cases[i], k, r) ==> j == at
  {
    var place := if Lead(i, r) == k then 0 else 1;
    at := Place(|cases|, i, r, place);
    PlaceBelow(|cases|, i, r, place, repeats);
    forall j | 0 <= j < |rows| && IsRun(rows[j], cases[i], k, r) ensures j == at {
      var i', r', p' := PlaceOnto(|cases|, repeats, j);
      assert i' == i;
      assert PairAt(i', r', p') == k;
    }
  }

  lemma PlaceBelow(n: nat, i: nat, r: nat, p: nat, repeats: nat)
    requires i < n && 1 <= r <= repeats && p < 2
    ensures Place(n, i, r, p) < 2 * n * repeats
  {
    LaterBlock(r - 1, repeats, 2 * n);
  }

  /** How often a pair goes first among the first `n` cases. */
  function LeadCount(n: nat, replicate: nat, k: nat): (c: nat)
    requires replicate >= 1
    ensures c <= n
  {
    if n == 0 then 0 else LeadCount(n - 1, replicate, k) + if Lead(n - 1, replicate) == k then 1 else 0
  }

  lemma LeadParity(i: nat, replicate: nat)
    requires replicate >= 1
    ensures Lead(i, replicate) == if i % 2 == 0 then Lead(0, replicate) else 1 - Lead(0, replicate)
  {
  }

  lemma {:induction false} LeadsAlternate(n: nat, replicate: nat)
    requires replicate >= 1
    ensures LeadCount(n, replicate, 0) + LeadCount(n, replicate, 1) == n
    ensures LeadCount(n, replicate, Lead(0, replicate)) - LeadCount(n, replicate, 1 - Lead(0, replicate)) == n % 2
  {
    if n > 0 {
      LeadsAlternate(n - 1, replicate);
      LeadParity(n - 1, replicate);
    }
  }

  lemma LeadFlips(i: nat, replicate: nat)
    requires replicate >= 1
    ensures Lead(i, replicate + 1) == 1 - Lead(i, replicate)
  {
  }

  lemma CaseRows(planId: string, cases: seq<string>, repeats: nat, rows: seq<PlannedRun>, i: nat, r: nat)
    requires i < |cases| && 1 <= r <= repeats <= 3
    requires |rows| == 2 * |cases| * repeats && Filled(rows, planId, cases)
    ensures var at := Place(|cases|, i, r, 0);
      && at + 1 < |rows| && rows[at] == RunOf(planId, cases, i, r, 0, at + 1)
      && rows[at + 1] == RunOf(planId, cases, i, r, 1, at + 2)
  {
    PlaceBelow(|cases|, i, r, 1, repeats);
    assert Place(|cases|, i, r, 1) == Place(|cases|, i, r, 0) + 1;
  }

  /**
   Each case runs on both models back to back and swaps their order in the next replicate; within a
   replicate neither model goes first more than once more than the other.
   */
  lemma Counterbalanced(planId: string, cases: seq<string>, repeats: nat, rows: seq<PlannedRun>, i: nat, r: nat)
    requires i < |cases| && 1 <= r <= repeats <= 3
    requires |rows| == 2 * |cases| * repeats && Filled(rows, planId, cases)
    ensures var at := Place(|cases|, i, r, 0);
      && at + 1 < |rows| && rows[at].caseId == rows[at + 1].caseId == cases[i]
      && rows[at].provider == PAIRS[Lead(i, r)].0 && rows[at + 1].provider == PAIRS[1 - Lead(i, r)].0
    ensures r < repeats ==>
      var at, next := Place(|cases|, i, r, 0), Place(|cases|, i, r + 1, 0);
      && next < |rows| && rows[next].caseId == rows[at].caseId && rows[next].provider != rows[at].provider
    ensures -1 <= LeadCount(|cases|, r, 0) - LeadCount(|cases|, r, 1) <= 1
  {
    CaseRows(planId, cases, repeats, rows, i, r);
    if r < repeats {
      CaseRows(planId, cases, repeats, rows, i, r + 1);
      LeadFlips(i, r);
    }
    LeadsAlternate(|cases|, r);
  }
}
