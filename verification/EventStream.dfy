/**
 The server-sent event stream of one job: a loop that polls a growing event log
 from a cursor, and a client that reconnects with the last id it received.
 */
module EventStream {
  import opened Wrappers
  import opened JobQueue
  import opened QueueInvariants
  import opened QueueTheorems
  import opened InMemoryStore
  import QueueWorker

  datatype Frame = Data(event: Event) | KeepAlive

  // One iteration as the loop sees it: the log when events are listed, and the
  // status read afterwards, when the log may already have grown further.
  datatype Poll = Poll(connected: bool, log: seq<Event>, status: Option<Status>, clock: int)

  const HEARTBEAT := 15_000  // milliseconds between keep-alive comments

  predicate Closes(p: Poll) { p.status.None? || Terminal(p.status.value) }

  function Cursor(pending: seq<Event>, cursor: nat): nat {
    if pending == [] then cursor else Last(pending).sequence
  }

  function DataFrames(events: seq<Event>): seq<Frame> {
    seq(|events|, i requires 0 <= i < |events| => Data(events[i]))
  }

  /** Everything one connection yields over its polls. */
  function StreamFrames(cursor: nat, beat: int, polls: seq<Poll>): seq<Frame>
    decreases |polls|
  {
    if polls == [] || !polls[0].connected then []
    else
      var p := polls[0];
      var pending := EventsAfter(p.log, cursor);
      if Closes(p) then DataFrames(pending)
      else
        var due := pending == [] && p.clock - beat >= HEARTBEAT;
        DataFrames(pending) + (if due then [KeepAlive] else [])
        + StreamFrames(Cursor(pending, cursor), if due then p.clock else beat, polls[1..])
  }

  /** The inner loop: one frame per pending event, moving the cursor to its sequence. */
  method Yield(pending: seq<Event>, from: nat) returns (frames: seq<Frame>, cursor: nat)
    ensures frames == DataFrames(pending) && cursor == Cursor(pending, from)
  {
    cursor, frames := from, [];
    for k := 0 to |pending|
      invariant frames == DataFrames(pending)[..k]
      invariant cursor == Cursor(pending[..k], from)
    {
      cursor := pending[k].sequence;
      frames := frames + [Data(pending[k])];
    }
    assert pending[..|pending|] == pending && DataFrames(pending)[..|pending|] == DataFrames(pending);
  }

  /** What one iteration adds to the frames sent so far, and what is left to send. */
  lemma {:induction false} OneIteration(frames: seq<Frame>, cursor: nat, beat: int, polls: seq<Poll>)
    requires polls != [] && polls[0].connected
    ensures var p := polls[0];
      var pending := EventsAfter(p.log, cursor);
      var due := pending == [] && p.clock - beat >= HEARTBEAT;
      var sent := frames + DataFrames(pending);
      frames + StreamFrames(cursor, beat, polls)
        == if Closes(p) then sent
           else if due then sent + [KeepAlive] + StreamFrames(Cursor(pending, cursor), p.clock, polls[1..])
           else sent + StreamFrames(Cursor(pending, cursor), beat, polls[1..])
  {
    var p := polls[0];
    var pending := EventsAfter(p.log, cursor);
    var due := pending == [] && p.clock - beat >= HEARTBEAT;
    var data, beats := DataFrames(pending), if due then [KeepAlive] else [];
    if !Closes(p) {
      var rest := StreamFrames(Cursor(pending, cursor), if due then p.clock else beat, polls[1..]);
      assert frames + (data + beats + rest) == frames + data + beats + rest;
      assert !due ==> data + beats == data;
    }
  }

  method Stream(initial: nat, polls: seq<Poll>) returns (frames: seq<Frame>)
    ensures frames == StreamFrames(initial, 0, polls)
  {
    var cursor, beat, i := initial, 0, 0;
    frames := [];
    while i < |polls| && polls[i].connected
      invariant i <= |polls|
      invariant frames + StreamFrames(cursor, beat, polls[i..]) == StreamFrames(initial, 0, polls)
      decreases |polls| - i
    {
      var p := polls[i];
      var pending := EventsAfter(p.log, cursor);
      OneIteration(frames, cursor, beat, polls[i..]);
      assert polls[i..][0] == p && polls[i..][1..] == polls[i + 1..];
      var data;
      data, cursor := Yield(pending, cursor);
      frames := frames + data;
      if p.status.None? || Terminal(p.status.value) {
        return;
      }
      if pending == [] && p.clock - beat >= HEARTBEAT {
        beat := p.clock;
        frames := frames + [KeepAlive];
      }
      i := i + 1;
    }
  }

  // ------------------------------------------------------- one connection

  function Delivered(frames: seq<Frame>): seq<Event> {
    if frames == [] then []
    else (if frames[0].Data? then [frames[0].event] else []) + Delivered(frames[1..])
  }

  /** The part of a log that starts after a cursor. */
  function From(log: seq<Event>, cursor: nat): seq<Event> {
    if cursor <= |log| then log[cursor..] else []
  }

  predicate Sequenced(log: seq<Event>) {
    forall i | 0 <= i < |log| :: log[i].sequence == i + 1
  }

  /** Between two polls the log only grows. */
  predicate Growing(polls: seq<Poll>) {
    && (forall i | 0 <= i < |polls| :: Sequenced(polls[i].log))
    && (forall i | 0 < i < |polls| :: polls[i - 1].log <= polls[i].log)
  }

  lemma {:induction false} AfterIsSuffix(log: seq<Event>, cursor: nat)
    requires Sequenced(log)
    ensures EventsAfter(log, cursor) == From(log, cursor)
  {
    if log != [] {
      var init := log[..|log| - 1];
      AfterIsSuffix(init, cursor);
      assert Last(log).sequence == |log|;
      if cursor < |log| {
        assert From(log, cursor) == From(init, cursor) + [Last(log)];
      } else {
        assert From(log, cursor) == [] == From(init, cursor);
      }
    }
  }

  lemma {:induction false} DeliveredConcat(a: seq<Frame>, b: seq<Frame>)
    ensures Delivered(a + b) == Delivered(a) + Delivered(b)
  {
    if a == [] {
      assert a + b == b;
    } else {
      var head := if a[0].Data? then [a[0].event] else [];
      DeliveredConcat(a[1..], b);
      assert Delivered(a + b) == head + Delivered(a[1..] + b) by {
        assert (a + b)[1..] == a[1..] + b;
      }
      assert head + (Delivered(a[1..]) + Delivered(b)) == (head + Delivered(a[1..])) + Delivered(b);
    }
  }

  lemma {:induction false} DeliveredData(events: seq<Event>)
    ensures Delivered(DataFrames(events)) == events
  {
    if events != [] {
      assert DataFrames(events)[1..] == DataFrames(events[1..]);
      DeliveredData(events[1..]);
    }
  }

  /** Iterations a connection runs before it closes or the client goes away. */
  function Iterations(polls: seq<Poll>): (n: nat)
    ensures n <= |polls|
  {
    if polls == [] || !polls[0].connected then 0
    else if Closes(polls[0]) then 1
    else 1 + Iterations(polls[1..])
  }

  function SeenLog(polls: seq<Poll>): seq<Event> {
    if Iterations(polls) == 0 then [] else polls[Iterations(polls) - 1].log
  }

  /** The server, not the client, ended the connection. */
  predicate ServerCloses(polls: seq<Poll>) { Iterations(polls) > 0 && Closes(polls[Iterations(polls) - 1]) }

  lemma {:induction false} LogsGrow(polls: seq<Poll>, i: nat, k: nat)
    requires Growing(polls) && i <= k < |polls|
    ensures polls[i].log <= polls[k].log
  {
    if i < k {
      LogsGrow(polls, i, k - 1);
    }
  }

  /** What was got after a cursor, and what is left after the last sequence got. */
  lemma FromSplits(got: seq<Event>, log: seq<Event>, cursor: nat)
    requires Sequenced(log) && got <= From(log, cursor)
    ensures From(log, cursor) == got + From(log, Cursor(got, cursor))
  {
    if got != [] {
      assert Last(got) == From(log, cursor)[|got| - 1] == log[cursor + |got| - 1];
      assert Cursor(got, cursor) == cursor + |got|;
      assert From(log, cursor) == got + From(log, cursor)[|got|..];
    }
  }

  lemma FromMonotone(log: seq<Event>, longer: seq<Event>, cursor: nat)
    requires log <= longer
    ensures From(log, cursor) <= From(longer, cursor)
  {
  }

  lemma PollDelivers(p: Poll, cursor: nat, due: bool, rest: seq<Frame>)
    requires Sequenced(p.log)
    ensures Delivered(DataFrames(EventsAfter(p.log, cursor)) + (if due then [KeepAlive] else []) + rest)
         == From(p.log, cursor) + Delivered(rest)
  {
    var data, beats := DataFrames(EventsAfter(p.log, cursor)), if due then [KeepAlive] else [];
    AfterIsSuffix(p.log, cursor);
    DeliveredData(EventsAfter(p.log, cursor));
    DeliveredConcat(data + beats, rest);
    DeliveredConcat(data, beats);
  }

  /** One poll that leaves the connection open, and what the later ones deliver. */
  lemma OpenPollDelivers(cursor: nat, beat: int, polls: seq<Poll>)
    requires Growing(polls) && polls != [] && polls[0].connected && !Closes(polls[0])
    requires var pending := EventsAfter(polls[0].log, cursor);
      var due := pending == [] && polls[0].clock - beat >= HEARTBEAT;
      var next, later := Cursor(pending, cursor), if due then polls[0].clock else beat;
      Delivered(StreamFrames(next, later, polls[1..])) == From(SeenLog(polls[1..]), next)
    ensures Delivered(StreamFrames(cursor, beat, polls)) == From(SeenLog(polls), cursor)
  {
    var p := polls[0];
    var pending := EventsAfter(p.log, cursor);
    var due := pending == [] && p.clock - beat >= HEARTBEAT;
    var next, later := Cursor(pending, cursor), if due then p.clock else beat;
    AfterIsSuffix(p.log, cursor);
    PollDelivers(p, cursor, due, StreamFrames(next, later, polls[1..]));
    var n := Iterations(polls[1..]);
    if n > 0 {
      LogsGrow(polls, 0, n);
      assert SeenLog(polls) == polls[n].log == SeenLog(polls[1..]);
      FromMonotone(p.log, polls[n].log, cursor);
      FromSplits(pending, polls[n].log, cursor);
    }
  }

  /** A connection delivers the log after its cursor: each event once, in order, none skipped. */
  lemma {:induction false} StreamDeliversSlice(cursor: nat, beat: int, polls: seq<Poll>)
    requires Growing(polls)
    ensures Delivered(StreamFrames(cursor, beat, polls)) == From(SeenLog(polls), cursor)
    decreases |polls|
  {
    if polls != [] && polls[0].connected {
      var p := polls[0];
      var pending := EventsAfter(p.log, cursor);
      if Closes(p) {
        AfterIsSuffix(p.log, cursor);
        DeliveredData(pending);
      } else {
        var due := pending == [] && p.clock - beat >= HEARTBEAT;
        StreamDeliversSlice(Cursor(pending, cursor), if due then p.clock else beat, polls[1..]);
        OpenPollDelivers(cursor, beat, polls);
      }
    }
  }

  // ---------------------------------------------------------------- keep-alives

  /** Polls of an open connection that have nothing to send after the cursor. */
  predicate Quiet(polls: seq<Poll>, cursor: nat) {
    forall p <- polls :: p.connected && !Closes(p) && EventsAfter(p.log, cursor) == []
  }

  /** The clock never runs back, and the next poll comes at most `step` later. */
  predicate Ticking(polls: seq<Poll>, from: int, step: nat)
    decreases |polls|
  {
    polls != [] ==> from <= polls[0].clock <= from + step && Ticking(polls[1..], polls[0].clock, step)
  }

  lemma {:induction false} QuietPolls(cursor: nat, beat: int, from: int, polls: seq<Poll>, step: nat)
    requires Quiet(polls, cursor) && Ticking(polls, from, step) && beat <= from < beat + HEARTBEAT
    ensures var frames := StreamFrames(cursor, beat, polls);
      var d := (if polls == [] then from else polls[|polls| - 1].clock) - beat;
      && (forall f <- frames :: f.KeepAlive?)
      && |frames| * HEARTBEAT <= d < (|frames| + 1) * (HEARTBEAT + step)
    decreases |polls|
  {
    if polls != [] {
      var p, rest := polls[0], polls[1..];
      assert p in polls && forall q <- rest :: q in polls;
      var due := p.clock - beat >= HEARTBEAT;
      var later := if due then p.clock else beat;
      QuietPolls(cursor, later, p.clock, rest, step);
      assert DataFrames([]) == [];
      var after := StreamFrames(cursor, later, rest);
      assert StreamFrames(cursor, beat, polls) == (if due then [KeepAlive] else []) + after;
      assert rest != [] ==> rest[|rest| - 1] == polls[|polls| - 1];
      if due {
        OneMoreBeat(|after|, step);
      }
    }
  }

  lemma OneMoreBeat(n: nat, step: nat)
    ensures (n + 1) * HEARTBEAT == n * HEARTBEAT + HEARTBEAT
    ensures (n + 2) * (HEARTBEAT + step) == (n + 1) * (HEARTBEAT + step) + (HEARTBEAT + step)
  {
  }

  /** A quiet connection is sent keep-alives only, never closer together than the interval and never further
      apart than the interval and one poll. The first comes at once unless the clock has only just started. */
  lemma QuietConnectionBeats(cursor: nat, polls: seq<Poll>, step: nat)
    requires polls != [] && Quiet(polls, cursor) && 0 <= polls[0].clock && Ticking(polls[1..], polls[0].clock, step)
    ensures var frames, first, last := StreamFrames(cursor, 0, polls), polls[0].clock, polls[|polls| - 1].clock;
      && (forall f <- frames :: f.KeepAlive?)
      && if first >= HEARTBEAT
         then frames != [] && (|frames| - 1) * HEARTBEAT <= last - first < |frames| * (HEARTBEAT + step)
         else |frames| * HEARTBEAT <= last < (|frames| + 1) * (HEARTBEAT + step)
  {
    var first, rest := polls[0].clock, polls[1..];
    if first >= HEARTBEAT {
      assert polls[0] in polls && forall q <- rest :: q in polls;
      QuietPolls(cursor, first, first, rest, step);
      assert DataFrames([]) == [];
      assert StreamFrames(cursor, 0, polls) == [KeepAlive] + StreamFrames(cursor, first, rest);
      assert rest != [] ==> rest[|rest| - 1] == polls[|polls| - 1];
    } else {
      QuietPolls(cursor, 0, first, polls, step);
    }
  }

  // ----------------------------------------------------------- reconnects

  // A connection may break anywhere: the client has then received a prefix of what was sent.
  datatype Session = Session(polls: seq<Poll>, received: nat)

  function Received(cursor: nat, session: Session): seq<Event> {
    var sent := Delivered(StreamFrames(cursor, 0, session.polls));
    if session.received <= |sent| then sent[..session.received] else sent
  }

  /** Each new connection resumes at the last id received, or where it had started. */
  function Client(cursor: nat, sessions: seq<Session>): seq<Event>
    decreases |sessions|
  {
    if sessions == [] then []
    else
      var got := Received(cursor, sessions[0]);
      got + Client(Cursor(got, cursor), sessions[1..])
  }

  /** Every poll of every connection saw a prefix of `log`. */
  predicate Within(sessions: seq<Session>, log: seq<Event>) {
    forall x <- sessions :: Growing(x.polls) && forall p <- x.polls :: p.log <= log
  }

  /** However often it reconnects, a client receives one contiguous slice of the log, starting
      right after its first cursor: no gap, no duplicate, no reordering. */
  lemma {:induction false} ReconnectsAreSeamless(cursor: nat, sessions: seq<Session>, log: seq<Event>)
    requires Sequenced(log) && Within(sessions, log)
    ensures Client(cursor, sessions) <= From(log, cursor)
    decreases |sessions|
  {
    if sessions != [] {
      var x := sessions[0];
      assert x in sessions && forall y <- sessions[1..] :: y in sessions;
      var got := Received(cursor, x);
      ReceivedIsPrefix(cursor, x, log);
      ReconnectsAreSeamless(Cursor(got, cursor), sessions[1..], log);
      FromSplits(got, log, cursor);
    }
  }

  lemma ReceivedIsPrefix(cursor: nat, x: Session, log: seq<Event>)
    requires Sequenced(log) && Growing(x.polls) && forall p <- x.polls :: p.log <= log
    ensures Received(cursor, x) <= From(log, cursor)
  {
    StreamDeliversSlice(cursor, 0, x.polls);
    SeenWithin(x.polls, log);
    FromMonotone(SeenLog(x.polls), log, cursor);
  }

  lemma SeenWithin(polls: seq<Poll>, log: seq<Event>)
    requires forall p <- polls :: p.log <= log
    ensures SeenLog(polls) <= log
  {
    if Iterations(polls) > 0 {
      assert polls[Iterations(polls) - 1] in polls;
    }
  }

  // -------------------------------------------------- against the live queue

  // What the queue does before the events are listed and between the two reads.
  datatype Gap = Gap(before: seq<Action>, between: seq<Action>, connected: bool, clock: int)

  /** The polls a connection makes while the queue runs on. */
  function Observe(s: Store, gaps: seq<Gap>, id: string): (polls: seq<Poll>)
    requires id in s.jobs
    ensures |polls| == |gaps|
    decreases |gaps|
  {
    if gaps == [] then []
    else
      RunOnJob(s, gaps[0].before, id);
      var listed := Run(s, gaps[0].before);
      RunOnJob(listed, gaps[0].between, id);
      var read := Run(listed, gaps[0].between);
      [Poll(gaps[0].connected, listed.jobs[id].events, Some(read.jobs[id].Status()), gaps[0].clock)]
      + Observe(read, gaps[1..], id)
  }

  lemma LogGrows(s: Store, actions: seq<Action>, id: string)
    requires StoreInv(s) && AllLegal(actions) && id in s.jobs
    ensures StoreInv(Run(s, actions)) && id in Run(s, actions).jobs
    ensures s.jobs[id].events <= Run(s, actions).jobs[id].events
    ensures Sequenced(Run(s, actions).jobs[id].events)
  {
    RunPreserves(s, actions);
    assert JobInv(Run(s, actions).jobs[id]);
  }

  lemma {:induction false} ObservedLogsGrow(s: Store, gaps: seq<Gap>, id: string)
    requires StoreInv(s) && id in s.jobs && LegalGaps(gaps)
    ensures Growing(Observe(s, gaps, id))
    ensures gaps != [] ==> s.jobs[id].events <= Observe(s, gaps, id)[0].log
    decreases |gaps|
  {
    if gaps != [] {
      var g := gaps[0];
      assert g in gaps && forall h <- gaps[1..] :: h in gaps;
      LogGrows(s, g.before, id);
      var listed := Run(s, g.before);
      LogGrows(listed, g.between, id);
      var read := Run(listed, g.between);
      ObservedLogsGrow(read, gaps[1..], id);
      GrowingCons(Poll(g.connected, listed.jobs[id].events, Some(read.jobs[id].Status()), g.clock),
                  Observe(read, gaps[1..], id));
    }
  }

  lemma GrowingCons(p: Poll, rest: seq<Poll>)
    requires Sequenced(p.log) && Growing(rest) && (rest != [] ==> p.log <= rest[0].log)
    ensures Growing([p] + rest)
  {
    var all := [p] + rest;
    forall i | 0 < i < |all|
      ensures all[i - 1].log <= all[i].log
    {
      assert all[i] == rest[i - 1];
      assert i > 1 ==> all[i - 1] == rest[i - 2];
    }
  }

  /** Streaming a job of the running queue delivers exactly its log up to the last listing. */
  lemma {:induction false} StreamFollowsQueue(s: Store, gaps: seq<Gap>, id: string, cursor: nat)
    requires StoreInv(s) && id in s.jobs && LegalGaps(gaps)
    ensures var polls := Observe(s, gaps, id);
            Delivered(StreamFrames(cursor, 0, polls)) == From(SeenLog(polls), cursor)
  {
    ObservedLogsGrow(s, gaps, id);
    StreamDeliversSlice(cursor, 0, Observe(s, gaps, id));
  }

  predicate LegalGaps(gaps: seq<Gap>) { forall g <- gaps :: AllLegal(g.before) && AllLegal(g.between) }

  /** What others do between the reads are calls the store offers. */
  predicate CallableGaps(gaps: seq<Gap>) {
    forall g <- gaps :: forall a <- g.before + g.between :: QueueWorker.Callable(a)
  }

  /** One iteration's two reads, with the queue moving in between. */
  method Read(store: InMemoryRCAJobStore, id: string, cursor: nat, g: Gap)
    returns (pending: seq<Event>, record: Option<QueueRecord>)
    requires store.Valid() && id in store.State().jobs && AllLegal(g.before) && AllLegal(g.between)
    requires forall a <- g.before + g.between :: QueueWorker.Callable(a)
    modifies store
    ensures store.Valid() && store.State() == Run(Run(old(store.State()), g.before), g.between)
    ensures id in Run(old(store.State()), g.before).jobs && id in store.State().jobs
    ensures pending == EventsAfter(Run(old(store.State()), g.before).jobs[id].events, cursor)
    ensures record == Some(store.State().jobs[id].record)
  {
    RunOnJob(store.State(), g.before, id);
    assert forall a <- g.before :: a in g.before + g.between;
    assert forall a <- g.between :: a in g.before + g.between;
    QueueWorker.PerformAll(store, g.before);
    JobAt(store.records, store.attempts, store.events, id);
    pending := store.ListEvents(id, cursor);
    RunOnJob(store.State(), g.between, id);
    QueueWorker.PerformAll(store, g.between);
    record := store.GetRecord(id);
  }

  lemma ObserveOne(s: Store, gaps: seq<Gap>, id: string, i: nat)
    requires id in s.jobs && i < |gaps|
    ensures var listed := Run(s, gaps[i].before);
      var read := Run(listed, gaps[i].between);
      && id in listed.jobs && id in read.jobs
      && Observe(s, gaps[i..], id)[0]
         == Poll(gaps[i].connected, listed.jobs[id].events, Some(read.jobs[id].Status()), gaps[i].clock)
      && Observe(s, gaps[i..], id)[1..] == Observe(read, gaps[i + 1..], id)
  {
    RunOnJob(s, gaps[i].before, id);
    RunOnJob(Run(s, gaps[i].before), gaps[i].between, id);
    assert gaps[i..][0] == gaps[i] && gaps[i..][1..] == gaps[i + 1..];
  }

  /** What one iteration adds when it reads the store. */
  lemma StoreIteration(frames: seq<Frame>, cursor: nat, beat: int, s: Store, gaps: seq<Gap>,
                                          i: nat, id: string)
    requires id in s.jobs && i < |gaps| && gaps[i].connected
    ensures var listed := Run(s, gaps[i].before);
      var read := Run(listed, gaps[i].between);
      && id in listed.jobs && id in read.jobs
      && var pending, clock := EventsAfter(listed.jobs[id].events, cursor), gaps[i].clock;
      var due := pending == [] && clock - beat >= HEARTBEAT;
      var closes := Terminal(read.jobs[id].Status());
      var data := DataFrames(pending) + (if due && !closes then [KeepAlive] else []);
      frames + StreamFrames(cursor, beat, Observe(s, gaps[i..], id))
        == if closes then frames + data
           else frames + data + StreamFrames(Cursor(pending, cursor), if due then clock else beat,
                                             Observe(read, gaps[i + 1..], id))
  {
    ObserveOne(s, gaps, id, i);
    OneIteration(frames, cursor, beat, Observe(s, gaps[i..], id));
  }

  /** One iteration against the store: read twice, send the new events or, when it is due, a keep-alive. */
  method Iterate(store: InMemoryRCAJobStore, id: string, cursor: nat, beat: int, g: Gap)
    returns (data: seq<Frame>, next: nat, later: int, closes: bool)
    requires store.Valid() && id in store.State().jobs && AllLegal(g.before) && AllLegal(g.between)
    requires forall a <- g.before + g.between :: QueueWorker.Callable(a)
    modifies store
    ensures store.Valid() && store.State() == Run(Run(old(store.State()), g.before), g.between)
    ensures id in Run(old(store.State()), g.before).jobs && id in store.State().jobs
    ensures closes <==> Terminal(store.State().jobs[id].Status())
    ensures var pending := EventsAfter(Run(old(store.State()), g.before).jobs[id].events, cursor);
      var due := !closes && pending == [] && g.clock - beat >= HEARTBEAT;
      && next == Cursor(pending, cursor)
      && data == DataFrames(pending) + (if due then [KeepAlive] else [])
      && later == if due then g.clock else beat
  {
    var pending, record := Read(store, id, cursor, g);
    later := beat;
    data, next := Yield(pending, cursor);
    closes := record.None? || Terminal(record.value.state.status);
    if !closes && pending == [] && g.clock - beat >= HEARTBEAT {
      later := g.clock;
      data := data + [KeepAlive];
    }
  }

  /** The same loop against the store itself, while other processes use it. */
  method StreamFromStore(store: InMemoryRCAJobStore, id: string, initial: nat, gaps: seq<Gap>)
    returns (frames: seq<Frame>)
    requires store.Valid() && id in store.State().jobs && LegalGaps(gaps) && CallableGaps(gaps)
    modifies store
    ensures store.Valid()
    ensures frames == StreamFrames(initial, 0, Observe(old(store.State()), gaps, id))
  {
    var cursor, beat, i := initial, 0, 0;
    frames := [];
    assert gaps[0..] == gaps;
    while i < |gaps| && gaps[i].connected
      invariant i <= |gaps| && store.Valid() && id in store.State().jobs
      invariant frames + StreamFrames(cursor, beat, Observe(store.State(), gaps[i..], id))
             == StreamFrames(initial, 0, Observe(old(store.State()), gaps, id))
      decreases |gaps| - i
    {
      StoreIteration(frames, cursor, beat, store.State(), gaps, i, id);
      assert gaps[i] in gaps;
      var data, closes;
      data, cursor, beat, closes := Iterate(store, id, cursor, beat, gaps[i]);
      frames := frames + data;
      if closes {
        return;
      }
      i := i + 1;
    }
  }

  // --------------------------------------------------- closing a connection

  /** The store after the first `k` iterations, as listed by iteration `k`, and as its status is read. */
  function Until(s: Store, gaps: seq<Gap>, k: nat): Store
    requires k <= |gaps|
    decreases k
  {
    if k == 0 then s else Until(Run(Run(s, gaps[0].before), gaps[0].between), gaps[1..], k - 1)
  }

  function ListedAt(s: Store, gaps: seq<Gap>, k: nat): Store
    requires k < |gaps|
  {
    Run(Until(s, gaps, k), gaps[k].before)
  }

  function ReadAt(s: Store, gaps: seq<Gap>, k: nat): Store
    requires k < |gaps|
  {
    Run(ListedAt(s, gaps, k), gaps[k].between)
  }

  lemma GapKeepsInv(s: Store, g: Gap, id: string)
    requires StoreInv(s) && id in s.jobs && AllLegal(g.before) && AllLegal(g.between)
    ensures var listed := Run(s, g.before);
      && StoreInv(listed) && id in listed.jobs
      && StoreInv(Run(listed, g.between)) && id in Run(listed, g.between).jobs
      && listed.jobs[id].events <= Run(listed, g.between).jobs[id].events
  {
    LogGrows(s, g.before, id);
    LogGrows(Run(s, g.before), g.between, id);
  }

  /** The iterations of a connection are some run of the queue. */
  lemma {:induction false} UntilIsRun(s: Store, gaps: seq<Gap>, k: nat) returns (actions: seq<Action>)
    requires LegalGaps(gaps) && k <= |gaps|
    ensures AllLegal(actions) && Until(s, gaps, k) == Run(s, actions)
    decreases k
  {
    actions := [];
    if k > 0 {
      var g := gaps[0];
      assert g in gaps && forall h <- gaps[1..] :: h in gaps;
      var rest := UntilIsRun(Run(Run(s, g.before), g.between), gaps[1..], k - 1);
      RunJoin(s, g.before, g.between);
      RunJoin(s, g.before + g.between, rest);
      actions := g.before + g.between + rest;
    }
  }

  lemma RunJoin(s: Store, first: seq<Action>, rest: seq<Action>)
    requires AllLegal(first) && AllLegal(rest)
    ensures AllLegal(first + rest) && Run(s, first + rest) == Run(Run(s, first), rest)
  {
    RunSplit(s, first, rest);
  }

  /** Between any two reads the queue is in a reachable state and the log only grows. */
  lemma GapsKeepInv(s: Store, gaps: seq<Gap>, id: string, k: nat)
    requires StoreInv(s) && id in s.jobs && LegalGaps(gaps) && k < |gaps|
    ensures StoreInv(ListedAt(s, gaps, k)) && StoreInv(ReadAt(s, gaps, k))
    ensures id in ListedAt(s, gaps, k).jobs && id in ReadAt(s, gaps, k).jobs
    ensures ListedAt(s, gaps, k).jobs[id].events <= ReadAt(s, gaps, k).jobs[id].events
  {
    var actions := UntilIsRun(s, gaps, k);
    RunPreserves(s, actions);
    assert gaps[k] in gaps;
    GapKeepsInv(Until(s, gaps, k), gaps[k], id);
  }

  /** What one iteration sees of the running queue. */
  lemma {:induction false} ObservedAt(s: Store, gaps: seq<Gap>, id: string, k: nat)
    requires id in s.jobs && k < |gaps|
    ensures id in ListedAt(s, gaps, k).jobs && id in ReadAt(s, gaps, k).jobs
    ensures Observe(s, gaps, id)[k] == Poll(gaps[k].connected, ListedAt(s, gaps, k).jobs[id].events,
                                            Some(ReadAt(s, gaps, k).jobs[id].Status()), gaps[k].clock)
    decreases k
  {
    RunOnJob(s, gaps[0].before, id);
    RunOnJob(Run(s, gaps[0].before), gaps[0].between, id);
    if k > 0 {
      ObservedAt(Run(Run(s, gaps[0].before), gaps[0].between), gaps[1..], id, k - 1);
    }
  }

  /** An unchanged log means an unchanged status. */
  lemma SameLogSameStatus(j: Job, k: Job)
    requires JobInv(j) && JobInv(k) && j.events <= k.events
    ensures |j.events| == |k.events| ==> j.Status() == k.Status()
  {
    if |j.events| == |k.events| {
      assert j.events == k.events;
    }
  }

  lemma FromSameIff(log: seq<Event>, longer: seq<Event>, cursor: nat)
    requires log <= longer
    ensures From(log, cursor) == From(longer, cursor) <==> |log| == |longer| || cursor >= |longer|
  {
    if cursor < |longer| && |log| < |longer| {
      assert |From(log, cursor)| < |From(longer, cursor)|;
    }
  }

  lemma ClosedAt(j: Job, k: Job, cursor: nat)
    requires JobInv(j) && JobInv(k) && j.events <= k.events && Terminal(k.Status())
    requires Terminal(j.Status()) ==> k == j
    ensures From(j.events, cursor) == From(k.events, cursor) <==> Terminal(j.Status()) || cursor >= |k.events|
  {
    FromSameIff(j.events, k.events, cursor);
    SameLogSameStatus(j, k);
  }

  /**
   A connection that the server closes on a terminal status has delivered the rest of the final log
   exactly when the job was already terminal as its last events were listed, or the cursor was at the
   end anyway. If the job finishes between the two reads its terminal event is never sent.
   */
  lemma ClosingDeliversAllIff(s: Store, gaps: seq<Gap>, id: string, cursor: nat)
    requires StoreInv(s) && id in s.jobs && LegalGaps(gaps)
    requires ServerCloses(Observe(s, gaps, id))
    ensures var polls := Observe(s, gaps, id);
      var last := Iterations(polls) - 1;
      && last < |gaps| && id in ListedAt(s, gaps, last).jobs && id in ReadAt(s, gaps, last).jobs
      && var j, k := ListedAt(s, gaps, last).jobs[id], ReadAt(s, gaps, last).jobs[id];
      && Terminal(k.Status())
      && (Delivered(StreamFrames(cursor, 0, polls)) == From(k.events, cursor)
          <==> Terminal(j.Status()) || cursor >= |k.events|)
  {
    var polls := Observe(s, gaps, id);
    var last := Iterations(polls) - 1;
    ClosedIteration(s, gaps, id, last);
    StreamFollowsQueue(s, gaps, id, cursor);
    ClosedAt(ListedAt(s, gaps, last).jobs[id], ReadAt(s, gaps, last).jobs[id], cursor);
  }

  /** The job as the closing iteration lists its events and then reads its status. */
  lemma ClosedIteration(s: Store, gaps: seq<Gap>, id: string, k: nat)
    requires StoreInv(s) && id in s.jobs && LegalGaps(gaps) && k < |gaps| && Closes(Observe(s, gaps, id)[k])
    ensures id in ListedAt(s, gaps, k).jobs && id in ReadAt(s, gaps, k).jobs
    ensures var i, j := ListedAt(s, gaps, k).jobs[id], ReadAt(s, gaps, k).jobs[id];
      && JobInv(i) && JobInv(j) && i.events <= j.events && Terminal(j.Status())
      && (Terminal(i.Status()) ==> j == i)
      && Observe(s, gaps, id)[k].log == i.events
  {
    GapsKeepInv(s, gaps, id, k);
    ObservedAt(s, gaps, id, k);
    if Terminal(ListedAt(s, gaps, k).jobs[id].Status()) {
      assert gaps[k] in gaps;
      TerminalForever(ListedAt(s, gaps, k), gaps[k].between, id);
    }
  }

  /** One iteration during which the worker commits its result after the events were listed. */
  function CommitBetween(id: string, state: RCAState): seq<Gap> {
    [Gap([], [On(id, Complete("W", state, None, 1))], true, 0)]
  }

  /** What that iteration sees: the events before the commit, the status after it. */
  lemma CommitSeen(s: Store, id: string, state: RCAState)
    requires id in s.jobs
    ensures var gaps, k := CommitBetween(id, state), Do(s.jobs[id], Complete("W", state, None, 1));
      && id in ReadAt(s, gaps, 0).jobs && ReadAt(s, gaps, 0).jobs[id] == k
      && Observe(s, gaps, id) == [Poll(true, s.jobs[id].events, Some(k.Status()), 0)]
  {
    var gaps, op := CommitBetween(id, state), Complete("W", state, None, 1);
    assert [On(id, op)][1..] == [] && Run(s, []) == s;
    assert Run(s, [On(id, op)]) == OnJob(s, id, op);
    ObservedAt(s, gaps, id, 0);
  }

  lemma OnePoll(p: Poll)
    requires p.connected && Closes(p) && Sequenced(p.log)
    ensures Iterations([p]) == 1 && ServerCloses([p]) && Delivered(StreamFrames(0, 0, [p])) == p.log
  {
    StreamDeliversSlice(0, 0, [p]);
  }

  lemma CommittedJob(j: Job, state: RCAState)
    requires JobInv(j) && |j.events| == 2 && j.Status() == Running && OwnsActiveLease(j.record, "W", 1)
    ensures var k := Do(j, Complete("W", state, None, 1));
      && Sequenced(j.events) && Terminal(k.Status())
      && |k.events| == 3 && Last(k.events).eventType.JobCompleted? && j.events == k.events[..2]
  {
  }

  /** A reachable run in which the stream closes without the terminal event it is waiting for. */
  lemma TerminalEventMissed(r: QueueRecord, state: RCAState)
    requires Fresh(r) && state.jobId == r.state.jobId
    ensures var s, id := OneRunning(r), r.state.jobId;
      var gaps := CommitBetween(id, state);
      && StoreInv(s) && id in s.jobs && LegalGaps(gaps)
      && var polls := Observe(s, gaps, id);
      && Iterations(polls) == 1 && ServerCloses(polls) && id in ReadAt(s, gaps, 0).jobs
      && var k := ReadAt(s, gaps, 0).jobs[id];
      && Delivered(StreamFrames(0, 0, polls)) == s.jobs[id].events
      && |k.events| == 3 && Last(k.events).eventType.JobCompleted? && s.jobs[id].events == k.events[..2]
  {
    var s, id := OneRunning(r), r.state.jobId;
    OneRunningIs(r);
    CommitSeen(s, id, state);
    CommittedJob(s.jobs[id], state);
    OnePoll(Observe(s, CommitBetween(id, state), id)[0]);
  }
}
