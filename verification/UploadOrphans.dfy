/** When removed upload rows leave no stored object behind. Cleanup keeps a terminal row
    until the upload target and the receive window have both passed, so no admitted
    receive can publish after its object was deleted. An explicit shorter age gives up
    exactly this. */
module UploadOrphans {
  import opened Text
  import opened Artifacts
  import opened Inspection
  import opened UploadProtocol
  import opened UploadSafety
  import opened UploadRuns

  // ---------------------------------------------------------------- timely runs

  /** A receive publishes within the receive window that started when it was admitted. */
  ghost predicate Timely(cfg: Config, s: State, e: Event) {
    e.Publish? && e.call in s.calls && s.calls[e.call].Receiving? ==> s.now <= s.calls[e.call].admittedAt + cfg.receiveTimeout
  }

  /** Every receive is timely and every cleanup asks for the age `policy`. */
  ghost predicate TimelyRun(cfg: Config, s: State, events: seq<Event>, policy: Option<int>)
    decreases |events|
  {
    events == [] ||
    var front, last := events[..|events| - 1], events[|events| - 1];
    && TimelyRun(cfg, s, front, policy)
    && Timely(cfg, Run(cfg, s, front), last)
    && (last.StartCleanup? ==> last.olderThan == policy)
  }

  function Window(cfg: Config): int { cfg.targetTtl + cfg.receiveTimeout }

  /** The default age, or one that is at least the whole window. */
  predicate Generous(cfg: Config, policy: Option<int>) {
    policy.Some? ==> policy.value >= Window(cfg)
  }

  ghost predicate NoOrphans(s: State) { s.objects.Keys <= s.rows.Keys }

  // ---------------------------------------------------------------- the timed invariant

  ghost predicate CreatedAt(s: State, u: nat, created: int) {
    && Known(s, u)
    && (u in s.rows ==> s.rows[u].createdAt == created)
    && (u in s.retired ==> s.retired[u] == created)
  }

  ghost predicate QueueTimed(s: State, queue: seq<Candidate>) {
    forall i :: 0 <= i < |queue| ==> CreatedAt(s, queue[i].upload, queue[i].createdAt)
  }

  ghost predicate CallTimed(cfg: Config, s: State, c: Process) {
    match c
    case ReceiveLoaded(u, row) => CreatedAt(s, u, row.createdAt)
    case Receiving(u, row, admittedAt) => CreatedAt(s, u, row.createdAt) && admittedAt <= row.createdAt + cfg.targetTtl
    case CleanupTimed(_, before) => before <= s.now - Window(cfg)
    case CleanupReady(before, queue, _) => before <= s.now - Window(cfg) && QueueTimed(s, queue)
    case CleanupDeleting(before, u, created, queue, _) =>
      before <= s.now - Window(cfg) && QueueTimed(s, queue) && CreatedAt(s, u, created) && created + Window(cfg) < s.now
    case CleanupRemoving(before, u, created, queue, _) =>
      before <= s.now - Window(cfg) && QueueTimed(s, queue) && CreatedAt(s, u, created) && created + Window(cfg) < s.now && u !in s.objects
    case _ => true
  }

  ghost predicate TimedStore(cfg: Config, s: State) {
    && NoOrphans(s)
    && s.rows.Keys !! s.retired.Keys
    && forall u :: u in s.retired ==> s.retired[u] + Window(cfg) < s.now
  }

  ghost predicate Timed(cfg: Config, s: State) {
    && TimedStore(cfg, s)
    && forall p {:trigger CallTimed(cfg, s, s.calls[p])} :: p in s.calls ==> CallTimed(cfg, s, s.calls[p])
  }

  /** Nothing new is stored, no row goes away and no upload is retired. */
  ghost predicate Calm(s: State, t: State) {
    && s.now <= t.now
    && (forall u :: u in s.rows ==> u in t.rows && t.rows[u].createdAt == s.rows[u].createdAt)
    && t.retired == s.retired && t.rows.Keys !! t.retired.Keys
    && t.objects.Keys <= s.objects.Keys
  }

  lemma {:induction false} CallTimedLasts(cfg: Config, s: State, t: State, c: Process)
    requires Calm(s, t) && CallTimed(cfg, s, c)
    ensures CallTimed(cfg, t, c)
  {
    if c.CleanupReady? || c.CleanupDeleting? || c.CleanupRemoving? {
      forall i | 0 <= i < |c.queue| ensures CreatedAt(t, c.queue[i].upload, c.queue[i].createdAt) {
        assert CreatedAt(s, c.queue[i].upload, c.queue[i].createdAt);
      }
    }
  }

  lemma {:induction false} CalmStep(cfg: Config, s: State, t: State, p: nat)
    requires Timed(cfg, s) && Calm(s, t) && OthersWait(s, t, p)
    requires p in t.calls ==> CallTimed(cfg, t, t.calls[p])
    ensures Timed(cfg, t)
  {
    forall q | q in t.calls ensures CallTimed(cfg, t, t.calls[q]) {
      if q != p {
        assert CallTimed(cfg, s, s.calls[q]);
        CallTimedLasts(cfg, s, t, s.calls[q]);
      }
    }
  }

  lemma {:induction false} MoveTimed(cfg: Config, s: State, p: nat, c: Process)
    requires Timed(cfg, s) && CallTimed(cfg, s, c)
    ensures Timed(cfg, s.(calls := s.calls[p := c]))
  {
    var t := s.(calls := s.calls[p := c]);
    CallTimedLasts(cfg, s, t, c);
    CalmStep(cfg, s, t, p);
  }

  lemma {:induction false} DropTimed(cfg: Config, s: State, p: nat)
    requires Timed(cfg, s)
    ensures Timed(cfg, s.(calls := s.calls - {p}))
  {
    CalmStep(cfg, s, s.(calls := s.calls - {p}), p);
  }

  // ---------------------------------------------------------------- steps

  lemma {:induction false} AdmitTimed(cfg: Config, s: State, p: nat)
    requires Timed(cfg, s) && p in s.calls
    ensures Timed(cfg, ReceiveStep(cfg, s, Admit(p), s.calls[p]))
  {
    var c := s.calls[p];
    assert CallTimed(cfg, s, c);
    if c.ReceiveLoaded? {
      if s.now - c.row.createdAt > cfg.lifetime { MoveTimed(cfg, s, p, Marking(c.upload, Expired)); }
      else if s.now > c.row.createdAt + cfg.targetTtl { DropTimed(cfg, s, p); }
      else { MoveTimed(cfg, s, p, Receiving(c.upload, c.row, s.now)); }
    }
  }

  /** The heart of the argument: a timely publish is before the end of the window, and
      deletions and removals only happen after it. */
  lemma {:induction false} PublishTimed(cfg: Config, s: State, p: nat, bytes: Bytes)
    requires Timed(cfg, s) && p in s.calls && s.calls[p].Receiving? && Timely(cfg, s, Publish(p, bytes))
    ensures Timed(cfg, ReceiveStep(cfg, s, Publish(p, bytes), s.calls[p]))
  {
    var c := s.calls[p];
    if |bytes| > cfg.maxBytes || c.upload in s.objects {
      DropTimed(cfg, s, p);
    } else {
      assert CallTimed(cfg, s, c);
      assert s.now <= c.row.createdAt + Window(cfg) && c.upload in s.rows;
      var t := s.(objects := s.objects[c.upload := bytes], calls := s.calls - {p});
      forall q | q in t.calls ensures CallTimed(cfg, t, t.calls[q]) {
        assert CallTimed(cfg, s, s.calls[q]);
        StoredTimed(cfg, s, t, s.calls[q], c.upload, c.row.createdAt);
      }
    }
  }

  lemma {:induction false} StoredTimed(cfg: Config, s: State, t: State, c: Process, u: nat, created: int)
    requires CallTimed(cfg, s, c) && CreatedAt(s, u, created) && s.now <= created + Window(cfg) && u in s.rows
    requires t.now == s.now && t.rows == s.rows && t.retired == s.retired && t.objects.Keys == s.objects.Keys + {u}
    ensures CallTimed(cfg, t, c)
  {
    if c.CleanupReady? || c.CleanupDeleting? || c.CleanupRemoving? {
      forall i | 0 <= i < |c.queue| ensures CreatedAt(t, c.queue[i].upload, c.queue[i].createdAt) {
        assert CreatedAt(s, c.queue[i].upload, c.queue[i].createdAt);
      }
    }
  }

  lemma {:induction false} ListTimed(cfg: Config, s: State, p: nat, listed: seq<nat>)
    requires Timed(cfg, s) && p in s.calls && s.calls[p].CleanupTimed?
    ensures Timed(cfg, CleanupStep(cfg, s, ListCandidates(p, listed), s.calls[p]))
  {
    var c := s.calls[p];
    assert CallTimed(cfg, s, c);
    if forall u :: u in listed ==> u in s.rows && IsCandidate(s.rows[u], c.pendingBefore, c.terminalBefore) {
      var queue := CandidatesOf(s.rows, listed);
      forall i | 0 <= i < |queue| ensures CreatedAt(s, queue[i].upload, queue[i].createdAt) { assert listed[i] in listed; }
      MoveTimed(cfg, s, p, CleanupReady(c.terminalBefore, queue, 0));
    }
  }

  lemma {:induction false} MarkMoveTimed(cfg: Config, s: State, p: nat, c: Process, u: nat)
    requires Timed(cfg, s) && CallTimed(cfg, s, c)
    ensures Timed(cfg, s.(rows := MarkedIfPending(s.rows, u, Expired), calls := s.calls[p := c]))
  {
    var t := s.(rows := MarkedIfPending(s.rows, u, Expired), calls := s.calls[p := c]);
    CallTimedLasts(cfg, s, t, c);
    CalmStep(cfg, s, t, p);
  }

  lemma {:induction false} TakeTimed(cfg: Config, s: State, p: nat)
    requires Timed(cfg, s) && p in s.calls && s.calls[p].CleanupReady?
    ensures Timed(cfg, CleanupStep(cfg, s, TakeCandidate(p), s.calls[p]))
  {
    var c := s.calls[p];
    assert CallTimed(cfg, s, c);
    if c.queue == [] {
      MoveTimed(cfg, s, p, CleanupDone(c.discarded));
    } else {
      var head := c.queue[0];
      assert CreatedAt(s, head.upload, head.createdAt) && QueueTimed(s, c.queue[1..]);
      var skipped := CleanupReady(c.terminalBefore, c.queue[1..], c.discarded);
      var deleting := CleanupDeleting(c.terminalBefore, head.upload, head.createdAt, c.queue[1..], c.discarded);
      var next := if head.createdAt >= c.terminalBefore then skipped else deleting;
      if head.status == Ready || (head.status == Pending && !(head.upload in s.rows && s.rows[head.upload].status == Pending)) {
        MoveTimed(cfg, s, p, skipped);
      } else if head.status == Pending {
        MarkMoveTimed(cfg, s, p, next, head.upload);
      } else {
        MoveTimed(cfg, s, p, next);
      }
    }
  }

  lemma {:induction false} DeleteTimed(cfg: Config, s: State, p: nat, fails: bool)
    requires Timed(cfg, s) && p in s.calls && s.calls[p].CleanupDeleting?
    ensures Timed(cfg, CleanupStep(cfg, s, DeleteObject(p, fails), s.calls[p]))
  {
    var c := s.calls[p];
    assert CallTimed(cfg, s, c);
    if fails {
      MoveTimed(cfg, s, p, CleanupReady(c.terminalBefore, c.queue, c.discarded));
    } else {
      var t := CleanupStep(cfg, s, DeleteObject(p, fails), c);
      CallTimedLasts(cfg, s, t, c);
      CalmStep(cfg, s, t, p);
    }
  }

  lemma {:induction false} RetiredTimed(cfg: Config, s: State, t: State, c: Process, u: nat)
    requires CallTimed(cfg, s, c) && u in s.rows
    requires t.now == s.now && t.rows == s.rows - {u} && t.retired == s.retired[u := s.rows[u].createdAt] && t.objects == s.objects
    ensures CallTimed(cfg, t, c)
  {
    if c.CleanupReady? || c.CleanupDeleting? || c.CleanupRemoving? {
      forall i | 0 <= i < |c.queue| ensures CreatedAt(t, c.queue[i].upload, c.queue[i].createdAt) {
        assert CreatedAt(s, c.queue[i].upload, c.queue[i].createdAt);
      }
    }
  }

  lemma {:induction false} RemoveTimed(cfg: Config, s: State, p: nat)
    requires Timed(cfg, s) && p in s.calls && s.calls[p].CleanupRemoving?
    ensures Timed(cfg, CleanupStep(cfg, s, RemoveRow(p), s.calls[p]))
  {
    var c := s.calls[p];
    assert CallTimed(cfg, s, c);
    if c.upload in s.rows && Terminal(s.rows[c.upload].status) {
      var t := CleanupStep(cfg, s, RemoveRow(p), c);
      RetiredTimed(cfg, s, t, CleanupReady(c.terminalBefore, c.queue, c.discarded + 1), c.upload);
      forall q | q in t.calls ensures CallTimed(cfg, t, t.calls[q]) {
        if q != p {
          assert CallTimed(cfg, s, s.calls[q]);
          RetiredTimed(cfg, s, t, s.calls[q], c.upload);
        }
      }
    } else {
      MoveTimed(cfg, s, p, CleanupReady(c.terminalBefore, c.queue, c.discarded));
    }
  }

  /** The steps of a completion never touch the object store or the set of rows. */
  lemma {:induction false} CompleteTimed(cfg: Config, s: State, e: Event)
    requires Timed(cfg, s) && (e.CheckLifetime? || e.Stat? || e.Inspect? || e.Stamp?) && e.call in s.calls
    ensures Timed(cfg, CompleteStep(cfg, s, e, s.calls[e.call]))
  {
    var p := e.call;
    var t := CompleteStep(cfg, s, e, s.calls[p]);
    if p !in t.calls {
      assert t == s.(calls := s.calls - {p});
      DropTimed(cfg, s, p);
    } else if t != s {
      assert t == s.(calls := s.calls[p := t.calls[p]]);
      MoveTimed(cfg, s, p, t.calls[p]);
    }
  }

  lemma {:induction false} FinalizeTimed(cfg: Config, s: State, p: nat, a: nat)
    requires Timed(cfg, s) && p in s.calls && s.calls[p].CompleteStamped?
    ensures Timed(cfg, CompleteStep(cfg, s, Finalize(p, a), s.calls[p]))
  {
    var c := s.calls[p];
    if a !in s.artifacts {
      if CanFinalize(s.rows, c.upload, c.notOlderThan) {
        CalmStep(cfg, s, CompleteStep(cfg, s, Finalize(p, a), c), p);
      } else if c.upload in s.rows && s.rows[c.upload].status == Ready && s.rows[c.upload].outcome.Some? {
        MoveTimed(cfg, s, p, Completed(c.upload, s.rows[c.upload].outcome.value));
      } else {
        DropTimed(cfg, s, p);
      }
    }
  }

  lemma {:induction false} StartTimed(cfg: Config, s: State, e: Event)
    requires Timed(cfg, s) && (e.StartReceive? || e.StartComplete? || e.StartCleanup?)
    requires e.StartCleanup? ==> Generous(cfg, e.olderThan)
    ensures Timed(cfg, Next(cfg, s, e))
  {
    var t := Next(cfg, s, e);
    if t != s {
      assert t == s.(calls := s.calls[e.call := t.calls[e.call]]);
      MoveTimed(cfg, s, e.call, t.calls[e.call]);
    }
  }

  lemma {:induction false} OuterTimed(cfg: Config, s: State, e: Event)
    requires Timed(cfg, s) && (e.Tick? || e.Create? || e.Mark? || e.Abort?)
    ensures Timed(cfg, Next(cfg, s, e))
  {
    var t := Next(cfg, s, e);
    if e.Abort? {
      DropTimed(cfg, s, e.call);
    } else if e.Mark? {
      if t != s { CalmStep(cfg, s, t, e.call); }
    } else {
      forall q | q in t.calls ensures CallTimed(cfg, t, t.calls[q]) {
        assert CallTimed(cfg, s, s.calls[q]);
        CallTimedLasts(cfg, s, t, s.calls[q]);
      }
    }
  }

  lemma {:induction false} NextTimed(cfg: Config, s: State, e: Event)
    requires Timed(cfg, s) && Timely(cfg, s, e) && (e.StartCleanup? ==> Generous(cfg, e.olderThan))
    ensures Timed(cfg, Next(cfg, s, e))
  {
    if e.Tick? || e.Create? || e.Mark? || e.Abort? { OuterTimed(cfg, s, e); }
    else if e.StartReceive? || e.StartComplete? || e.StartCleanup? { StartTimed(cfg, s, e); }
    else if e.call in s.calls {
      var c := s.calls[e.call];
      if e.Admit? { AdmitTimed(cfg, s, e.call); }
      else if e.Publish? { if c.Receiving? { PublishTimed(cfg, s, e.call, e.bytes); } }
      else if e.RemoveRow? { if c.CleanupRemoving? { RemoveTimed(cfg, s, e.call); } }
      else if e.ListCandidates? { if c.CleanupTimed? { ListTimed(cfg, s, e.call, e.listed); } }
      else if e.TakeCandidate? { if c.CleanupReady? { TakeTimed(cfg, s, e.call); } }
      else if e.DeleteObject? { if c.CleanupDeleting? { DeleteTimed(cfg, s, e.call, e.fails); } }
      else if e.Finalize? { if c.CompleteStamped? { FinalizeTimed(cfg, s, e.call, e.artifact); } }
      else { CompleteTimed(cfg, s, e); }
    }
  }

  /** Under a generous policy no timely run leaves an object without its row. */
  lemma {:induction false} TimelyRunsStayTimed(cfg: Config, now: int, events: seq<Event>, policy: Option<int>)
    requires Generous(cfg, policy) && TimelyRun(cfg, Initial(now), events, policy)
    ensures Timed(cfg, Run(cfg, Initial(now), events))
    decreases |events|
  {
    if events != [] {
      var front := events[..|events| - 1];
      TimelyRunsStayTimed(cfg, now, front, policy);
      NextTimed(cfg, Run(cfg, Initial(now), front), events[|events| - 1]);
    }
  }

  // ---------------------------------------------------------------- a stingy policy

  /** What the service configuration validates (apps/api/src/grafy_api/uploads.py:56-62), with a target that is valid at all. */
  ghost predicate Usual(cfg: Config) {
    cfg.targetTtl >= 0 && cfg.receiveTimeout > 0 && cfg.lifetime > cfg.targetTtl
  }

  const RESERVED := Row(Pending, 0, "", 0, None)

  /** The bad run, event by event: a receive is admitted at the last moment; meanwhile a
      completion finds no stored bytes and fails the upload; a sweep with a short age
      removes the row at the end of the window; and the receive, still within its window,
      publishes an object that no row tracks. */
  function BadEvent(cfg: Config, age: int, k: nat): Event
    requires cfg.targetTtl >= 0 && cfg.receiveTimeout > 0
  {
    match k
    case 0 => Create(0, "", 0, 0)
    case 1 => Tick(cfg.targetTtl)
    case 2 => StartReceive(1, 0)
    case 3 => Admit(1)
    case 4 => StartComplete(2, 0)
    case 5 => CheckLifetime(2)
    case 6 => Stat(2)
    case 7 => Mark(2)
    case 8 => Tick(cfg.receiveTimeout)
    case 9 => StartCleanup(3, Some(age))
    case 10 => ListCandidates(3, [0])
    case 11 => TakeCandidate(3)
    case 12 => DeleteObject(3, false)
    case 13 => RemoveRow(3)
    case _ => Publish(1, [])
  }

  const BAD_LENGTH := 15

  /** The calls in progress before event `k`. */
  function BadCalls(cfg: Config, age: int, k: nat): map<nat, Process> {
    var cut := Window(cfg) - age;
    var receiving := Receiving(0, RESERVED, cfg.targetTtl);
    if k < 3 then map[]
    else if k == 3 then map[1 := ReceiveLoaded(0, RESERVED)]
    else if k == 5 then map[1 := receiving, 2 := CompleteLoaded(0, RESERVED)]
    else if k == 6 then map[1 := receiving, 2 := CompleteAlive(0, RESERVED)]
    else if k == 7 then map[1 := receiving, 2 := Marking(0, Failed)]
    else if k == 10 then map[1 := receiving, 3 := CleanupTimed(cut, cut)]
    else if k == 11 then map[1 := receiving, 3 := CleanupReady(cut, [Candidate(0, Failed, 0)], 0)]
    else if k == 12 then map[1 := receiving, 3 := CleanupDeleting(cut, 0, 0, [], 0)]
    else if k == 13 then map[1 := receiving, 3 := CleanupRemoving(cut, 0, 0, [], 0)]
    else if k == 14 then map[1 := receiving, 3 := CleanupReady(cut, [], 1)]
    else if k == 15 then map[3 := CleanupReady(cut, [], 1)]
    else map[1 := receiving]
  }

  function BadState(cfg: Config, age: int, k: nat): State {
    State(
      if k < 2 then 0 else if k < 9 then cfg.targetTtl else Window(cfg),
      if k == 0 || k >= 14 then map[] else if k < 8 then map[0 := RESERVED] else map[0 := RESERVED.(status := Failed)],
      if k == 15 then map[0 := []] else map[],
      map[],
      if k >= 14 then map[0 := 0] else map[],
      BadCalls(cfg, age, k))
  }

  lemma {:induction false} ReceivePart(cfg: Config, age: int, k: nat)
    requires Usual(cfg) && k < 4
    ensures Next(cfg, BadState(cfg, age, k), BadEvent(cfg, age, k)) == BadState(cfg, age, k + 1)
  {
  }

  lemma {:induction false} CompletePart(cfg: Config, age: int, k: nat)
    requires Usual(cfg) && 4 <= k < 7
    ensures Next(cfg, BadState(cfg, age, k), BadEvent(cfg, age, k)) == BadState(cfg, age, k + 1)
  {
  }

  lemma {:induction false} MarkPart(cfg: Config, age: int)
    requires Usual(cfg)
    ensures Next(cfg, BadState(cfg, age, 7), BadEvent(cfg, age, 7)) == BadState(cfg, age, 8)
  {
    assert BadState(cfg, age, 7).calls - {2} == BadState(cfg, age, 8).calls;
  }

  lemma {:induction false} ListPart(cfg: Config, age: int, k: nat)
    requires Usual(cfg) && age < Window(cfg) && 8 <= k < 11
    ensures Next(cfg, BadState(cfg, age, k), BadEvent(cfg, age, k)) == BadState(cfg, age, k + 1)
  {
    if k == 10 { assert CandidatesOf(BadState(cfg, age, k).rows, [0]) == [Candidate(0, Failed, 0)]; }
  }

  lemma {:induction false} RemovePart(cfg: Config, age: int, k: nat)
    requires Usual(cfg) && age < Window(cfg) && 11 <= k < 13
    ensures Next(cfg, BadState(cfg, age, k), BadEvent(cfg, age, k)) == BadState(cfg, age, k + 1)
  {
    var s := BadState(cfg, age, k);
    if k == 11 { assert [Candidate(0, Failed, 0)][1..] == []; }
    else { assert s.objects - {0} == map[]; }
  }

  lemma {:induction false} StorePart(cfg: Config, age: int, k: nat)
    requires Usual(cfg) && age < Window(cfg) && 13 <= k < 15
    ensures Next(cfg, BadState(cfg, age, k), BadEvent(cfg, age, k)) == BadState(cfg, age, k + 1)
  {
    var s := BadState(cfg, age, k);
    if k == 13 { assert s.rows - {0} == map[]; }
    else { assert s.calls - {1} == BadState(cfg, age, 15).calls; }
  }

  function BadRun(cfg: Config, age: int, k: nat): seq<Event>
    requires cfg.targetTtl >= 0 && cfg.receiveTimeout > 0
  {
    seq(k, i requires 0 <= i < k => BadEvent(cfg, age, i))
  }

  lemma {:induction false} BadRunLeads(cfg: Config, age: int, k: nat)
    requires Usual(cfg) && age < Window(cfg) && k <= BAD_LENGTH
    ensures Run(cfg, Initial(0), BadRun(cfg, age, k)) == BadState(cfg, age, k)
    ensures TimelyRun(cfg, Initial(0), BadRun(cfg, age, k), Some(age))
  {
    if k > 0 {
      var run := BadRun(cfg, age, k);
      assert run[..|run| - 1] == BadRun(cfg, age, k - 1);
      BadRunLeads(cfg, age, k - 1);
      BadStep(cfg, age, k - 1);
    }
  }

  lemma {:induction false} BadStep(cfg: Config, age: int, k: nat)
    requires Usual(cfg) && age < Window(cfg) && k < BAD_LENGTH
    ensures Next(cfg, BadState(cfg, age, k), BadEvent(cfg, age, k)) == BadState(cfg, age, k + 1)
    ensures Timely(cfg, BadState(cfg, age, k), BadEvent(cfg, age, k))
    ensures BadEvent(cfg, age, k).StartCleanup? ==> BadEvent(cfg, age, k).olderThan == Some(age)
  {
    if k < 4 { ReceivePart(cfg, age, k); }
    else if k < 7 { CompletePart(cfg, age, k); }
    else if k == 7 { MarkPart(cfg, age); }
    else if k < 11 { ListPart(cfg, age, k); }
    else if k < 13 { RemovePart(cfg, age, k); }
    else { StorePart(cfg, age, k); }
  }

  /** Any shorter age can leave an object that no row tracks. */
  lemma {:induction false} StingySweepLeavesOrphan(cfg: Config, age: int)
    requires Usual(cfg) && age < Window(cfg)
    ensures TimelyRun(cfg, Initial(0), BadRun(cfg, age, BAD_LENGTH), Some(age))
    ensures !NoOrphans(Run(cfg, Initial(0), BadRun(cfg, age, BAD_LENGTH)))
  {
    BadRunLeads(cfg, age, BAD_LENGTH);
    assert 0 in BadState(cfg, age, BAD_LENGTH).objects.Keys;
  }

  /** The exact condition: a cleanup age leaves no orphaned object in any timely run
      precisely when it is the default or at least the target lifetime plus the receive
      window. */
  lemma {:induction false} NoOrphansIff(cfg: Config, policy: Option<int>)
    requires Usual(cfg)
    ensures Generous(cfg, policy) <==>
            forall now, events :: TimelyRun(cfg, Initial(now), events, policy) ==> NoOrphans(Run(cfg, Initial(now), events))
  {
    if Generous(cfg, policy) {
      forall now, events | TimelyRun(cfg, Initial(now), events, policy) ensures NoOrphans(Run(cfg, Initial(now), events)) {
        TimelyRunsStayTimed(cfg, now, events, policy);
      }
    } else {
      StingySweepLeavesOrphan(cfg, policy.value);
    }
  }
}
