/** Every run of the upload protocol keeps the invariant and undoes nothing. */
module UploadRuns {
  import opened Text
  import opened Artifacts
  import opened Inspection
  import opened UploadProtocol
  import opened UploadSafety

  lemma {:induction false} UnchangedSafe(cfg: Config, s: State)
    requires Inv(cfg, s)
    ensures Evolves(s, s)
  {
  }

  // ---------------------------------------------------------------- receive

  lemma {:induction false} AdmitSafe(cfg: Config, s: State, p: nat)
    requires Inv(cfg, s) && p in s.calls && s.calls[p].ReceiveLoaded?
    ensures var t := ReceiveStep(cfg, s, Admit(p), s.calls[p]); Inv(cfg, t) && Evolves(s, t)
  {
    var c := s.calls[p];
    assert CallOk(cfg, s, c);
    if s.now - c.row.createdAt > cfg.lifetime { MoveCall(cfg, s, p, Marking(c.upload, Expired)); }
    else if s.now > c.row.createdAt + cfg.targetTtl { DropCall(cfg, s, p); }
    else { MoveCall(cfg, s, p, Receiving(c.upload, c.row, s.now)); }
  }

  lemma {:induction false} PublishStepSafe(cfg: Config, s: State, p: nat, bytes: Bytes)
    requires Inv(cfg, s) && p in s.calls && s.calls[p].Receiving?
    ensures var t := ReceiveStep(cfg, s, Publish(p, bytes), s.calls[p]); Inv(cfg, t) && Evolves(s, t)
  {
    var c := s.calls[p];
    assert CallOk(cfg, s, c);
    if |bytes| > cfg.maxBytes || c.upload in s.objects {
      DropCall(cfg, s, p);
    } else {
      var t := s.(objects := s.objects[c.upload := bytes], calls := s.calls - {p});
      PublishSafe(cfg, s, t, c.upload, bytes);
      Settles(cfg, s, t, p);
    }
  }

  // ---------------------------------------------------------------- complete

  lemma {:induction false} CheckLifetimeSafe(cfg: Config, s: State, p: nat)
    requires Inv(cfg, s) && p in s.calls && s.calls[p].CompleteLoaded?
    ensures var t := CompleteStep(cfg, s, CheckLifetime(p), s.calls[p]); Inv(cfg, t) && Evolves(s, t)
  {
    var c := s.calls[p];
    assert CallOk(cfg, s, c);
    if s.now - c.row.createdAt > cfg.lifetime { MoveCall(cfg, s, p, Marking(c.upload, Expired)); }
    else { MoveCall(cfg, s, p, CompleteAlive(c.upload, c.row)); }
  }

  lemma {:induction false} StatSafe(cfg: Config, s: State, p: nat)
    requires Inv(cfg, s) && p in s.calls && s.calls[p].CompleteAlive?
    ensures var t := CompleteStep(cfg, s, Stat(p), s.calls[p]); Inv(cfg, t) && Evolves(s, t)
  {
    var c := s.calls[p];
    assert CallOk(cfg, s, c);
    if c.upload !in s.objects || |s.objects[c.upload]| > cfg.maxBytes { MoveCall(cfg, s, p, Marking(c.upload, Failed)); }
    else { MoveCall(cfg, s, p, CompleteStatted(c.upload, c.row, |s.objects[c.upload]|)); }
  }

  /** Acceptance implies that the size reported by storage was the size that was read. */
  lemma {:induction false} AcceptedSize(cfg: Config, row: Row, storedSize: nat, split: seq<Bytes>, inspected: Inspected)
    requires Verdict(cfg.tools, cfg.registry, ClaimOf(cfg, row, storedSize), split) == Ok(inspected)
    ensures Accepted(cfg, row, Joined(split), inspected)
  {
    assert storedSize == |Joined(split)|;
  }

  lemma {:induction false} InspectSafe(cfg: Config, s: State, p: nat, split: seq<Bytes>)
    requires Inv(cfg, s) && p in s.calls && s.calls[p].CompleteStatted?
    ensures var t := CompleteStep(cfg, s, Inspect(p, split), s.calls[p]); Inv(cfg, t) && Evolves(s, t)
  {
    var c := s.calls[p];
    assert CallOk(cfg, s, c);
    UnchangedSafe(cfg, s);
    if c.upload !in s.objects {
      DropCall(cfg, s, p);
    } else if Joined(split) == s.objects[c.upload] {
      var verdict := Verdict(cfg.tools, cfg.registry, ClaimOf(cfg, c.row, c.storedSize), split);
      if verdict.Err? {
        MoveCall(cfg, s, p, Marking(c.upload, Failed));
      } else {
        AcceptedSize(cfg, c.row, c.storedSize, split, verdict.value);
        MoveCall(cfg, s, p, CompleteInspected(c.upload, c.row, s.objects[c.upload], verdict.value));
      }
    }
  }

  lemma {:induction false} StampSafe(cfg: Config, s: State, p: nat)
    requires Inv(cfg, s) && p in s.calls && s.calls[p].CompleteInspected?
    ensures var t := CompleteStep(cfg, s, Stamp(p), s.calls[p]); Inv(cfg, t) && Evolves(s, t)
  {
    var c := s.calls[p];
    assert CallOk(cfg, s, c);
    MoveCall(cfg, s, p, CompleteStamped(c.upload, c.row, c.content, c.inspected, s.now - cfg.lifetime));
  }

  lemma {:induction false} FinalizeStepSafe(cfg: Config, s: State, p: nat, a: nat)
    requires Inv(cfg, s) && p in s.calls && s.calls[p].CompleteStamped?
    ensures var t := CompleteStep(cfg, s, Finalize(p, a), s.calls[p]); Inv(cfg, t) && Evolves(s, t)
  {
    var c := s.calls[p];
    assert CallOk(cfg, s, c);
    UnchangedSafe(cfg, s);
    if a !in s.artifacts {
      if CanFinalize(s.rows, c.upload, c.notOlderThan) {
        var t := CompleteStep(cfg, s, Finalize(p, a), c);
        FinalizeSafe(cfg, s, t, c.upload, c.row, c.content, c.inspected, a);
        Settles(cfg, s, t, p);
      } else if c.upload in s.rows && s.rows[c.upload].status == Ready && s.rows[c.upload].outcome.Some? {
        MoveCall(cfg, s, p, Completed(c.upload, s.rows[c.upload].outcome.value));
      } else {
        DropCall(cfg, s, p);
      }
    }
  }

  // ---------------------------------------------------------------- cleanup

  lemma {:induction false} ListedQueueOk(s: State, listed: seq<nat>)
    requires forall u :: u in listed ==> u in s.rows
    ensures QueueOk(s, CandidatesOf(s.rows, listed))
  {
    var queue := CandidatesOf(s.rows, listed);
    forall i | 0 <= i < |queue| ensures CandidateOk(s, queue[i]) {
      assert listed[i] in listed;
    }
  }

  lemma {:induction false} ListSafe(cfg: Config, s: State, p: nat, listed: seq<nat>)
    requires Inv(cfg, s) && p in s.calls && s.calls[p].CleanupTimed?
    ensures var t := CleanupStep(cfg, s, ListCandidates(p, listed), s.calls[p]); Inv(cfg, t) && Evolves(s, t)
  {
    var c := s.calls[p];
    assert CallOk(cfg, s, c);
    UnchangedSafe(cfg, s);
    if forall u :: u in listed ==> u in s.rows && IsCandidate(s.rows[u], c.pendingBefore, c.terminalBefore) {
      ListedQueueOk(s, listed);
      MoveCall(cfg, s, p, CleanupReady(c.terminalBefore, CandidatesOf(s.rows, listed), 0));
    }
  }

  /** A pending candidate that is still pending is expired first. */
  lemma {:induction false} ExpireSafe(cfg: Config, s: State, p: nat, u: nat, c: Process)
    requires Inv(cfg, s) && u in s.rows && s.rows[u].status == Pending
    requires c.CleanupReady? || (c.CleanupDeleting? && c.upload == u)
    requires QueueOk(s, c.queue)
    ensures var t := s.(rows := MarkedIfPending(s.rows, u, Expired), calls := s.calls[p := c]); Inv(cfg, t) && Evolves(s, t)
  {
    var t := s.(rows := MarkedIfPending(s.rows, u, Expired), calls := s.calls[p := c]);
    MarkSafe(cfg, s, t, u, Expired);
    QueueLasts(s, t, c.queue);
    Settles(cfg, s, t, p);
  }

  lemma {:induction false} TakeSafe(cfg: Config, s: State, p: nat)
    requires Inv(cfg, s) && p in s.calls && s.calls[p].CleanupReady?
    ensures var t := CleanupStep(cfg, s, TakeCandidate(p), s.calls[p]); Inv(cfg, t) && Evolves(s, t)
  {
    var c := s.calls[p];
    assert CallOk(cfg, s, c);
    if c.queue == [] {
      MoveCall(cfg, s, p, CleanupDone(c.discarded));
      return;
    }
    var head := c.queue[0];
    assert CandidateOk(s, head) && QueueOk(s, c.queue[1..]);
    var skipped := CleanupReady(c.terminalBefore, c.queue[1..], c.discarded);
    var deleting := CleanupDeleting(c.terminalBefore, head.upload, head.createdAt, c.queue[1..], c.discarded);
    var next := if head.createdAt >= c.terminalBefore then skipped else deleting;
    if head.status == Ready || (head.status == Pending && !(head.upload in s.rows && s.rows[head.upload].status == Pending)) {
      MoveCall(cfg, s, p, skipped);
    } else if head.status == Pending {
      ExpireSafe(cfg, s, p, head.upload, next);
    } else {
      MoveCall(cfg, s, p, next);
    }
  }

  lemma {:induction false} DeleteStepSafe(cfg: Config, s: State, p: nat, fails: bool)
    requires Inv(cfg, s) && p in s.calls && s.calls[p].CleanupDeleting?
    ensures var t := CleanupStep(cfg, s, DeleteObject(p, fails), s.calls[p]); Inv(cfg, t) && Evolves(s, t)
  {
    var c := s.calls[p];
    assert CallOk(cfg, s, c);
    if fails {
      MoveCall(cfg, s, p, CleanupReady(c.terminalBefore, c.queue, c.discarded));
    } else {
      var t := CleanupStep(cfg, s, DeleteObject(p, fails), c);
      DeleteSafe(cfg, s, t, c.upload);
      CallLasts(cfg, s, t, c);
      Settles(cfg, s, t, p);
    }
  }

  lemma {:induction false} RemoveStepSafe(cfg: Config, s: State, p: nat)
    requires Inv(cfg, s) && p in s.calls && s.calls[p].CleanupRemoving?
    ensures var t := CleanupStep(cfg, s, RemoveRow(p), s.calls[p]); Inv(cfg, t) && Evolves(s, t)
  {
    var c := s.calls[p];
    assert CallOk(cfg, s, c);
    if c.upload in s.rows && Terminal(s.rows[c.upload].status) {
      var t := CleanupStep(cfg, s, RemoveRow(p), c);
      RemoveSafe(cfg, s, t, c.upload);
      CallLasts(cfg, s, t, c);
      Settles(cfg, s, t, p);
    } else {
      MoveCall(cfg, s, p, CleanupReady(c.terminalBefore, c.queue, c.discarded));
    }
  }

  // ---------------------------------------------------------------- starting and ending calls

  lemma {:induction false} StartSafe(cfg: Config, s: State, e: Event)
    requires Inv(cfg, s) && (e.StartReceive? || e.StartComplete? || e.StartCleanup?)
    ensures Inv(cfg, Next(cfg, s, e)) && Evolves(s, Next(cfg, s, e))
  {
    UnchangedSafe(cfg, s);
    var t := Next(cfg, s, e);
    if t != s {
      assert t == s.(calls := s.calls[e.call := t.calls[e.call]]);
      MoveCall(cfg, s, e.call, t.calls[e.call]);
    }
  }

  lemma {:induction false} TickSafe(cfg: Config, s: State, elapsed: nat)
    requires Inv(cfg, s)
    ensures var t := s.(now := s.now + elapsed); Inv(cfg, t) && Evolves(s, t)
  {
    var t := s.(now := s.now + elapsed);
    StoreLasts(cfg, s, t);
    NoCallMoves(cfg, s, t);
  }

  lemma {:induction false} MarkStepSafe(cfg: Config, s: State, p: nat)
    requires Inv(cfg, s) && p in s.calls && s.calls[p].Marking?
    ensures Inv(cfg, Next(cfg, s, Mark(p))) && Evolves(s, Next(cfg, s, Mark(p)))
  {
    var t := Next(cfg, s, Mark(p));
    assert CallOk(cfg, s, s.calls[p]);
    MarkSafe(cfg, s, t, s.calls[p].upload, s.calls[p].status);
    Settles(cfg, s, t, p);
  }

  /** The step each kind of call takes next is safe; any other step does nothing. */
  lemma {:induction false} ReceiveSafe(cfg: Config, s: State, e: Event)
    requires Inv(cfg, s) && (e.Admit? || e.Publish?) && e.call in s.calls
    ensures var t := ReceiveStep(cfg, s, e, s.calls[e.call]); Inv(cfg, t) && Evolves(s, t)
  {
    var c := s.calls[e.call];
    if e.Admit? && c.ReceiveLoaded? { AdmitSafe(cfg, s, e.call); }
    else if e.Publish? && c.Receiving? { PublishStepSafe(cfg, s, e.call, e.bytes); }
    else { UnchangedSafe(cfg, s); }
  }

  lemma {:induction false} CompleteSafe(cfg: Config, s: State, e: Event)
    requires Inv(cfg, s) && (e.CheckLifetime? || e.Stat? || e.Inspect? || e.Stamp? || e.Finalize?) && e.call in s.calls
    ensures var t := CompleteStep(cfg, s, e, s.calls[e.call]); Inv(cfg, t) && Evolves(s, t)
  {
    var c := s.calls[e.call];
    if e.CheckLifetime? && c.CompleteLoaded? { CheckLifetimeSafe(cfg, s, e.call); }
    else if e.Stat? && c.CompleteAlive? { StatSafe(cfg, s, e.call); }
    else if e.Inspect? && c.CompleteStatted? { InspectSafe(cfg, s, e.call, e.split); }
    else if e.Stamp? && c.CompleteInspected? { StampSafe(cfg, s, e.call); }
    else if e.Finalize? && c.CompleteStamped? { FinalizeStepSafe(cfg, s, e.call, e.artifact); }
    else { UnchangedSafe(cfg, s); }
  }

  lemma {:induction false} CleanupSafe(cfg: Config, s: State, e: Event)
    requires Inv(cfg, s) && (e.ListCandidates? || e.TakeCandidate? || e.DeleteObject? || e.RemoveRow?) && e.call in s.calls
    ensures var t := CleanupStep(cfg, s, e, s.calls[e.call]); Inv(cfg, t) && Evolves(s, t)
  {
    var c := s.calls[e.call];
    if e.ListCandidates? && c.CleanupTimed? { ListSafe(cfg, s, e.call, e.listed); }
    else if e.TakeCandidate? && c.CleanupReady? { TakeSafe(cfg, s, e.call); }
    else if e.DeleteObject? && c.CleanupDeleting? { DeleteStepSafe(cfg, s, e.call, e.fails); }
    else if e.RemoveRow? && c.CleanupRemoving? { RemoveStepSafe(cfg, s, e.call); }
    else { UnchangedSafe(cfg, s); }
  }

  lemma {:induction false} OuterSafe(cfg: Config, s: State, e: Event)
    requires Inv(cfg, s)
    requires e.Tick? || e.Create? || e.StartReceive? || e.StartComplete? || e.StartCleanup? || e.Mark? || e.Abort?
    ensures Inv(cfg, Next(cfg, s, e)) && Evolves(s, Next(cfg, s, e))
  {
    if e.Tick? { TickSafe(cfg, s, e.elapsed); }
    else if e.Create? { CreateSafe(cfg, s, e); }
    else if e.Abort? { DropCall(cfg, s, e.call); }
    else if !e.Mark? { StartSafe(cfg, s, e); }
    else if e.call in s.calls && s.calls[e.call].Marking? { MarkStepSafe(cfg, s, e.call); }
    else { UnchangedSafe(cfg, s); }
  }

  lemma {:induction false} NextSafe(cfg: Config, s: State, e: Event)
    requires Inv(cfg, s)
    ensures Inv(cfg, Next(cfg, s, e)) && Evolves(s, Next(cfg, s, e))
  {
    if e.Tick? || e.Create? || e.StartReceive? || e.StartComplete? || e.StartCleanup? || e.Mark? || e.Abort? { OuterSafe(cfg, s, e); }
    else if e.call !in s.calls { UnchangedSafe(cfg, s); }
    else if e.Admit? || e.Publish? { ReceiveSafe(cfg, s, e); }
    else if e.ListCandidates? || e.TakeCandidate? || e.DeleteObject? || e.RemoveRow? { CleanupSafe(cfg, s, e); }
    else { CompleteSafe(cfg, s, e); }
  }

  // ---------------------------------------------------------------- whole runs

  /** What an earlier state of a run guarantees for every later one. */
  ghost predicate Preserves(s: State, t: State) {
    && s.now <= t.now
    && (forall u :: u in s.rows && s.rows[u].status == Ready ==>
          && u in t.rows && t.rows[u] == s.rows[u]
          && u in s.objects && u in t.objects && t.objects[u] == s.objects[u])
    && (forall u :: Doomed(s, u) ==> Doomed(t, u))
    && (forall a :: a in s.artifacts ==> a in t.artifacts && t.artifacts[a] == s.artifacts[a])
  }

  lemma {:induction false} StepPreserves(cfg: Config, s: State, t: State)
    requires Inv(cfg, s) && Evolves(s, t)
    ensures Preserves(s, t)
  {
    forall u | u in s.rows && s.rows[u].status == Ready
      ensures u in t.rows && t.rows[u] == s.rows[u] && u in s.objects && u in t.objects && t.objects[u] == s.objects[u]
    {
      assert RowOk(cfg, s, u) && RowEvolves(s, t, u);
    }
    forall u | Doomed(s, u) ensures Doomed(t, u) { DoomLasts(s, t, u); }
  }

  lemma {:induction false} RunSafe(cfg: Config, now: int, events: seq<Event>)
    ensures Inv(cfg, Run(cfg, Initial(now), events))
    decreases |events|
  {
    if events != [] {
      RunSafe(cfg, now, events[..|events| - 1]);
      NextSafe(cfg, Run(cfg, Initial(now), events[..|events| - 1]), events[|events| - 1]);
    }
  }

  /** From any point of any run to any later point: a READY upload keeps its row, its
      bytes and its artifact, and an upload that became terminal never becomes READY. */
  lemma {:induction false} EveryRunPreserves(cfg: Config, now: int, earlier: seq<Event>, later: seq<Event>)
    ensures Preserves(Run(cfg, Initial(now), earlier), Run(cfg, Initial(now), earlier + later))
    decreases |later|
  {
    var s := Run(cfg, Initial(now), earlier);
    RunSafe(cfg, now, earlier);
    if later == [] {
      assert earlier + later == earlier;
      UnchangedSafe(cfg, s);
      StepPreserves(cfg, s, s);
    } else {
      var front := later[..|later| - 1];
      var all := earlier + later;
      EveryRunPreserves(cfg, now, earlier, front);
      RunSafe(cfg, now, earlier + front);
      assert all[..|all| - 1] == earlier + front && all[|all| - 1] == later[|later| - 1];
      var t := Run(cfg, Initial(now), earlier + front);
      NextSafe(cfg, t, later[|later| - 1]);
      StepPreserves(cfg, t, Next(cfg, t, later[|later| - 1]));
    }
  }

  predicate SameCompletion(a: Process, b: Process) { a.Completed? && b.Completed? && a.upload == b.upload }

  /** The object is stored with exactly the recorded size, digest and declared format, and
      the row names a committed artifact that records the same. */
  ghost predicate Delivers(cfg: Config, s: State, u: nat)
    requires u in s.rows
  {
    && s.rows[u].outcome.Some? && u in s.objects
    && var outcome := s.rows[u].outcome.value;
    && |s.objects[u]| == outcome.inspected.byteSize == s.rows[u].expectedSize <= cfg.maxBytes
    && outcome.inspected.sha256 == cfg.tools.sha256(s.objects[u])
    && Accepted(cfg, s.rows[u], s.objects[u], outcome.inspected)
    && outcome.artifact in s.artifacts && s.artifacts[outcome.artifact] == Artifact(u, outcome.inspected)
  }

  /** In every reachable state: READY uploads deliver what they record, an upload has at
      most one artifact, and all completed calls of an upload got the same answer. */
  lemma {:induction false} EveryRunConsistent(cfg: Config, now: int, events: seq<Event>)
    ensures var s := Run(cfg, Initial(now), events);
            && (forall u :: u in s.rows && s.rows[u].status == Ready ==> Delivers(cfg, s, u))
            && (forall a, b :: a in s.artifacts && b in s.artifacts && s.artifacts[a].upload == s.artifacts[b].upload ==> a == b)
            && (forall p, q :: p in s.calls && q in s.calls && SameCompletion(s.calls[p], s.calls[q]) ==>
                  s.calls[p].outcome == s.calls[q].outcome)
  {
    RunSafe(cfg, now, events);
    var s := Run(cfg, Initial(now), events);
    forall u | u in s.rows && s.rows[u].status == Ready ensures Delivers(cfg, s, u) {
      assert RowOk(cfg, s, u);
      AcceptedMeans(cfg, s.rows[u], s.objects[u], s.rows[u].outcome.value.inspected);
    }
    forall a, b | a in s.artifacts && b in s.artifacts && s.artifacts[a].upload == s.artifacts[b].upload ensures a == b {
      assert ArtifactOk(s, a) && ArtifactOk(s, b);
    }
    forall p, q | p in s.calls && q in s.calls && SameCompletion(s.calls[p], s.calls[q])
      ensures s.calls[p].outcome == s.calls[q].outcome
    {
      assert CallOk(cfg, s, s.calls[p]) && CallOk(cfg, s, s.calls[q]);
    }
  }

  lemma {:induction false} AcceptedMeans(cfg: Config, row: Row, content: Bytes, inspected: Inspected)
    requires Accepted(cfg, row, content, inspected)
    ensures |content| == inspected.byteSize == row.expectedSize <= cfg.maxBytes
    ensures inspected.sha256 == cfg.tools.sha256(content)
  {
    var split :| Joined(split) == content && Verdict(cfg.tools, cfg.registry, ClaimOf(cfg, row, |content|), split) == Ok(inspected);
  }
}
