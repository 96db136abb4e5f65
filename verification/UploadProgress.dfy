/** What an undisturbed upload and an undisturbed sweep achieve, from any state. */
module UploadProgress {
  import opened Text
  import opened Artifacts
  import opened Inspection
  import opened UploadProtocol

  lemma {:induction false} RunOneMore(cfg: Config, s: State, events: seq<Event>, e: Event)
    ensures Run(cfg, s, events + [e]) == Next(cfg, Run(cfg, s, events), e)
  {
    assert (events + [e])[..|events|] == events;
  }

  // ---------------------------------------------------------------- receiving

  function ReceiveEvents(u: nat, extension: string, size: nat, now: int, r: nat, bytes: Bytes): seq<Event> {
    [Create(u, extension, size, now)] + [StartReceive(r, u)] + [Admit(r)] + [Publish(r, bytes)]
  }

  function Received(s: State, u: nat, extension: string, size: nat, bytes: Bytes): State {
    s.(rows := s.rows[u := Row(Pending, s.now, extension, size, None)], objects := s.objects[u := bytes])
  }

  lemma {:induction false} AdmittedIsStored(cfg: Config, s: State, u: nat, row: Row, r: nat, bytes: Bytes)
    requires u in s.rows && s.rows[u] == row && row.status == Pending && row.createdAt == s.now
    requires u !in s.objects && r !in s.calls
    requires cfg.lifetime >= 0 && cfg.targetTtl >= 0 && |bytes| <= cfg.maxBytes
    ensures Next(cfg, Next(cfg, Next(cfg, s, StartReceive(r, u)), Admit(r)), Publish(r, bytes)) == s.(objects := s.objects[u := bytes])
  {
    assert s.calls[r := ReceiveLoaded(u, row)][r := Receiving(u, row, s.now)] - {r} == s.calls;
  }

  /** A fresh upload can be reserved and received. */
  lemma {:induction false} ReceiveStores(cfg: Config, s: State, u: nat, extension: string, size: nat, r: nat, bytes: Bytes)
    requires u !in s.rows && u !in s.retired && u !in s.objects && r !in s.calls
    requires cfg.lifetime >= 0 && cfg.targetTtl >= 0 && |bytes| <= cfg.maxBytes
    ensures Run(cfg, s, ReceiveEvents(u, extension, size, s.now, r, bytes)) == Received(s, u, extension, size, bytes)
  {
    var row := Row(Pending, s.now, extension, size, None);
    var a := [Create(u, extension, size, s.now)];
    var reserved := s.(rows := s.rows[u := row]);
    RunOneMore(cfg, s, [], Create(u, extension, size, s.now));
    assert [] + a == a && Run(cfg, s, a) == reserved;
    RunOneMore(cfg, s, a, StartReceive(r, u));
    RunOneMore(cfg, s, a + [StartReceive(r, u)], Admit(r));
    RunOneMore(cfg, s, a + [StartReceive(r, u)] + [Admit(r)], Publish(r, bytes));
    AdmittedIsStored(cfg, reserved, u, row, r, bytes);
  }

  // ---------------------------------------------------------------- one step at a time

  /** `s` with call `c` standing at `p`. */
  function At(s: State, c: nat, p: Process): State { s.(calls := s.calls[c := p]) }

  lemma {:induction false} Moved(s: State, c: nat, p: Process, q: Process)
    ensures At(At(s, c, p), c, q) == At(s, c, q)
  {
    assert s.calls[c := p][c := q] == s.calls[c := q];
  }

  lemma {:induction false} RunMoves(cfg: Config, s: State, events: seq<Event>, e: Event, x: State, y: State)
    requires Run(cfg, s, events) == x && Next(cfg, x, e) == y
    ensures Run(cfg, s, events + [e]) == y
  {
    RunOneMore(cfg, s, events, e);
  }

  lemma {:induction false} RunStarts(cfg: Config, s: State, e: Event, y: State)
    requires Next(cfg, s, e) == y
    ensures Run(cfg, s, [e]) == y
  {
    RunOneMore(cfg, s, [], e);
    assert [] + [e] == [e];
  }

  // ---------------------------------------------------------------- completing

  ghost predicate Completable(cfg: Config, s: State, u: nat, split: seq<Bytes>, inspected: Inspected) {
    && u in s.rows && s.rows[u].status == Pending && s.now - s.rows[u].createdAt <= cfg.lifetime
    && u in s.objects && |s.objects[u]| <= cfg.maxBytes && Joined(split) == s.objects[u]
    && Verdict(cfg.tools, cfg.registry, ClaimOf(cfg, s.rows[u], |s.objects[u]|), split) == Ok(inspected)
  }

  lemma {:induction false} LoadedToStatted(cfg: Config, s: State, u: nat, c: nat, split: seq<Bytes>, inspected: Inspected)
    requires Completable(cfg, s, u, split, inspected)
    ensures var row, size := s.rows[u], |s.objects[u]|;
            && Next(cfg, At(s, c, CompleteLoaded(u, row)), CheckLifetime(c)) == At(s, c, CompleteAlive(u, row))
            && Next(cfg, At(s, c, CompleteAlive(u, row)), Stat(c)) == At(s, c, CompleteStatted(u, row, size))
  {
    var row := s.rows[u];
    Moved(s, c, CompleteLoaded(u, row), CompleteAlive(u, row));
    Moved(s, c, CompleteAlive(u, row), CompleteStatted(u, row, |s.objects[u]|));
  }

  lemma {:induction false} StattedToStamped(cfg: Config, s: State, u: nat, c: nat, split: seq<Bytes>, inspected: Inspected)
    requires Completable(cfg, s, u, split, inspected)
    ensures var row, size, bytes := s.rows[u], |s.objects[u]|, s.objects[u];
            && Next(cfg, At(s, c, CompleteStatted(u, row, size)), Inspect(c, split))
                == At(s, c, CompleteInspected(u, row, bytes, inspected))
            && Next(cfg, At(s, c, CompleteInspected(u, row, bytes, inspected)), Stamp(c))
            == At(s, c, CompleteStamped(u, row, bytes, inspected, s.now - cfg.lifetime))
  {
    var row, bytes := s.rows[u], s.objects[u];
    Moved(s, c, CompleteStatted(u, row, |bytes|), CompleteInspected(u, row, bytes, inspected));
    Moved(s, c, CompleteInspected(u, row, bytes, inspected), CompleteStamped(u, row, bytes, inspected, s.now - cfg.lifetime));
  }

  function Delivered(s: State, u: nat, c: nat, a: nat, inspected: Inspected): State
    requires u in s.rows
  {
    At(s.(rows := s.rows[u := s.rows[u].(status := Ready, outcome := Some(Outcome(inspected, a)))],
          artifacts := s.artifacts[a := Artifact(u, inspected)]), c, Completed(u, Outcome(inspected, a)))
  }

  lemma {:induction false} StampedToDelivered(cfg: Config, s: State, u: nat, c: nat, split: seq<Bytes>, a: nat, inspected: Inspected)
    requires Completable(cfg, s, u, split, inspected) && a !in s.artifacts
    ensures Next(cfg, At(s, c, CompleteStamped(u, s.rows[u], s.objects[u], inspected, s.now - cfg.lifetime)), Finalize(c, a))
        == Delivered(s, u, c, a, inspected)
  {
    Moved(s, c, CompleteStamped(u, s.rows[u], s.objects[u], inspected, s.now - cfg.lifetime), Completed(u, Outcome(inspected, a)));
  }

  function CompleteEvents(u: nat, c: nat, split: seq<Bytes>, a: nat): seq<Event> {
    [StartComplete(c, u)] + [CheckLifetime(c)] + [Stat(c)] + [Inspect(c, split)] + [Stamp(c)] + [Finalize(c, a)]
  }

  /** An upload that is pending, alive, stored and accepted becomes READY with one artifact. */
  lemma {:induction false} CompleteDelivers(cfg: Config, s: State, u: nat, c: nat, split: seq<Bytes>, a: nat, inspected: Inspected)
    requires Completable(cfg, s, u, split, inspected) && c !in s.calls && a !in s.artifacts
    ensures Run(cfg, s, CompleteEvents(u, c, split, a)) == Delivered(s, u, c, a, inspected)
  {
    var row, bytes := s.rows[u], s.objects[u];
    var loaded, alive := At(s, c, CompleteLoaded(u, row)), At(s, c, CompleteAlive(u, row));
    var statted, seen := At(s, c, CompleteStatted(u, row, |bytes|)), At(s, c, CompleteInspected(u, row, bytes, inspected));
    var stamped := At(s, c, CompleteStamped(u, row, bytes, inspected, s.now - cfg.lifetime));
    LoadedToStatted(cfg, s, u, c, split, inspected);
    StattedToStamped(cfg, s, u, c, split, inspected);
    StampedToDelivered(cfg, s, u, c, split, a, inspected);
    RunStarts(cfg, s, StartComplete(c, u), loaded);
    RunMoves(cfg, s, [StartComplete(c, u)], CheckLifetime(c), loaded, alive);
    RunMoves(cfg, s, [StartComplete(c, u)] + [CheckLifetime(c)], Stat(c), alive, statted);
    RunMoves(cfg, s, [StartComplete(c, u)] + [CheckLifetime(c)] + [Stat(c)], Inspect(c, split), statted, seen);
    RunMoves(cfg, s, [StartComplete(c, u)] + [CheckLifetime(c)] + [Stat(c)] + [Inspect(c, split)], Stamp(c), seen, stamped);
    RunMoves(cfg, s, [StartComplete(c, u)] + [CheckLifetime(c)] + [Stat(c)] + [Inspect(c, split)] + [Stamp(c)],
        Finalize(c, a), stamped, Delivered(s, u, c, a, inspected));
  }

  // ---------------------------------------------------------------- sweeping

  function SweepEvents(u: nat, c: nat, olderThan: Option<int>): seq<Event> {
    [StartCleanup(c, olderThan)] + [ListCandidates(c, [u])] + [TakeCandidate(c)] + [DeleteObject(c, false)] + [RemoveRow(c)]
  }

  lemma {:induction false} ListedToDeleting(cfg: Config, s: State, u: nat, c: nat, before: int, cut: int)
    requires u in s.rows && Terminal(s.rows[u].status) && s.rows[u].createdAt < cut
    ensures var row := s.rows[u]; var queue := [Candidate(u, row.status, row.createdAt)];
            && Next(cfg, At(s, c, CleanupTimed(before, cut)), ListCandidates(c, [u])) == At(s, c, CleanupReady(cut, queue, 0))
            && Next(cfg, At(s, c, CleanupReady(cut, queue, 0)), TakeCandidate(c)) == At(s, c, CleanupDeleting(cut, u, row.createdAt, [], 0))
  {
    var row := s.rows[u];
    var queue := [Candidate(u, row.status, row.createdAt)];
    assert CandidatesOf(s.rows, [u]) == queue && queue[1..] == [];
    Moved(s, c, CleanupTimed(before, cut), CleanupReady(cut, queue, 0));
    Moved(s, c, CleanupReady(cut, queue, 0), CleanupDeleting(cut, u, row.createdAt, [], 0));
  }

  lemma {:induction false} DeletingToRemoved(cfg: Config, s: State, u: nat, c: nat, cut: int)
    requires u in s.rows && Terminal(s.rows[u].status)
    ensures var row, emptied := s.rows[u], s.(objects := s.objects - {u});
            && Next(cfg, At(s, c, CleanupDeleting(cut, u, row.createdAt, [], 0)), DeleteObject(c, false))
                == At(emptied, c, CleanupRemoving(cut, u, row.createdAt, [], 0))
            && Next(cfg, At(emptied, c, CleanupRemoving(cut, u, row.createdAt, [], 0)), RemoveRow(c))
            == At(emptied.(rows := s.rows - {u}, retired := s.retired[u := row.createdAt]), c, CleanupReady(cut, [], 1))
  {
    var row, emptied := s.rows[u], s.(objects := s.objects - {u});
    Moved(emptied, c, CleanupDeleting(cut, u, row.createdAt, [], 0), CleanupRemoving(cut, u, row.createdAt, [], 0));
    Moved(emptied.(rows := s.rows - {u}, retired := s.retired[u := row.createdAt]), c,
        CleanupRemoving(cut, u, row.createdAt, [], 0), CleanupReady(cut, [], 1));
  }

  /** The sweep up to the delete. */
  lemma {:induction false} SweepLists(cfg: Config, s: State, u: nat, c: nat, olderThan: Option<int>, before: int, cut: int)
    requires u in s.rows && Terminal(s.rows[u].status) && c !in s.calls && s.rows[u].createdAt < cut
    requires before == s.now - (if olderThan.Some? then olderThan.value else cfg.lifetime) && cut == s.now - DeletionGrace(cfg, olderThan)
    ensures Run(cfg, s, [StartCleanup(c, olderThan)] + [ListCandidates(c, [u])] + [TakeCandidate(c)])
        == At(s, c, CleanupDeleting(cut, u, s.rows[u].createdAt, [], 0))
  {
    var row := s.rows[u];
    var timed, ready := At(s, c, CleanupTimed(before, cut)), At(s, c, CleanupReady(cut, [Candidate(u, row.status, row.createdAt)], 0));
    RunStarts(cfg, s, StartCleanup(c, olderThan), timed);
    ListedToDeleting(cfg, s, u, c, before, cut);
    RunMoves(cfg, s, [StartCleanup(c, olderThan)], ListCandidates(c, [u]), timed, ready);
    RunMoves(cfg, s, [StartCleanup(c, olderThan)] + [ListCandidates(c, [u])], TakeCandidate(c), ready,
        At(s, c, CleanupDeleting(cut, u, row.createdAt, [], 0)));
  }

  lemma {:induction false} SweepRemoves(cfg: Config, s: State, u: nat, c: nat, cut: int, events: seq<Event>)
    requires u in s.rows && Terminal(s.rows[u].status)
    requires Run(cfg, s, events) == At(s, c, CleanupDeleting(cut, u, s.rows[u].createdAt, [], 0))
    ensures Run(cfg, s, events + [DeleteObject(c, false)] + [RemoveRow(c)])
         == At(s.(rows := s.rows - {u}, objects := s.objects - {u}, retired := s.retired[u := s.rows[u].createdAt]), c,
             CleanupReady(cut, [], 1))
  {
    var row, emptied := s.rows[u], s.(objects := s.objects - {u});
    var deleting, removing := At(s, c, CleanupDeleting(cut, u, row.createdAt, [], 0)),
        At(emptied, c, CleanupRemoving(cut, u, row.createdAt, [], 0));
    DeletingToRemoved(cfg, s, u, c, cut);
    RunMoves(cfg, s, events, DeleteObject(c, false), deleting, removing);
    RunMoves(cfg, s, events + [DeleteObject(c, false)], RemoveRow(c), removing,
             At(emptied.(rows := s.rows - {u}, retired := s.retired[u := row.createdAt]), c, CleanupReady(cut, [], 1)));
  }

  /** A terminal row older than the grace loses its object and then itself; a sweep counts it. */
  lemma {:induction false} SweepReclaims(cfg: Config, s: State, u: nat, c: nat, olderThan: Option<int>)
    requires u in s.rows && Terminal(s.rows[u].status) && c !in s.calls && s.rows[u].createdAt < s.now - DeletionGrace(cfg, olderThan)
    ensures Run(cfg, s, SweepEvents(u, c, olderThan))
         == At(s.(rows := s.rows - {u}, objects := s.objects - {u}, retired := s.retired[u := s.rows[u].createdAt]), c,
               CleanupReady(s.now - DeletionGrace(cfg, olderThan), [], 1))
  {
    var before, cut := s.now - (if olderThan.Some? then olderThan.value else cfg.lifetime), s.now - DeletionGrace(cfg, olderThan);
    SweepLists(cfg, s, u, c, olderThan, before, cut);
    SweepRemoves(cfg, s, u, c, cut, [StartCleanup(c, olderThan)] + [ListCandidates(c, [u])] + [TakeCandidate(c)]);
  }
}
