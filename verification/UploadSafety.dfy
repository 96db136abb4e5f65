/** Safety of the upload protocol over every interleaving. */
module UploadSafety {
  import opened Text
  import opened Artifacts
  import opened Inspection
  import opened UploadProtocol

  // ---------------------------------------------------------------- the invariant

  /** The content passed inspection under the size and format the row declares. */
  ghost predicate Accepted(cfg: Config, row: Row, content: Bytes, inspected: Inspected) {
    exists split :: Joined(split) == content && Verdict(cfg.tools, cfg.registry, ClaimOf(cfg, row, |content|), split) == Ok(inspected)
  }

  ghost predicate Known(s: State, u: nat) { u in s.rows || u in s.retired }

  /** No completion can promote this upload any more. */
  ghost predicate Doomed(s: State, u: nat) {
    Known(s, u) && (u in s.rows ==> Terminal(s.rows[u].status))
  }

  ghost predicate SameReservation(a: Row, b: Row) {
    a.createdAt == b.createdAt && a.extension == b.extension && a.expectedSize == b.expectedSize
  }

  ghost predicate RowOk(cfg: Config, s: State, u: nat)
    requires u in s.rows
  {
    var row := s.rows[u];
    && (row.status == Ready <==> row.outcome.Some?)
    && (row.status == Ready ==>
          && u in s.objects
          && Accepted(cfg, row, s.objects[u], row.outcome.value.inspected)
          && row.outcome.value.artifact in s.artifacts
          && s.artifacts[row.outcome.value.artifact] == Artifact(u, row.outcome.value.inspected))
  }

  ghost predicate ArtifactOk(s: State, a: nat)
    requires a in s.artifacts
  {
    var u := s.artifacts[a].upload;
    u in s.rows && s.rows[u].status == Ready && s.rows[u].outcome == Some(Outcome(s.artifacts[a].inspected, a))
  }

  ghost predicate CandidateOk(s: State, c: Candidate) {
    Known(s, c.upload) && (Terminal(c.status) ==> Doomed(s, c.upload))
  }

  ghost predicate QueueOk(s: State, queue: seq<Candidate>) {
    forall i :: 0 <= i < |queue| ==> CandidateOk(s, queue[i])
  }

  ghost predicate Loaded(s: State, u: nat, row: Row) {
    Known(s, u) && (u in s.rows ==> SameReservation(row, s.rows[u]))
  }

  ghost predicate Promising(cfg: Config, s: State, u: nat, row: Row, content: Bytes, inspected: Inspected) {
    && Loaded(s, u, row) && Accepted(cfg, row, content, inspected)
    && (u in s.rows && s.rows[u].status == Pending ==> u in s.objects && s.objects[u] == content)
  }

  ghost predicate CallOk(cfg: Config, s: State, c: Process) {
    match c
    case ReceiveLoaded(u, row) => Loaded(s, u, row)
    case Receiving(u, row, _) => Loaded(s, u, row)
    case CompleteLoaded(u, row) => Loaded(s, u, row)
    case CompleteAlive(u, row) => Loaded(s, u, row)
    case CompleteStatted(u, row, _) => Loaded(s, u, row)
    case CompleteInspected(u, row, content, inspected) => Promising(cfg, s, u, row, content, inspected)
    case CompleteStamped(u, row, content, inspected, _) => Promising(cfg, s, u, row, content, inspected)
    case Completed(u, outcome) => u in s.rows && s.rows[u].status == Ready && s.rows[u].outcome == Some(outcome)
    case Marking(u, status) => Known(s, u) && Terminal(status)
    case CleanupTimed(_, _) => true
    case CleanupReady(_, queue, _) => QueueOk(s, queue)
    case CleanupDeleting(_, u, _, queue, _) => Doomed(s, u) && QueueOk(s, queue)
    case CleanupRemoving(_, u, _, queue, _) => Doomed(s, u) && QueueOk(s, queue)
    case CleanupDone(_) => true
  }

  ghost predicate StoreOk(cfg: Config, s: State) {
    && (forall u {:trigger RowOk(cfg, s, u)} :: u in s.rows ==> RowOk(cfg, s, u))
    && (forall a {:trigger ArtifactOk(s, a)} :: a in s.artifacts ==> ArtifactOk(s, a))
    && s.rows.Keys !! s.retired.Keys
  }

  ghost predicate Inv(cfg: Config, s: State) {
    StoreOk(cfg, s) && forall p {:trigger CallOk(cfg, s, s.calls[p])} :: p in s.calls ==> CallOk(cfg, s, s.calls[p])
  }

  // ---------------------------------------------------------------- what no step undoes

  ghost predicate RowEvolves(s: State, t: State, u: nat)
    requires u in s.rows
  {
    if u in t.rows then
      && SameReservation(s.rows[u], t.rows[u])
      && (s.rows[u].status == Ready ==> t.rows[u] == s.rows[u])
      && (Terminal(s.rows[u].status) ==> t.rows[u].status == s.rows[u].status)
    else Terminal(s.rows[u].status) && u in t.retired && t.retired[u] == s.rows[u].createdAt
  }

  /** READY rows keep their content and their artifact, terminal rows stay terminal until
      they are removed, removed uploads never return, and only a doomed upload can lose
      its object. */
  ghost predicate Evolves(s: State, t: State) {
    && s.now <= t.now
    && (forall u {:trigger RowEvolves(s, t, u)} :: u in s.rows ==> RowEvolves(s, t, u))
    && (forall u :: u in s.retired ==> u in t.retired && t.retired[u] == s.retired[u] && u !in t.rows)
    && (forall u :: u in s.objects && !Doomed(s, u) ==> u in t.objects && t.objects[u] == s.objects[u])
    && (forall a :: a in s.artifacts ==> a in t.artifacts && t.artifacts[a] == s.artifacts[a])
  }

  lemma {:induction false} DoomLasts(s: State, t: State, u: nat)
    requires Evolves(s, t)
    ensures Doomed(s, u) ==> Doomed(t, u)
    ensures Known(s, u) ==> Known(t, u)
  {
    if u in s.rows { assert RowEvolves(s, t, u); }
  }

  lemma {:induction false} QueueLasts(s: State, t: State, queue: seq<Candidate>)
    requires Evolves(s, t) && QueueOk(s, queue)
    ensures QueueOk(t, queue)
  {
    forall i | 0 <= i < |queue| ensures CandidateOk(t, queue[i]) {
      assert CandidateOk(s, queue[i]);
      DoomLasts(s, t, queue[i].upload);
    }
  }

  lemma {:induction false} PromiseLasts(cfg: Config, s: State, t: State, u: nat, row: Row, content: Bytes, inspected: Inspected)
    requires Evolves(s, t) && Promising(cfg, s, u, row, content, inspected)
    ensures Promising(cfg, t, u, row, content, inspected)
  {
    if u in s.rows { assert RowEvolves(s, t, u); }
  }

  lemma {:induction false} CallLasts(cfg: Config, s: State, t: State, c: Process)
    requires Evolves(s, t) && CallOk(cfg, s, c)
    ensures CallOk(cfg, t, c)
  {
    match c
    case CompleteInspected(u, row, content, inspected) => PromiseLasts(cfg, s, t, u, row, content, inspected);
    case CompleteStamped(u, row, content, inspected, _) => PromiseLasts(cfg, s, t, u, row, content, inspected);
    case Completed(u, outcome) => assert RowEvolves(s, t, u);
    case CleanupReady(_, queue, _) => QueueLasts(s, t, queue);
    case CleanupDeleting(_, u, _, queue, _) => DoomLasts(s, t, u); QueueLasts(s, t, queue);
    case CleanupRemoving(_, u, _, queue, _) => DoomLasts(s, t, u); QueueLasts(s, t, queue);
    case CleanupTimed(_, _) =>
    case CleanupDone(_) =>
    case _ => if c.upload in s.rows { assert RowEvolves(s, t, c.upload); }
  }

  /** The rows and artifacts that were fine stay fine if the changed ones are. */
  lemma {:induction false} StoreLasts(cfg: Config, s: State, t: State)
    requires StoreOk(cfg, s) && Evolves(s, t) && t.rows.Keys !! t.retired.Keys
    requires forall u :: u in t.rows && !(u in s.rows && s.rows[u] == t.rows[u]) ==> RowOk(cfg, t, u)
    requires forall a :: a in t.artifacts && a !in s.artifacts ==> ArtifactOk(t, a)
    ensures StoreOk(cfg, t)
  {
    forall u | u in t.rows ensures RowOk(cfg, t, u) {
      if u in s.rows && s.rows[u] == t.rows[u] { assert RowOk(cfg, s, u); }
    }
    forall a | a in t.artifacts ensures ArtifactOk(t, a) {
      if a in s.artifacts {
        assert ArtifactOk(s, a);
        assert RowEvolves(s, t, s.artifacts[a].upload);
      }
    }
  }

  // ---------------------------------------------------------------- one step

  /** Only call `p` moved. */
  ghost predicate OthersWait(s: State, t: State, p: nat) {
    forall q :: q in t.calls && q != p ==> q in s.calls && t.calls[q] == s.calls[q]
  }

  lemma {:induction false} Settles(cfg: Config, s: State, t: State, p: nat)
    requires Inv(cfg, s) && Evolves(s, t) && StoreOk(cfg, t) && OthersWait(s, t, p)
    requires p in t.calls ==> CallOk(cfg, t, t.calls[p])
    ensures Inv(cfg, t)
  {
    forall q | q in t.calls ensures CallOk(cfg, t, t.calls[q]) {
      if q != p { CallLasts(cfg, s, t, s.calls[q]); }
    }
  }

  /** A step that changes nothing but the state of one call. */
  lemma {:induction false} LocalStep(cfg: Config, s: State, t: State, p: nat)
    requires Inv(cfg, s) && OthersWait(s, t, p) && s.now <= t.now
    requires s.rows == t.rows && s.objects == t.objects && s.artifacts == t.artifacts && s.retired == t.retired
    requires p in t.calls ==> CallOk(cfg, s, t.calls[p])
    ensures Inv(cfg, t) && Evolves(s, t)
  {
    StoreLasts(cfg, s, t);
    if p in t.calls { CallLasts(cfg, s, t, t.calls[p]); }
    Settles(cfg, s, t, p);
  }

  lemma {:induction false} CreateSafe(cfg: Config, s: State, e: Event)
    requires Inv(cfg, s) && e.Create?
    ensures Inv(cfg, Next(cfg, s, e)) && Evolves(s, Next(cfg, s, e))
  {
    var t := Next(cfg, s, e);
    if t != s {
      forall u | u in t.rows && !(u in s.rows && s.rows[u] == t.rows[u]) ensures RowOk(cfg, t, u) {
      }
      StoreLasts(cfg, s, t);
    }
    NoCallMoves(cfg, s, t);
  }

  lemma {:induction false} NoCallMoves(cfg: Config, s: State, t: State)
    requires Inv(cfg, s) && Evolves(s, t) && StoreOk(cfg, t) && s.calls == t.calls
    ensures Inv(cfg, t)
  {
    forall q | q in t.calls ensures CallOk(cfg, t, t.calls[q]) {
      CallLasts(cfg, s, t, s.calls[q]);
    }
  }

  /** Marking a pending row terminal disturbs nothing. */
  lemma {:induction false} MarkSafe(cfg: Config, s: State, t: State, u: nat, status: Status)
    requires StoreOk(cfg, s) && Terminal(status) && s.now <= t.now
    requires t.rows == MarkedIfPending(s.rows, u, status)
    requires s.objects == t.objects && s.artifacts == t.artifacts && s.retired == t.retired
    ensures StoreOk(cfg, t) && Evolves(s, t)
    ensures u in s.rows && s.rows[u].status == Pending ==> Doomed(t, u)
  {
    forall v | v in t.rows && !(v in s.rows && s.rows[v] == t.rows[v]) ensures RowOk(cfg, t, v) {
      assert RowOk(cfg, s, v);
    }
    StoreLasts(cfg, s, t);
  }

  lemma {:induction false} PublishSafe(cfg: Config, s: State, t: State, u: nat, bytes: Bytes)
    requires StoreOk(cfg, s) && u !in s.objects && t.objects == s.objects[u := bytes] && s.now <= t.now
    requires s.rows == t.rows && s.artifacts == t.artifacts && s.retired == t.retired
    ensures StoreOk(cfg, t) && Evolves(s, t)
  {
    StoreLasts(cfg, s, t);
  }

  lemma {:induction false} DeleteSafe(cfg: Config, s: State, t: State, u: nat)
    requires StoreOk(cfg, s) && Doomed(s, u) && t.objects == s.objects - {u} && s.now <= t.now
    requires s.rows == t.rows && s.artifacts == t.artifacts && s.retired == t.retired
    ensures StoreOk(cfg, t) && Evolves(s, t)
  {
    StoreLasts(cfg, s, t);
  }

  lemma {:induction false} RemoveSafe(cfg: Config, s: State, t: State, u: nat)
    requires StoreOk(cfg, s) && u in s.rows && Terminal(s.rows[u].status) && s.now <= t.now
    requires t.rows == s.rows - {u} && t.retired == s.retired[u := s.rows[u].createdAt]
    requires s.objects == t.objects && s.artifacts == t.artifacts
    ensures StoreOk(cfg, t) && Evolves(s, t)
  {
    StoreLasts(cfg, s, t);
  }

  /** A winning finalize: the row is still pending, so the inspected content is still stored. */
  lemma {:induction false} FinalizeSafe(cfg: Config, s: State, t: State, u: nat, row: Row, content: Bytes, inspected: Inspected, a: nat)
    requires StoreOk(cfg, s) && Promising(cfg, s, u, row, content, inspected) && s.now <= t.now
    requires u in s.rows && s.rows[u].status == Pending && a !in s.artifacts
    requires t.rows == s.rows[u := s.rows[u].(status := Ready, outcome := Some(Outcome(inspected, a)))]
    requires t.artifacts == s.artifacts[a := Artifact(u, inspected)]
    requires s.objects == t.objects && s.retired == t.retired
    ensures StoreOk(cfg, t) && Evolves(s, t)
  {
    var split :| Joined(split) == content && Verdict(cfg.tools, cfg.registry, ClaimOf(cfg, row, |content|), split) == Ok(inspected);
    assert ClaimOf(cfg, row, |content|) == ClaimOf(cfg, t.rows[u], |content|);
    assert Accepted(cfg, t.rows[u], content, inspected);
    forall v | v in t.rows && !(v in s.rows && s.rows[v] == t.rows[v]) ensures RowOk(cfg, t, v) {
      assert v == u;
    }
    StoreLasts(cfg, s, t);
  }

  lemma {:induction false} MoveCall(cfg: Config, s: State, p: nat, c: Process)
    requires Inv(cfg, s) && CallOk(cfg, s, c)
    ensures var t := s.(calls := s.calls[p := c]); Inv(cfg, t) && Evolves(s, t)
  {
    LocalStep(cfg, s, s.(calls := s.calls[p := c]), p);
  }

  lemma {:induction false} DropCall(cfg: Config, s: State, p: nat)
    requires Inv(cfg, s)
    ensures var t := s.(calls := s.calls - {p}); Inv(cfg, t) && Evolves(s, t)
  {
    LocalStep(cfg, s, s.(calls := s.calls - {p}), p);
  }
}
