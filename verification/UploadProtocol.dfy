/** The upload lifecycle as interleaved atomic steps (apps/api/src/grafy_api/uploads.py):
    any number of receive, complete and cleanup calls share one row table, one object
    store and one clock. Each step is one database transaction, one storage call, or one
    reading of the clock together with the local decisions that follow it. */
module UploadProtocol {
  import opened Text
  import opened Artifacts
  import opened Inspection

  datatype Config = Config(maxBytes: nat, lifetime: int, targetTtl: int, receiveTimeout: int, registry: Registry, tools: Tools)

  datatype Status = Pending | Ready | Failed | Expired

  /** What completion records on a row. */
  datatype Outcome = Outcome(inspected: Inspected, artifact: nat)

  datatype Row = Row(status: Status, createdAt: int, extension: string, expectedSize: nat, outcome: Option<Outcome>)

  datatype Artifact = Artifact(upload: nat, inspected: Inspected)

  /** A cleanup candidate as it was listed. */
  datatype Candidate = Candidate(upload: nat, status: Status, createdAt: int)

  /** Where one call stands. */
  datatype Process =
    // receive_content
    | ReceiveLoaded(upload: nat, row: Row)
    | Receiving(upload: nat, row: Row, admittedAt: int)
    // complete_upload
    | CompleteLoaded(upload: nat, row: Row)
    | CompleteAlive(upload: nat, row: Row)
    | CompleteStatted(upload: nat, row: Row, storedSize: nat)
    | CompleteInspected(upload: nat, row: Row, content: Bytes, inspected: Inspected)
    | CompleteStamped(upload: nat, row: Row, content: Bytes, inspected: Inspected, notOlderThan: int)
    | Completed(upload: nat, outcome: Outcome)
    // any call that is about to mark its upload terminal
    | Marking(upload: nat, status: Status)
    // cleanup_abandoned
    | CleanupTimed(pendingBefore: int, terminalBefore: int)
    | CleanupReady(terminalBefore: int, queue: seq<Candidate>, discarded: nat)
    | CleanupDeleting(terminalBefore: int, upload: nat, createdAt: int, queue: seq<Candidate>, discarded: nat)
    | CleanupRemoving(terminalBefore: int, upload: nat, createdAt: int, queue: seq<Candidate>, discarded: nat)
    | CleanupDone(discarded: nat)

  /** `retired` remembers the removed uploads with their creation time: upload ids are
      random UUIDs and are never issued twice. Uploads and their object keys are one to one. */
  datatype State = State(
    now: int, rows: map<nat, Row>, objects: map<nat, Bytes>, artifacts: map<nat, Artifact>,
    retired: map<nat, int>, calls: map<nat, Process>)

  datatype Event =
    | Tick(elapsed: nat)
    | Create(upload: nat, extension: string, expectedSize: nat, createdAt: int)
    | StartReceive(call: nat, upload: nat)
    | Admit(call: nat)
    | Publish(call: nat, bytes: Bytes)
    | StartComplete(call: nat, upload: nat)
    | CheckLifetime(call: nat)
    | Stat(call: nat)
    | Inspect(call: nat, split: seq<Bytes>)
    | Stamp(call: nat)
    | Finalize(call: nat, artifact: nat)
    | Mark(call: nat)
    | StartCleanup(call: nat, olderThan: Option<int>)
    | ListCandidates(call: nat, listed: seq<nat>)
    | TakeCandidate(call: nat)
    | DeleteObject(call: nat, fails: bool)
    | RemoveRow(call: nat)
    | Abort(call: nat)

  predicate Terminal(status: Status) { status == Failed || status == Expired }

  // ---------------------------------------------------------------- repository transitions

  /** PENDING to a terminal status, only while still pending. */
  function MarkedIfPending(rows: map<nat, Row>, upload: nat, status: Status): map<nat, Row> {
    if upload in rows && rows[upload].status == Pending then rows[upload := rows[upload].(status := status)] else rows
  }

  predicate CanFinalize(rows: map<nat, Row>, upload: nat, notOlderThan: int) {
    upload in rows && rows[upload].status == Pending && rows[upload].createdAt >= notOlderThan
  }

  predicate IsCandidate(row: Row, pendingBefore: int, terminalBefore: int) {
    || (row.status == Pending && row.createdAt < pendingBefore)
    || (Terminal(row.status) && row.createdAt < terminalBefore)
  }

  function CandidatesOf(rows: map<nat, Row>, listed: seq<nat>): seq<Candidate>
    requires forall u :: u in listed ==> u in rows
  {
    seq(|listed|, i requires 0 <= i < |listed| => Candidate(listed[i], rows[listed[i]].status, rows[listed[i]].createdAt))
  }

  /** The grace that retains terminal rows: the target lifetime plus the receive window,
      unless the caller asked for a shorter age. */
  function DeletionGrace(cfg: Config, olderThan: Option<int>): int {
    var full := cfg.targetTtl + cfg.receiveTimeout;
    if olderThan.Some? && olderThan.value < full then olderThan.value else full
  }

  function ClaimOf(cfg: Config, row: Row, declared: nat): Claim {
    Claim(row.extension, row.expectedSize, cfg.maxBytes, Some(declared))
  }

  // ---------------------------------------------------------------- steps

  /** One step of the receive call `c`. */
  function ReceiveStep(cfg: Config, s: State, e: Event, c: Process): State {
    match e
    case Admit(call) =>
      if !c.ReceiveLoaded? then s
      else if s.now - c.row.createdAt > cfg.lifetime then s.(calls := s.calls[call := Marking(c.upload, Expired)])
      else if s.now > c.row.createdAt + cfg.targetTtl then s.(calls := s.calls - {call})
      else s.(calls := s.calls[call := Receiving(c.upload, c.row, s.now)])
    case Publish(call, bytes) =>
      if !c.Receiving? then s
      else if |bytes| > cfg.maxBytes || c.upload in s.objects then s.(calls := s.calls - {call})
      else s.(objects := s.objects[c.upload := bytes], calls := s.calls - {call})
    case _ => s
  }

  /** One step of the complete call `c`. */
  function CompleteStep(cfg: Config, s: State, e: Event, c: Process): State {
    match e
    case CheckLifetime(call) =>
      if !c.CompleteLoaded? then s
      else if s.now - c.row.createdAt > cfg.lifetime then s.(calls := s.calls[call := Marking(c.upload, Expired)])
      else s.(calls := s.calls[call := CompleteAlive(c.upload, c.row)])
    case Stat(call) =>
      if !c.CompleteAlive? then s
      else if c.upload !in s.objects || |s.objects[c.upload]| > cfg.maxBytes then s.(calls := s.calls[call := Marking(c.upload, Failed)])
      else s.(calls := s.calls[call := CompleteStatted(c.upload, c.row, |s.objects[c.upload]|)])
    case Inspect(call, split) =>
      if !c.CompleteStatted? then s
      else if c.upload !in s.objects then s.(calls := s.calls - {call})
      else if Joined(split) != s.objects[c.upload] then s
      else
        var verdict := Verdict(cfg.tools, cfg.registry, ClaimOf(cfg, c.row, c.storedSize), split);
        if verdict.Err? then s.(calls := s.calls[call := Marking(c.upload, Failed)])
        else s.(calls := s.calls[call := CompleteInspected(c.upload, c.row, s.objects[c.upload], verdict.value)])
    case Stamp(call) =>
      if !c.CompleteInspected? then s
      else s.(calls := s.calls[call := CompleteStamped(c.upload, c.row, c.content, c.inspected, s.now - cfg.lifetime)])
    case Finalize(call, artifact) =>
      if !c.CompleteStamped? || artifact in s.artifacts then s
      else if CanFinalize(s.rows, c.upload, c.notOlderThan) then
        var outcome := Outcome(c.inspected, artifact);
        s.(rows := s.rows[c.upload := s.rows[c.upload].(status := Ready, outcome := Some(outcome))],
           artifacts := s.artifacts[artifact := Artifact(c.upload, c.inspected)],
           calls := s.calls[call := Completed(c.upload, outcome)])
      else if c.upload in s.rows && s.rows[c.upload].status == Ready && s.rows[c.upload].outcome.Some? then
        s.(calls := s.calls[call := Completed(c.upload, s.rows[c.upload].outcome.value)])
      else s.(calls := s.calls - {call})
    case _ => s
  }

  /** One step of the cleanup call `c`. */
  function CleanupStep(cfg: Config, s: State, e: Event, c: Process): State {
    match e
    case ListCandidates(call, listed) =>
      if !c.CleanupTimed? then s
      else if !(forall u :: u in listed ==> u in s.rows && IsCandidate(s.rows[u], c.pendingBefore, c.terminalBefore)) then s
      else s.(calls := s.calls[call := CleanupReady(c.terminalBefore, CandidatesOf(s.rows, listed), 0)])
    case TakeCandidate(call) =>
      if !c.CleanupReady? then s
      else if c.queue == [] then s.(calls := s.calls[call := CleanupDone(c.discarded)])
      else
        var head := c.queue[0];
        var skipped := CleanupReady(c.terminalBefore, c.queue[1..], c.discarded);
        var deleting := CleanupDeleting(c.terminalBefore, head.upload, head.createdAt, c.queue[1..], c.discarded);
        if head.status == Ready || (head.status == Pending && !(head.upload in s.rows && s.rows[head.upload].status == Pending)) then
          s.(calls := s.calls[call := skipped])
        else
          var rows := if head.status == Pending then MarkedIfPending(s.rows, head.upload, Expired) else s.rows;
          s.(rows := rows, calls := s.calls[call := if head.createdAt >= c.terminalBefore then skipped else deleting])
    case DeleteObject(call, fails) =>
      if !c.CleanupDeleting? then s
      else if fails then s.(calls := s.calls[call := CleanupReady(c.terminalBefore, c.queue, c.discarded)])
      else s.(objects := s.objects - {c.upload},
              calls := s.calls[call := CleanupRemoving(c.terminalBefore, c.upload, c.createdAt, c.queue, c.discarded)])
    case RemoveRow(call) =>
      if !c.CleanupRemoving? then s
      else if c.upload in s.rows && Terminal(s.rows[c.upload].status) then
        s.(rows := s.rows - {c.upload}, retired := s.retired[c.upload := s.rows[c.upload].createdAt],
           calls := s.calls[call := CleanupReady(c.terminalBefore, c.queue, c.discarded + 1)])
      else s.(calls := s.calls[call := CleanupReady(c.terminalBefore, c.queue, c.discarded)])
    case _ => s
  }

  function CallOf(e: Event): nat
    requires !e.Tick? && !e.Create?
  {
    e.call
  }

  /** A step whose guard fails leaves the state alone. */
  function Next(cfg: Config, s: State, e: Event): State {
    match e
    case Tick(elapsed) => s.(now := s.now + elapsed)
    case Create(upload, extension, expectedSize, createdAt) =>
      if upload in s.rows || upload in s.retired || createdAt > s.now then s
      else s.(rows := s.rows[upload := Row(Pending, createdAt, extension, expectedSize, None)])
    case StartReceive(call, upload) =>
      if call in s.calls || upload !in s.rows || s.rows[upload].status != Pending then s
      else s.(calls := s.calls[call := ReceiveLoaded(upload, s.rows[upload])])
    case StartComplete(call, upload) =>
      if call in s.calls || upload !in s.rows then s
      else if s.rows[upload].status == Ready && s.rows[upload].outcome.Some? then
        s.(calls := s.calls[call := Completed(upload, s.rows[upload].outcome.value)])
      else if s.rows[upload].status != Pending then s
      else s.(calls := s.calls[call := CompleteLoaded(upload, s.rows[upload])])
    case StartCleanup(call, olderThan) =>
      if call in s.calls then s
      else
        var age := if olderThan.Some? then olderThan.value else cfg.lifetime;
        s.(calls := s.calls[call := CleanupTimed(s.now - age, s.now - DeletionGrace(cfg, olderThan))])
    case Mark(call) =>
      if call !in s.calls || !s.calls[call].Marking? then s
      else s.(rows := MarkedIfPending(s.rows, s.calls[call].upload, s.calls[call].status), calls := s.calls - {call})
    case Abort(call) => s.(calls := s.calls - {call})
    case _ =>
      if CallOf(e) !in s.calls then s
      else
        var c := s.calls[CallOf(e)];
        if e.Admit? || e.Publish? then ReceiveStep(cfg, s, e, c)
        else if e.ListCandidates? || e.TakeCandidate? || e.DeleteObject? || e.RemoveRow? then CleanupStep(cfg, s, e, c)
        else CompleteStep(cfg, s, e, c)
  }

  function Run(cfg: Config, s: State, events: seq<Event>): State
    decreases |events|
  {
    if events == [] then s else Next(cfg, Run(cfg, s, events[..|events| - 1]), events[|events| - 1])
  }

  function Initial(now: int): State { State(now, map[], map[], map[], map[], map[]) }
}
