/** Native work in bounded subprocesses (libs/core/src/grafy_core/bounded_subprocess.py): any
    number of `run` and `cancel` calls interleave over two permits. Every step below is one
    atomic action of one thread; the lock of a cancellation token is explicit, so a cancel
    and an attach can each be caught between their two actions. */
module SubprocessModel {
  import opened Text

  const PERMITS := 2

  type RunId = nat
  type TokenId = nat

  datatype Outcome = Cancelled | SpawnFailed | Raised | TimedOut | Completed

  /** Where a call of `run` stands; the name is the action it takes next. */
  datatype Phase =
    | Checking              // top of the admission loop
    | Acquiring
    | Admitted              // permit held, flag not yet checked again
    | Spawning
    | Spawned               // child exists, token does not know it
    | Attaching             // token lock held, child published
    | Waiting
    | Killing
    | Reaping
    | Detaching
    | FinalCheck
    | Releasing(outcome: Outcome)
    | Ended(result: Outcome)

  datatype Trouble = NoTrouble | Timeout | Failure

  datatype Run = Run(token: Option<TokenId>, phase: Phase, trouble: Trouble)

  datatype Lock = Free | HeldByRun | HeldByCancel

  datatype Token = Token(cancelled: bool, process: Option<RunId>, lock: Lock)

  datatype Child = Child(alive: bool, killed: bool, reaped: bool)

  datatype State = State(free: int, runs: map<RunId, Run>, tokens: map<TokenId, Token>, children: map<RunId, Child>)

  function Initial(): State { State(PERMITS, map[], map[], map[]) }

  datatype Event =
    | NewToken(t: TokenId)
    | Start(r: RunId, token: Option<TokenId>)
    | Advance(r: RunId, trouble: Trouble)
    | ChildExits(r: RunId)
    | CancelBegins(t: TokenId)
    | CancelEnds(t: TokenId)

  predicate Active(run: Run) { !run.phase.Ended? }

  predicate IsCancelled(s: State, token: Option<TokenId>) {
    token.Some? && token.value in s.tokens && s.tokens[token.value].cancelled
  }

  predicate LockFree(s: State, token: Option<TokenId>) {
    token.Some? ==> token.value in s.tokens && s.tokens[token.value].lock == Free
  }

  /** A token serves one call at a time: it lives in the context of one worker thread. */
  predicate TokenIdle(s: State, t: TokenId) {
    forall r :: r in s.runs && s.runs[r].token == Some(t) ==> !Active(s.runs[r])
  }

  function At(s: State, r: RunId, phase: Phase): State
    requires r in s.runs
  {
    s.(runs := s.runs[r := s.runs[r].(phase := phase)])
  }

  function Kill(s: State, r: RunId): State {
    if r in s.children then s.(children := s.children[r := s.children[r].(killed := true)]) else s
  }

  function SetToken(s: State, t: TokenId, token: Token): State { s.(tokens := s.tokens[t := token]) }

  /** Steps before a child exists. */
  function Admission(s: State, r: RunId, trouble: Trouble): Option<State>
    requires r in s.runs
  {
    var run := s.runs[r];
    match run.phase
    case Checking => Some(At(s, r, if IsCancelled(s, run.token) then Ended(Cancelled) else Acquiring))
    case Acquiring =>
      if s.free > 0 then Some(At(s.(free := s.free - 1), r, Admitted))
      else if run.token.Some? then Some(At(s, r, Checking))
      else None
    case Admitted => Some(At(s, r, if IsCancelled(s, run.token) then Releasing(Cancelled) else Spawning))
    case Spawning =>
      if trouble.Failure? then Some(At(s, r, Releasing(SpawnFailed)))
      else Some(At(s.(children := s.children[r := Child(true, false, false)]), r, Spawned))
    case _ => None
  }

  /** Steps while the child exists. */
  function Supervision(s: State, r: RunId, trouble: Trouble): Option<State>
    requires r in s.runs && r in s.children
  {
    var run := s.runs[r];
    match run.phase
    case Spawned =>
      if run.token.None? then Some(At(s, r, Waiting))
      else if !LockFree(s, run.token) then None
      else Some(At(SetToken(s, run.token.value, s.tokens[run.token.value].(process := Some(r), lock := HeldByRun)), r, Attaching))
    case Attaching =>
      if run.token.None? || run.token.value !in s.tokens then None
      else
        var token := s.tokens[run.token.value];
        var after := if token.cancelled then Kill(s, r) else s;
        Some(At(SetToken(after, run.token.value, token.(lock := Free)), r, Waiting))
    case Waiting =>
      if trouble.NoTrouble? && s.children[r].alive then None
      else Some(s.(runs := s.runs[r := run.(phase := Killing, trouble := trouble)]))
    case Killing => Some(At(Kill(s, r), r, Reaping))
    case Reaping =>
      if s.children[r].alive then None
      else Some(At(s.(children := s.children[r := s.children[r].(reaped := true)]), r, Detaching))
    case _ => None
  }

  /** Steps after the child has been waited for. */
  function Departure(s: State, r: RunId): Option<State>
    requires r in s.runs
  {
    var run := s.runs[r];
    match run.phase
    case Detaching =>
      if !LockFree(s, run.token) then None
      else
        var after := if run.token.None? then s else SetToken(s, run.token.value, s.tokens[run.token.value].(process := None));
        Some(At(after, r, if run.trouble.Failure? then Releasing(Raised) else FinalCheck))
    case FinalCheck =>
      Some(At(s, r, Releasing(if IsCancelled(s, run.token) then Cancelled else if run.trouble.Timeout? then TimedOut else Completed)))
    case Releasing(outcome) => Some(At(s.(free := s.free + 1), r, Ended(outcome)))
    case _ => None
  }

  predicate NeedsChild(phase: Phase) { phase in {Spawned, Attaching, Waiting, Killing, Reaping} }

  predicate Departing(phase: Phase) { phase.Detaching? || phase.FinalCheck? || phase.Releasing? }

  /** The state after an event, or nothing when the event cannot happen now. */
  function Next(s: State, e: Event): Option<State> {
    match e
    case NewToken(t) => if t in s.tokens then None else Some(SetToken(s, t, Token(false, None, Free)))
    case Start(r, token) =>
      if r in s.runs || (token.Some? && (token.value !in s.tokens || !TokenIdle(s, token.value))) then None
      else Some(s.(runs := s.runs[r := Run(token, if token.Some? then Checking else Acquiring, NoTrouble)]))
    case Advance(r, trouble) =>
      if r !in s.runs then None
      else if NeedsChild(s.runs[r].phase) then if r in s.children then Supervision(s, r, trouble) else None
      else if Departing(s.runs[r].phase) then Departure(s, r)
      else Admission(s, r, trouble)
    case ChildExits(r) =>
      if r in s.children && s.children[r].alive then Some(s.(children := s.children[r := s.children[r].(alive := false)])) else None
    case CancelBegins(t) =>
      if t in s.tokens && s.tokens[t].lock == Free
          then Some(SetToken(s, t, s.tokens[t].(cancelled := true, lock := HeldByCancel))) else None
    case CancelEnds(t) =>
      if t in s.tokens && s.tokens[t].lock == HeldByCancel then
        var after := if s.tokens[t].process.Some? then Kill(s, s.tokens[t].process.value) else s;
        Some(SetToken(after, t, s.tokens[t].(lock := Free)))
      else None
  }

  ghost predicate Follows(states: seq<State>, events: seq<Event>, i: nat)
    requires i < |events| && |states| == |events| + 1
  {
    Next(states[i], events[i]) == Some(states[i + 1])
  }

  /** `states` is an execution: each state follows from the one before. */
  ghost predicate Execution(states: seq<State>, events: seq<Event>) {
    && |states| == |events| + 1 && states[0] == Initial()
    && forall i {:trigger Follows(states, events, i)} :: 0 <= i < |events| ==> Follows(states, events, i)
  }
}
