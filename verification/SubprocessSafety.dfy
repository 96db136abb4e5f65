/** What every interleaving of runs and cancels keeps. */
module SubprocessSafety {
  import opened Text
  import opened SubprocessModel
  import opened Sets

  // ---------------------------------------------------------------- the invariant

  predicate Holding(phase: Phase) { !phase.Checking? && !phase.Acquiring? && !phase.Ended? }

  predicate BeforeChild(phase: Phase) { phase.Checking? || phase.Acquiring? || phase.Admitted? || phase.Spawning? }

  /** The token knows the child. */
  predicate Attached(phase: Phase) { phase in {Attaching, Waiting, Killing, Reaping, Detaching} }

  function Holders(s: State): set<RunId> { set r | r in s.runs && Holding(s.runs[r].phase) }

  function Unreaped(s: State): set<RunId> { set r | r in s.children && !s.children[r].reaped }

  ghost predicate RunOk(s: State, r: RunId) {
    r in s.runs ==>
      var run := s.runs[r];
      && (run.token.Some? ==> run.token.value in s.tokens)
      && (BeforeChild(run.phase) ==> r !in s.children)
      && (NeedsChild(run.phase) ==> r in s.children && !s.children[r].reaped)
      && (run.phase.Reaping? ==> s.children[r].killed)
      && (run.phase.Detaching? || run.phase.FinalCheck? ==> r in s.children && s.children[r].reaped && s.children[r].killed)
      && (run.token.Some? && Attached(run.phase) ==> s.tokens[run.token.value].process == Some(r))
      && (run.phase.Attaching? ==> run.token.Some? && s.tokens[run.token.value].lock == HeldByRun)
  }

  ghost predicate TokenOk(s: State, t: TokenId) {
    t in s.tokens ==>
      var token := s.tokens[t];
      && (token.process.Some? ==>
            var r := token.process.value;
            && r in s.runs && s.runs[r].token == Some(t) && Attached(s.runs[r].phase) && r in s.children
            && (token.lock == HeldByRun ==> s.runs[r].phase.Attaching?)
            && (token.cancelled && token.lock == Free ==> s.children[r].killed))
      && (token.lock == HeldByRun ==> token.process.Some?)
  }

  ghost predicate ChildOk(s: State, r: RunId) {
    r in s.children ==>
      && r in s.runs
      && (!s.children[r].reaped ==> NeedsChild(s.runs[r].phase))
      && (s.children[r].reaped ==> s.children[r].killed && !s.children[r].alive)
  }

  ghost predicate OneRunPerToken(s: State) {
    forall q, r ::
      (q in s.runs && r in s.runs && Active(s.runs[q]) && Active(s.runs[r]) && s.runs[q].token.Some? && s.runs[q].token == s.runs[r].token)
      ==> q == r
  }

  ghost predicate Inv(s: State) {
    && s.free + |Holders(s)| == PERMITS && s.free >= 0
    && (forall r {:trigger RunOk(s, r)} :: RunOk(s, r))
    && (forall t {:trigger TokenOk(s, t)} :: TokenOk(s, t))
    && (forall r {:trigger ChildOk(s, r)} :: ChildOk(s, r))
    && OneRunPerToken(s)
  }

  // ---------------------------------------------------------------- steps of one run

  /** `u` differs from `s` at most in run `r`, in its child and in its token. */
  ghost predicate Touches(s: State, u: State, r: RunId) {
    && r in s.runs && r in u.runs && u.runs[r].token == s.runs[r].token
    && u.runs.Keys == s.runs.Keys && u.tokens.Keys == s.tokens.Keys
    && (forall q :: q in s.runs && q != r ==> u.runs[q] == s.runs[q])
    && (forall q :: q != r ==> (q in u.children <==> q in s.children))
    && (forall q :: q != r && q in s.children ==> u.children[q] == s.children[q])
    && (forall t :: t in s.tokens && s.runs[r].token != Some(t) ==> u.tokens[t] == s.tokens[t])
  }

  ghost predicate PermitsOk(s: State, u: State, r: RunId)
    requires r in s.runs && r in u.runs
  {
    u.free - s.free == (if Holding(s.runs[r].phase) then 1 else 0) - (if Holding(u.runs[r].phase) then 1 else 0)
  }

  lemma {:induction false} HoldersMove(s: State, u: State, r: RunId)
    requires Touches(s, u, r) && PermitsOk(s, u, r) && s.free + |Holders(s)| == PERMITS
    ensures u.free + |Holders(u)| == PERMITS
  {
    var before, after := Holders(s), Holders(u);
    if Holding(u.runs[r].phase) {
      assert after == before + {r};
    } else {
      assert after == before - {r};
    }
  }

  lemma {:induction false} OthersKeep(s: State, u: State, r: RunId, q: RunId)
    requires Touches(s, u, r) && Active(s.runs[r]) && OneRunPerToken(s) && q != r && RunOk(s, q) && ChildOk(s, q)
    ensures RunOk(u, q) && ChildOk(u, q)
  {
  }

  lemma {:induction false} OtherTokensKeep(s: State, u: State, r: RunId, t: TokenId)
    requires Touches(s, u, r) && s.runs[r].token != Some(t) && TokenOk(s, t)
    ensures TokenOk(u, t)
  {
  }

  /** A step of one run keeps the invariant if it keeps the clauses about that run. */
  lemma {:induction false} LocalStepKeeps(s: State, u: State, r: RunId)
    requires Inv(s) && Touches(s, u, r) && Active(s.runs[r]) && PermitsOk(s, u, r) && u.free >= 0
    requires RunOk(u, r) && ChildOk(u, r) && (u.runs[r].token.Some? ==> TokenOk(u, u.runs[r].token.value))
    ensures Inv(u)
  {
    HoldersMove(s, u, r);
    forall q: RunId ensures RunOk(u, q) && ChildOk(u, q) {
      assert RunOk(s, q) && ChildOk(s, q);
      if q != r { OthersKeep(s, u, r, q); }
    }
    forall t: TokenId ensures TokenOk(u, t) {
      assert TokenOk(s, t);
      if s.runs[r].token != Some(t) { OtherTokensKeep(s, u, r, t); }
    }
  }

  /** The clauses about one run. */
  ghost predicate OwnOk(s: State, r: RunId) {
    && s.free >= 0 && r in s.runs && RunOk(s, r) && ChildOk(s, r)
    && (s.runs[r].token.Some? ==> TokenOk(s, s.runs[r].token.value))
  }

  ghost predicate GoodStep(s: State, u: State, r: RunId) {
    Touches(s, u, r) && PermitsOk(s, u, r) && OwnOk(u, r)
  }

  lemma {:induction false} AdmissionTouches(s: State, r: RunId, trouble: Trouble)
    requires r in s.runs && RunOk(s, r) && BeforeChild(s.runs[r].phase) && Admission(s, r, trouble).Some?
    ensures Touches(s, Admission(s, r, trouble).value, r) && PermitsOk(s, Admission(s, r, trouble).value, r)
  {
  }

  lemma {:induction false} AdmissionIsGood(s: State, r: RunId, trouble: Trouble)
    requires OwnOk(s, r) && BeforeChild(s.runs[r].phase) && Admission(s, r, trouble).Some?
    ensures GoodStep(s, Admission(s, r, trouble).value, r)
  {
    AdmissionTouches(s, r, trouble);
  }

  lemma {:induction false} SupervisionTouches(s: State, r: RunId, trouble: Trouble)
    requires r in s.runs && RunOk(s, r) && NeedsChild(s.runs[r].phase) && r in s.children && Supervision(s, r, trouble).Some?
    ensures Touches(s, Supervision(s, r, trouble).value, r) && PermitsOk(s, Supervision(s, r, trouble).value, r)
  {
  }

  lemma {:induction false} SupervisionIsGood(s: State, r: RunId, trouble: Trouble)
    requires OwnOk(s, r) && NeedsChild(s.runs[r].phase) && Supervision(s, r, trouble).Some?
    ensures GoodStep(s, Supervision(s, r, trouble).value, r)
  {
    SupervisionTouches(s, r, trouble);
  }

  lemma {:induction false} DepartureTouches(s: State, r: RunId)
    requires r in s.runs && RunOk(s, r) && Departing(s.runs[r].phase) && Departure(s, r).Some?
    ensures Touches(s, Departure(s, r).value, r) && PermitsOk(s, Departure(s, r).value, r)
  {
  }

  lemma {:induction false} DepartureIsGood(s: State, r: RunId)
    requires OwnOk(s, r) && Departing(s.runs[r].phase) && Departure(s, r).Some?
    ensures GoodStep(s, Departure(s, r).value, r)
  {
    DepartureTouches(s, r);
  }

  lemma {:induction false} AdvanceKeeps(s: State, r: RunId, trouble: Trouble)
    requires Inv(s) && Next(s, Advance(r, trouble)).Some?
    ensures Inv(Next(s, Advance(r, trouble)).value)
  {
    assert RunOk(s, r) && ChildOk(s, r);
    if s.runs[r].token.Some? { assert TokenOk(s, s.runs[r].token.value); }
    if NeedsChild(s.runs[r].phase) {
      SupervisionIsGood(s, r, trouble);
    } else if Departing(s.runs[r].phase) {
      DepartureIsGood(s, r);
    } else {
      AdmissionIsGood(s, r, trouble);
    }
    LocalStepKeeps(s, Next(s, Advance(r, trouble)).value, r);
  }

  // ---------------------------------------------------------------- the other events

  /** `u` has the runs of `s`; children may have been killed or have exited, tokens changed. */
  ghost predicate SameRuns(s: State, u: State) {
    && u.free == s.free && u.runs == s.runs && u.children.Keys == s.children.Keys
    && forall r :: r in s.children ==>
        u.children[r].reaped == s.children[r].reaped && (s.children[r].killed ==> u.children[r].killed)
            && (u.children[r].alive ==> s.children[r].alive)
  }

  lemma {:induction false} SameRunsKeep(s: State, u: State)
    requires Inv(s) && SameRuns(s, u) && s.tokens.Keys <= u.tokens.Keys
    requires forall t :: t in s.tokens ==>
               && u.tokens[t].process == s.tokens[t].process
               && (s.tokens[t].lock == HeldByRun ==> u.tokens[t].lock == HeldByRun)
    requires forall t {:trigger TokenOk(u, t)} :: TokenOk(u, t)
    ensures Inv(u)
  {
    assert Holders(u) == Holders(s);
    forall r: RunId ensures RunOk(u, r) && ChildOk(u, r) { assert RunOk(s, r) && ChildOk(s, r); }
  }

  lemma {:induction false} ChildExitKeeps(s: State, r: RunId)
    requires Inv(s) && Next(s, ChildExits(r)).Some?
    ensures Inv(Next(s, ChildExits(r)).value)
  {
    var u := Next(s, ChildExits(r)).value;
    forall t: TokenId ensures TokenOk(u, t) { assert TokenOk(s, t); }
    SameRunsKeep(s, u);
  }

  lemma {:induction false} CancelKeeps(s: State, e: Event)
    requires Inv(s) && (e.CancelBegins? || e.CancelEnds? || e.NewToken?) && Next(s, e).Some?
    ensures Inv(Next(s, e).value)
  {
    var u := Next(s, e).value;
    forall t: TokenId ensures TokenOk(u, t) { assert TokenOk(s, t); }
    SameRunsKeep(s, u);
  }

  lemma {:induction false} StartKeeps(s: State, r: RunId, token: Option<TokenId>)
    requires Inv(s) && Next(s, Start(r, token)).Some?
    ensures Inv(Next(s, Start(r, token)).value)
  {
    var u := Next(s, Start(r, token)).value;
    assert Holders(u) == Holders(s);
    forall q: RunId ensures RunOk(u, q) && ChildOk(u, q) { assert RunOk(s, q) && ChildOk(s, q); }
    forall t: TokenId ensures TokenOk(u, t) { assert TokenOk(s, t); }
  }

  lemma {:induction false} NextKeeps(s: State, e: Event)
    requires Inv(s) && Next(s, e).Some?
    ensures Inv(Next(s, e).value)
  {
    match e
    case Start(r, token) => StartKeeps(s, r, token);
    case Advance(r, trouble) => AdvanceKeeps(s, r, trouble);
    case ChildExits(r) => ChildExitKeeps(s, r);
    case _ => CancelKeeps(s, e);
  }

  lemma {:induction false} ExecutionKeeps(states: seq<State>, events: seq<Event>, n: nat)
    requires Execution(states, events) && n < |states|
    ensures Inv(states[n])
  {
    if n > 0 {
      ExecutionKeeps(states, events, n - 1);
      assert Follows(states, events, n - 1);
      NextKeeps(states[n - 1], events[n - 1]);
    } else {
      assert Holders(Initial()) == {};
    }
  }

  // ---------------------------------------------------------------- safety over executions

  /** Permits are conserved, and at most two children have not been waited for. */
  lemma {:induction false} PermitsBoundChildren(states: seq<State>, events: seq<Event>, n: nat)
    requires Execution(states, events) && n < |states|
    ensures states[n].free + |Holders(states[n])| == PERMITS && 0 <= states[n].free <= PERMITS
    ensures |Unreaped(states[n])| <= PERMITS
  {
    var s := states[n];
    ExecutionKeeps(states, events, n);
    forall r | r in Unreaped(s) ensures r in Holders(s) { assert ChildOk(s, r); }
    SubsetSize(Unreaped(s), Holders(s));
  }

  /** Whichever side comes second kills: once a token is cancelled and neither side holds
      its lock, a child that its run has attached is killed. */
  lemma {:induction false} CancelledChildIsKilled(states: seq<State>, events: seq<Event>, n: nat, r: RunId)
    requires Execution(states, events) && n < |states|
    requires r in states[n].runs && Attached(states[n].runs[r].phase) && IsCancelled(states[n], states[n].runs[r].token)
    requires LockFree(states[n], states[n].runs[r].token)
    ensures r in states[n].children && states[n].children[r].killed
  {
    ExecutionKeeps(states, events, n);
    assert RunOk(states[n], r) && TokenOk(states[n], states[n].runs[r].token.value);
  }

  /** A call gives its permit back only after its child was killed and waited for. */
  lemma {:induction false} EndedChildIsReaped(states: seq<State>, events: seq<Event>, n: nat, r: RunId)
    requires Execution(states, events) && n < |states| && r in states[n].runs && r in states[n].children
    requires !NeedsChild(states[n].runs[r].phase)
    ensures states[n].children[r].reaped && states[n].children[r].killed && !states[n].children[r].alive
  {
    ExecutionKeeps(states, events, n);
    assert ChildOk(states[n], r);
  }

  predicate Decided(phase: Phase) { phase.Releasing? || phase.Ended? }

  function OutcomeOf(phase: Phase): Outcome
    requires Decided(phase)
  {
    if phase.Releasing? then phase.outcome else phase.result
  }

  /** No result: neither a return value nor a time-limit report. */
  ghost predicate NoResult(phase: Phase) { Decided(phase) ==> OutcomeOf(phase) != Completed && OutcomeOf(phase) != TimedOut }

  lemma {:induction false} CancelledStepNoResult(s: State, r: RunId, trouble: Trouble)
    requires Next(s, Advance(r, trouble)).Some? && IsCancelled(s, s.runs[r].token) && NoResult(s.runs[r].phase)
    ensures var u := Next(s, Advance(r, trouble)).value;
            r in u.runs && NoResult(u.runs[r].phase)
  {
  }

  lemma {:induction false} CancelSticks(s: State, e: Event, r: RunId)
    requires Next(s, e).Some? && r in s.runs && IsCancelled(s, s.runs[r].token) && NoResult(s.runs[r].phase)
    ensures var u := Next(s, e).value;
            r in u.runs && u.runs[r].token == s.runs[r].token && IsCancelled(u, u.runs[r].token) && NoResult(u.runs[r].phase)
  {
    CancelledStep(s, e, r);
    if e.Advance? && e.r == r { CancelledStepNoResult(s, r, e.trouble); }
  }

  /** A call that has not passed its final check when its token is cancelled never returns
      a result, however the rest of the execution goes. */
  lemma {:induction false} CancelledRunHasNoResult(states: seq<State>, events: seq<Event>, m: nat, n: nat, r: RunId)
    requires Execution(states, events) && m <= n < |states|
    requires r in states[m].runs && IsCancelled(states[m], states[m].runs[r].token) && !Decided(states[m].runs[r].phase)
    ensures r in states[n].runs && states[n].runs[r].token == states[m].runs[r].token
    ensures IsCancelled(states[n], states[n].runs[r].token) && NoResult(states[n].runs[r].phase)
    decreases n
  {
    if m < n {
      CancelledRunHasNoResult(states, events, m, n - 1, r);
      assert Follows(states, events, n - 1);
      CancelSticks(states[n - 1], events[n - 1], r);
    }
  }

  // ---------------------------------------------------------------- progress after a cancel

  /** How many more steps of its own a cancelled call can take. */
  function Rank(phase: Phase): nat {
    match phase
    case Acquiring => 12
    case Checking => 1
    case Admitted => 11
    case Spawning => 10
    case Spawned => 9
    case Attaching => 8
    case Waiting => 7
    case Killing => 6
    case Reaping => 5
    case Detaching => 4
    case FinalCheck => 3
    case Releasing(_) => 2
    case Ended(_) => 0
  }

  function OwnSteps(events: seq<Event>, from: nat, to: nat, r: RunId): nat
    requires from <= to <= |events|
  {
    if from == to then 0 else OwnSteps(events, from, to - 1, r) + if events[to - 1].Advance? && events[to - 1].r == r then 1 else 0
  }

  lemma {:induction false} CancelledOwnStep(s: State, r: RunId, trouble: Trouble)
    requires Next(s, Advance(r, trouble)).Some? && IsCancelled(s, s.runs[r].token)
    ensures var u := Next(s, Advance(r, trouble)).value;
            r in u.runs && u.runs[r].token == s.runs[r].token && IsCancelled(u, s.runs[r].token)
                && Rank(u.runs[r].phase) < Rank(s.runs[r].phase)
  {
  }

  lemma {:induction false} CancelledStep(s: State, e: Event, r: RunId)
    requires Next(s, e).Some? && r in s.runs && IsCancelled(s, s.runs[r].token)
    ensures r in Next(s, e).value.runs && Next(s, e).value.runs[r].token == s.runs[r].token
    ensures IsCancelled(Next(s, e).value, s.runs[r].token)
    ensures if e.Advance? && e.r == r then Rank(Next(s, e).value.runs[r].phase) < Rank(s.runs[r].phase)
            else Next(s, e).value.runs[r] == s.runs[r]
  {
    if e.Advance? && e.r == r { CancelledOwnStep(s, r, e.trouble); }
  }

  lemma {:induction false} CancelledStepAt(states: seq<State>, events: seq<Event>, n: nat, r: RunId)
    requires Execution(states, events) && n < |events| && r in states[n].runs && IsCancelled(states[n], states[n].runs[r].token)
    ensures r in states[n + 1].runs && states[n + 1].runs[r].token == states[n].runs[r].token
    ensures IsCancelled(states[n + 1], states[n + 1].runs[r].token)
    ensures Rank(states[n + 1].runs[r].phase) + OwnSteps(events, n, n + 1, r) <= Rank(states[n].runs[r].phase)
  {
    assert Follows(states, events, n);
    CancelledStep(states[n], events[n], r);
  }

  /** After its token is cancelled, a call takes at most twelve more steps. */
  lemma {:induction false} CancelledRunEndsSoon(states: seq<State>, events: seq<Event>, m: nat, n: nat, r: RunId)
    requires Execution(states, events) && m <= n < |states| && r in states[m].runs && IsCancelled(states[m], states[m].runs[r].token)
    ensures r in states[n].runs && states[n].runs[r].token == states[m].runs[r].token && IsCancelled(states[n], states[n].runs[r].token)
    ensures OwnSteps(events, m, n, r) + Rank(states[n].runs[r].phase) <= Rank(states[m].runs[r].phase) <= 12
    decreases n
  {
    if m < n {
      CancelledRunEndsSoon(states, events, m, n - 1, r);
      CancelledStepAt(states, events, n - 1, r);
    }
  }

  /** A cancelled call that has not ended can step, or a cancel is about to let go of its
      lock, or its child has been killed and is about to exit: it never waits for a permit
      and never waits out a child that nobody killed. */
  lemma {:induction false} CancelledRunIsNotStuck(states: seq<State>, events: seq<Event>, n: nat, r: RunId)
    requires Execution(states, events) && n < |states| && r in states[n].runs && Active(states[n].runs[r])
    requires IsCancelled(states[n], states[n].runs[r].token)
    ensures var s := states[n];
            || Next(s, Advance(r, NoTrouble)).Some?
            || Next(s, CancelEnds(s.runs[r].token.value)).Some?
            || (r in s.children && s.children[r].killed && Next(s, ChildExits(r)).Some?)
  {
    var s := states[n];
    ExecutionKeeps(states, events, n);
    assert RunOk(s, r) && ChildOk(s, r) && TokenOk(s, s.runs[r].token.value);
    if s.tokens[s.runs[r].token.value].lock == HeldByRun { OnlyAttachingHolds(s, r); }
  }

  /** A lock held by a run is held by the run itself, while it attaches. */
  lemma {:induction false} OnlyAttachingHolds(s: State, r: RunId)
    requires Inv(s) && r in s.runs && Active(s.runs[r]) && s.runs[r].token.Some? && s.runs[r].token.value in s.tokens
    requires s.tokens[s.runs[r].token.value].lock == HeldByRun
    ensures s.runs[r].phase == Attaching
  {
    assert TokenOk(s, s.runs[r].token.value);
  }
}
