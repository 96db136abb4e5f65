/** A run that nobody cancels ends with its child's result and gives its permit back. */
module SubprocessProgress {
  import opened Text
  import opened SubprocessModel

  function RunTo(s: State, events: seq<Event>): Option<State> {
    if events == [] then Some(s)
    else
      var before := RunTo(s, events[..|events| - 1]);
      if before.None? then None else Next(before.value, events[|events| - 1])
  }

  const LAST := 13

  /** The events of one run under token `t`, in order. */
  function HappyEvent(r: RunId, t: TokenId, k: nat): Event {
    if k == 0 then Start(r, Some(t)) else if k == 7 then ChildExits(r) else Advance(r, NoTrouble)
  }

  function HappyPhase(k: nat): Phase {
    match k
    case 0 => Checking
    case 1 => Checking
    case 2 => Acquiring
    case 3 => Admitted
    case 4 => Spawning
    case 5 => Spawned
    case 6 => Attaching
    case 7 => Waiting
    case 8 => Waiting
    case 9 => Killing
    case 10 => Reaping
    case 11 => Detaching
    case 12 => FinalCheck
    case 13 => Releasing(Completed)
    case _ => Ended(Completed)
  }

  /** The state before event `k`. */
  function Happy(s: State, r: RunId, t: TokenId, k: nat): State
    requires t in s.tokens
  {
    State(
      if 3 <= k <= LAST then s.free - 1 else s.free,
      if k == 0 then s.runs else s.runs[r := Run(Some(t), HappyPhase(k), NoTrouble)],
      if k == 6 then s.tokens[t := s.tokens[t].(process := Some(r), lock := HeldByRun)]
      else if 7 <= k <= 11 then s.tokens[t := s.tokens[t].(process := Some(r))]
      else s.tokens,
      if k < 5 then s.children else s.children[r := Child(k < 8, k >= 10, k >= 11)])
  }

  /** A fresh run and a free permit under an idle token that is not cancelled. */
  ghost predicate Ready(s: State, r: RunId, t: TokenId) {
    && r !in s.runs && r !in s.children && s.free > 0
    && t in s.tokens && s.tokens[t] == Token(false, None, Free) && TokenIdle(s, t)
  }

  lemma {:induction false} Admitting(s: State, r: RunId, t: TokenId, k: nat)
    requires Ready(s, r, t) && k < 5
    ensures Next(Happy(s, r, t, k), HappyEvent(r, t, k)) == Some(Happy(s, r, t, k + 1))
  {
    assert s.runs[r := Run(Some(t), HappyPhase(k), NoTrouble)][r := Run(Some(t), HappyPhase(k + 1), NoTrouble)]
        == s.runs[r := Run(Some(t), HappyPhase(k + 1), NoTrouble)];
  }

  lemma {:induction false} Supervising(s: State, r: RunId, t: TokenId, k: nat)
    requires Ready(s, r, t) && 5 <= k < 9
    ensures Next(Happy(s, r, t, k), HappyEvent(r, t, k)) == Some(Happy(s, r, t, k + 1))
  {
    var x, y := Happy(s, r, t, k), Happy(s, r, t, k + 1);
    assert s.runs[r := Run(Some(t), HappyPhase(k), NoTrouble)][r := Run(Some(t), HappyPhase(k + 1), NoTrouble)]
        == s.runs[r := Run(Some(t), HappyPhase(k + 1), NoTrouble)];
    assert x.tokens[t := y.tokens[t]] == y.tokens;
    assert x.children[r := y.children[r]] == y.children;
  }

  lemma {:induction false} Leaving(s: State, r: RunId, t: TokenId, k: nat)
    requires Ready(s, r, t) && 9 <= k <= LAST
    ensures Next(Happy(s, r, t, k), HappyEvent(r, t, k)) == Some(Happy(s, r, t, k + 1))
  {
    var x, y := Happy(s, r, t, k), Happy(s, r, t, k + 1);
    assert s.runs[r := Run(Some(t), HappyPhase(k), NoTrouble)][r := Run(Some(t), HappyPhase(k + 1), NoTrouble)]
        == s.runs[r := Run(Some(t), HappyPhase(k + 1), NoTrouble)];
    assert x.tokens[t := y.tokens[t]] == y.tokens;
    assert x.children[r := y.children[r]] == y.children;
  }

  function HappyRun(r: RunId, t: TokenId, k: nat): seq<Event> { seq(k, i requires 0 <= i < k => HappyEvent(r, t, i)) }

  lemma {:induction false} HappyLeads(s: State, r: RunId, t: TokenId, k: nat)
    requires Ready(s, r, t) && k <= LAST + 1
    ensures RunTo(s, HappyRun(r, t, k)) == Some(Happy(s, r, t, k))
  {
    if k > 0 {
      HappyLeads(s, r, t, k - 1);
      assert HappyRun(r, t, k)[..k - 1] == HappyRun(r, t, k - 1);
      if k - 1 < 5 { Admitting(s, r, t, k - 1); } else if k - 1 < 9 { Supervising(s, r, t, k - 1); } else { Leaving(s, r, t, k - 1); }
    }
  }

  /** The whole run: it returns its child's result, the child was waited for, the permit and
      the token are free again, and no other run was touched. */
  lemma {:induction false} UndisturbedRunCompletes(s: State, r: RunId, t: TokenId)
    requires Ready(s, r, t)
    ensures RunTo(s, HappyRun(r, t, LAST + 1))
         == Some(State(s.free, s.runs[r := Run(Some(t), Ended(Completed), NoTrouble)], s.tokens, s.children[r := Child(false, true, true)]))
  {
    HappyLeads(s, r, t, LAST + 1);
  }
}
