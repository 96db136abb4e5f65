/** Walking up a parent relation, given as a function from a name to its parent. */
module ParentChains {
  import opened Text

  type Parent = string -> Option<string>

  function Step(parent: Parent, current: Option<string>): Option<string> {
    if current.None? then None else parent(current.value)
  }

  /** `n` steps towards the root. */
  function Up(parent: Parent, current: Option<string>, n: nat): Option<string> {
    if n == 0 then current else Step(parent, Up(parent, current, n - 1))
  }

  lemma {:induction false} UpAdds(parent: Parent, current: Option<string>, m: nat, n: nat)
    ensures Up(parent, Up(parent, current, m), n) == Up(parent, current, m + n)
  {
    if n > 0 { UpAdds(parent, current, m, n - 1); }
  }

  lemma {:induction false} UpStaysAtTop(parent: Parent, current: Option<string>, m: nat, n: nat)
    requires m <= n && Up(parent, current, m) == None
    ensures Up(parent, current, n) == None
  {
    if m < n { UpStaysAtTop(parent, current, m, n - 1); }
  }

  /** The chain has revisited a name: it never leaves the names already seen. */
  lemma {:induction false} UpRepeats(parent: Parent, current: Option<string>, j: nat, k: nat, n: nat) returns (i: nat)
    requires j < k && Up(parent, current, k) == Up(parent, current, j)
    ensures i < k && Up(parent, current, n) == Up(parent, current, i)
  {
    if n < k {
      i := n;
    } else {
      var before := UpRepeats(parent, current, j, k, n - 1);
      assert Up(parent, current, n) == Up(parent, current, before + 1);
      i := if before + 1 < k then before + 1 else j;
    }
  }

  /** A chain that has ended or repeated without meeting `id` never meets it. */
  lemma {:induction false} NeverMet(parent: Parent, current: Option<string>, id: string, j: nat, k: nat, n: nat)
    requires forall i :: 0 <= i < k ==> Up(parent, current, i) != Some(id)
    requires Up(parent, current, k) == None || (j < k && Up(parent, current, j) == Up(parent, current, k))
    ensures Up(parent, current, n) != Some(id)
  {
    if Up(parent, current, k) == None {
      if k <= n { UpStaysAtTop(parent, current, k, n); }
    } else {
      var i := UpRepeats(parent, current, j, k, n);
    }
  }

  lemma {:induction false} Loops(parent: Parent, current: Option<string>, n: nat, times: nat)
    requires n >= 1 && Up(parent, current, n) == current
    ensures times * n >= times && Up(parent, current, times * n) == current
  {
    if times > 0 {
      Loops(parent, current, n, times - 1);
      UpAdds(parent, current, (times - 1) * n, n);
      assert times * n == (times - 1) * n + n;
    }
  }

  ghost predicate ReachesRoot(parent: Parent, current: Option<string>) { exists n: nat :: Up(parent, current, n) == None }

  /** What reaches a root does not lie below itself. */
  lemma {:induction false} NeverBelowItself(parent: Parent, x: string, n: nat)
    requires ReachesRoot(parent, Some(x)) && n >= 1
    ensures Up(parent, Some(x), n) != Some(x)
  {
    var m: nat :| Up(parent, Some(x), m) == None;
    if Up(parent, Some(x), n) == Some(x) {
      Loops(parent, Some(x), n, m);
      UpStaysAtTop(parent, Some(x), m, m * n);
    }
  }

  lemma {:induction false} FirstStep(parent: Parent, current: Option<string>, n: nat)
    ensures Up(parent, current, n + 1) == Up(parent, Step(parent, current), n)
  {
    UpAdds(parent, current, 1, n);
    assert Up(parent, current, 0) == current;
  }

  // ---------------------------------------------------------------- changing one parent

  /** `after` gives every name but `id` the parent that `before` gives it. */
  ghost predicate SameBut(before: Parent, after: Parent, id: string) {
    forall x :: x != id ==> after(x) == before(x)
  }

  lemma {:induction false} AvoidedChainStays(before: Parent, after: Parent, id: string, current: Option<string>, n: nat)
    requires SameBut(before, after, id) && forall k: nat :: Up(before, current, k) != Some(id)
    ensures Up(after, current, n) == Up(before, current, n)
  {
    if n > 0 { AvoidedChainStays(before, after, id, current, n - 1); }
  }

  /** If the new parent of `id` reaches a root, everything that reached a root still does. */
  lemma {:induction false} StillReaches(before: Parent, after: Parent, id: string, current: Option<string>, n: nat)
    requires SameBut(before, after, id) && ReachesRoot(after, after(id)) && Up(before, current, n) == None
    ensures ReachesRoot(after, current)
    decreases n
  {
    if current.None? {
      assert Up(after, current, 0) == None;
    } else {
      assert n >= 1;
      FirstStep(before, current, n - 1);
      if current != Some(id) { StillReaches(before, after, id, Step(before, current), n - 1); }
      assert ReachesRoot(after, Step(after, current));
      var m: nat :| Up(after, Step(after, current), m) == None;
      FirstStep(after, current, m);
    }
  }

  /** Moving `id` below a chain that reaches a root without meeting `id` is safe. */
  lemma {:induction false} MoveReaches(before: Parent, after: Parent, id: string, x: string)
    requires SameBut(before, after, id) && ReachesRoot(before, after(id)) && (forall k: nat :: Up(before, after(id), k) != Some(id))
    requires ReachesRoot(before, Some(x))
    ensures ReachesRoot(after, Some(x))
  {
    var m: nat :| Up(before, after(id), m) == None;
    AvoidedChainStays(before, after, id, after(id), m);
    var n: nat :| Up(before, Some(x), n) == None;
    StillReaches(before, after, id, Some(x), n);
  }
}
