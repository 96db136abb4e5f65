/** Draining a child's pipe while keeping only its beginning
    (libs/core/src/grafy_core/bounded_subprocess.py:217-226). */
module CapturedOutput {
  import opened Artifacts
  import opened Inspection

  lemma {:induction false} TakeGrows(whole: Bytes, chunk: Bytes, limit: nat)
    ensures (whole + chunk)[..Min(limit, |whole| + |chunk|)]
         == whole[..Min(limit, |whole|)] + chunk[..Min(|chunk|, if limit > |whole| then limit - |whole| else 0)]
  {
    var taken := Min(limit, |whole| + |chunk|);
    if limit >= |whole| {
      assert (whole + chunk)[..taken] == whole + chunk[..taken - |whole|];
      assert whole[..|whole|] == whole;
    } else {
      assert chunk[..0] == [];
    }
  }

  /** The first bytes of the stream up to the limit, whatever the sizes of the reads; the
      pipe is read to its end either way. */
  method ReadBounded(reading: seq<Bytes>, limit: nat) returns (value: Bytes, truncated: bool, consumed: nat)
    ensures var whole := Inspection.Joined(Delivered(reading));
            && value == whole[..Min(limit, |whole|)]
            && truncated == (|whole| > limit)
            && consumed == |Delivered(reading)|
  {
    value, truncated, consumed := [], false, 0;
    ghost var whole: Bytes := [];
    while consumed < |reading| && reading[consumed] != []
      invariant consumed <= |reading| && forall i :: 0 <= i < consumed ==> reading[i] != []
      invariant whole == Inspection.Joined(reading[..consumed])
      invariant value == whole[..Min(limit, |whole|)] && truncated == (|whole| > limit)
    {
      var chunk := reading[consumed];
      var remaining := limit - |value|;
      var captured := Min(|chunk|, if remaining > 0 then remaining else 0);
      TakeGrows(whole, chunk, limit);
      value := value + chunk[..captured];
      if captured < |chunk| {
        truncated := true;
      }
      assert reading[..consumed + 1][..consumed] == reading[..consumed];
      whole := whole + chunk;
      consumed := consumed + 1;
    }
    DeliveredStops(reading, consumed);
  }
}
