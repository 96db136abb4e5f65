/** Streaming inspection of stored upload bytes
    (apps/api/src/grafy_api/upload_inspection.py): one pass that counts, hashes and keeps
    a short prefix reaches the verdict of the whole file. */
module Inspection {
  import opened Text
  import opened Artifacts

  const BLOB := TypeKey("file.blob", 1)

  /** Which extension claims which type, and the rule each declared type confirms with. */
  datatype Registry = Registry(claims: map<string, TypeKey>, rules: map<TypeKey, Rule>)

  /** The two foreign computations: SHA-256, and the event parser that confirms JSON. */
  datatype Tools = Tools(sha256: Bytes -> string, json: (Rule, seq<Bytes>) -> bool)

  /** What is known about an upload before its bytes are read. */
  datatype Claim = Claim(extension: string, expectedSize: nat, maxBytes: nat, declaredSize: Option<nat>)

  datatype Inspected = Inspected(byteSize: nat, sha256: string, artifactType: TypeKey)

  datatype InspectionError = UndeclaredType | TooLarge | MetadataMismatch | SizeMismatch | FormatMismatch

  // ---------------------------------------------------------------- the whole-file verdict

  function ClaimedKey(registry: Registry, extension: string): TypeKey {
    if extension in registry.claims then registry.claims[extension] else BLOB
  }

  /** The rule that applies, None for a blob. */
  function RuleFor(registry: Registry, key: TypeKey): Result<Option<Rule>, InspectionError> {
    if key == BLOB then Ok(None)
    else if key in registry.rules then Ok(Some(registry.rules[key]))
    else Err(UndeclaredType)
  }

  function Joined(chunks: seq<Bytes>): Bytes {
    if chunks == [] then [] else Joined(chunks[..|chunks| - 1]) + chunks[|chunks| - 1]
  }

  /** Whether the content has the claimed format. JSON rules hand the chunks to the parser. */
  predicate HasFormat(tools: Tools, rule: Option<Rule>, chunks: seq<Bytes>) {
    rule.Some? ==>
      if rule.value.Json? || rule.value.JsonDocument? then tools.json(rule.value, chunks)
      else Confirms(rule.value, Joined(chunks))
  }

  function Verdict(tools: Tools, registry: Registry, claim: Claim, chunks: seq<Bytes>): Result<Inspected, InspectionError> {
    var content := Joined(chunks);
    var key := ClaimedKey(registry, claim.extension);
    var rule := RuleFor(registry, key);
    if rule.Err? then Err(rule.error)
    else if |content| > claim.maxBytes then Err(TooLarge)
    else if claim.declaredSize.Some? && |content| != claim.declaredSize.value then Err(MetadataMismatch)
    else if |content| != claim.expectedSize then Err(SizeMismatch)
    else if !HasFormat(tools, rule.value, chunks) then Err(FormatMismatch)
    else Ok(Inspected(|content|, tools.sha256(content), key))
  }

  /** The rule for this claim reads bytes; only the JSON rules parse. */
  predicate ReadsBytes(registry: Registry, claim: Claim) {
    var rule := RuleFor(registry, ClaimedKey(registry, claim.extension));
    rule.Ok? && rule.value.Some? ==> rule.value.value.Magic? || rule.value.value.NoRule?
  }

  /** The whole content meets the size limits and the rule that confirms its type. */
  ghost predicate Acceptable(registry: Registry, claim: Claim, content: Bytes)
    requires ReadsBytes(registry, claim)
  {
    var rule := RuleFor(registry, ClaimedKey(registry, claim.extension));
    && rule.Ok? && |content| <= claim.maxBytes && |content| == claim.expectedSize
    && (claim.declaredSize.Some? ==> |content| == claim.declaredSize.value)
    && (rule.value.Some? ==> Confirms(rule.value.value, content))
  }

  // ---------------------------------------------------------------- the prefix that is enough

  function SegmentsNeed(segments: seq<Segment>): (r: nat)
    ensures forall k :: 0 <= k < |segments| ==> segments[k].offset + |segments[k].value| <= r
    ensures r == 0 || exists k :: 0 <= k < |segments| && segments[k].offset + |segments[k].value| == r
  {
    if segments == [] then 0
    else
      var last := |segments| - 1;
      var rest := SegmentsNeed(segments[..last]);
      var here := segments[last].offset + |segments[last].value|;
      assert forall k :: 0 <= k < last ==> segments[..last][k] == segments[k];
      if here > rest then here else rest
  }

  function SignaturesNeed(signatures: seq<Signature>): (r: nat)
    ensures forall k :: 0 <= k < |signatures| ==> SegmentsNeed(signatures[k].segments) <= r
    ensures r == 0 || exists k :: 0 <= k < |signatures| && SegmentsNeed(signatures[k].segments) == r
  {
    if signatures == [] then 0
    else
      var last := |signatures| - 1;
      var rest := SignaturesNeed(signatures[..last]);
      var here := SegmentsNeed(signatures[last].segments);
      assert forall k :: 0 <= k < last ==> signatures[..last][k] == signatures[k];
      if here > rest then here else rest
  }

  /** The end of the furthest segment of any signature. */
  function PrefixNeeded(rule: Option<Rule>): nat {
    if rule.Some? && rule.value.Magic? then SignaturesNeed(rule.value.signatures) else 0
  }

  function Prefix(content: Bytes, needed: nat): Bytes { content[..Min(needed, |content|)] }

  lemma {:induction false} SegmentReadsPrefix(s: Segment, content: Bytes, needed: nat)
    requires s.offset + |s.value| <= needed
    ensures SegmentMatches(s, Prefix(content, needed)) <==> SegmentMatches(s, content)
  {
    if |content| <= needed {
      assert Prefix(content, needed) == content;
    } else {
      var from, to := s.offset, s.offset + |s.value|;
      assert Slice(Prefix(content, needed), from, to) == content[..needed][from..to] == content[from..to];
    }
  }

  lemma {:induction false} SignatureReadsPrefix(s: Signature, content: Bytes, needed: nat)
    requires SegmentsNeed(s.segments) <= needed
    ensures SignatureMatches(s, Prefix(content, needed)) <==> SignatureMatches(s, content)
  {
    forall k | 0 <= k < |s.segments|
      ensures SegmentMatches(s.segments[k], Prefix(content, needed)) <==> SegmentMatches(s.segments[k], content)
    {
      SegmentReadsPrefix(s.segments[k], content, needed);
    }
  }

  /** Confirming the kept prefix is confirming the whole content, however short it is. */
  lemma {:induction false} PrefixConfirms(rule: Rule, content: Bytes)
    requires rule.Magic?
    ensures Confirms(rule, Prefix(content, PrefixNeeded(Some(rule)))) <==> Confirms(rule, content)
  {
    forall k | 0 <= k < |rule.signatures|
      ensures SignatureMatches(rule.signatures[k], Prefix(content, PrefixNeeded(Some(rule))))
          <==> SignatureMatches(rule.signatures[k], content)
    {
      SignatureReadsPrefix(rule.signatures[k], content, PrefixNeeded(Some(rule)));
    }
  }

  // ---------------------------------------------------------------- the streaming pass

  /** The chunks a reader hands out before its first empty read. */
  function Delivered(reading: seq<Bytes>): seq<Bytes> {
    if reading == [] || reading[0] == [] then [] else [reading[0]] + Delivered(reading[1..])
  }

  lemma {:induction false} DeliveredStops(reading: seq<Bytes>, k: nat)
    requires k <= |reading| && (forall i :: 0 <= i < k ==> reading[i] != []) && (k < |reading| ==> reading[k] == [])
    ensures Delivered(reading) == reading[..k]
  {
    if k > 0 {
      DeliveredStops(reading[1..], k - 1);
      assert reading[..k] == [reading[0]] + reading[1..][..k - 1];
    }
  }

  lemma {:induction false} DeliveredLength(reading: seq<Bytes>, k: nat)
    requires k <= |reading| && forall i :: 0 <= i < k ==> reading[i] != []
    ensures |Delivered(reading)| >= k && Delivered(reading)[..k] == reading[..k]
  {
    if k > 0 {
      DeliveredLength(reading[1..], k - 1);
      assert reading[..k] == [reading[0]] + reading[1..][..k - 1];
      assert Delivered(reading)[..k] == [reading[0]] + Delivered(reading[1..])[..k - 1];
    }
  }

  lemma {:induction false} JoinedGrows(chunks: seq<Bytes>, k: nat)
    requires k <= |chunks|
    ensures |Joined(chunks[..k])| <= |Joined(chunks)|
    decreases |chunks|
  {
    if k < |chunks| {
      var front := chunks[..|chunks| - 1];
      assert front[..k] == chunks[..k];
      JoinedGrows(front, k);
    } else {
      assert chunks[..k] == chunks;
    }
  }

  lemma {:induction false} PrefixExtends(content: Bytes, chunk: Bytes, needed: nat)
    ensures |Prefix(content, needed)| < needed ==>
              Prefix(content + chunk, needed) == Prefix(content, needed) + chunk[..Min(needed - |Prefix(content, needed)|, |chunk|)]
    ensures |Prefix(content, needed)| >= needed ==> Prefix(content + chunk, needed) == Prefix(content, needed)
  {
  }

  /** The checks after the last chunk: a magic rule reads only the prefix. */
  method CheckFormat(tools: Tools, rule: Option<Rule>, prefix: Bytes, fed: seq<Bytes>) returns (ok: bool)
    requires prefix == Prefix(Joined(fed), PrefixNeeded(rule))
    ensures ok == HasFormat(tools, rule, fed)
  {
    if rule.Some? {
      if rule.value.Magic? {
        PrefixConfirms(rule.value, Joined(fed));
        if !Confirms(rule.value, prefix) {
          return false;
        }
      } else if (rule.value.Json? || rule.value.JsonDocument?) && !tools.json(rule.value, fed) {
        return false;
      }
    }
    return true;
  }

  /** Once the chunks read are too many bytes, so are all that would be read. */
  lemma {:induction false} TooLargeAlready(tools: Tools, registry: Registry, claim: Claim, reading: seq<Bytes>, k: nat)
    requires k <= |reading| && forall i :: 0 <= i < k ==> reading[i] != []
    requires RuleFor(registry, ClaimedKey(registry, claim.extension)).Ok? && |Joined(reading[..k])| > claim.maxBytes
    ensures Verdict(tools, registry, claim, Delivered(reading)) == Err(TooLarge)
  {
    DeliveredLength(reading, k);
    JoinedGrows(Delivered(reading), k);
  }

  lemma {:induction false} JoinedNext(reading: seq<Bytes>, k: nat)
    requires k < |reading|
    ensures Joined(reading[..k + 1]) == Joined(reading[..k]) + reading[k]
  {
    assert reading[..k + 1][..k] == reading[..k];
  }

  /** The pass over the chunks. */
  method StreamChunks(tools: Tools, registry: Registry, claim: Claim, reading: seq<Bytes>)
    returns (r: Result<Inspected, InspectionError>)
    ensures r == Verdict(tools, registry, claim, Delivered(reading))
  {
    var key := ClaimedKey(registry, claim.extension);
    var resolved := RuleFor(registry, key);
    if resolved.Err? {
      return Err(resolved.error);
    }
    var rule := resolved.value;
    var needed := PrefixNeeded(rule);
    var hashed: Bytes := [];
    var byteSize := 0;
    var prefix: Bytes := [];
    var fed: seq<Bytes> := [];
    var k := 0;
    while k < |reading| && reading[k] != []
      invariant 0 <= k <= |reading|
      invariant forall i :: 0 <= i < k ==> reading[i] != []
      invariant hashed == Joined(reading[..k]) && byteSize == |hashed| && byteSize <= claim.maxBytes
      invariant prefix == Prefix(hashed, needed)
      invariant fed == reading[..k]
    {
      var chunk := reading[k];
      JoinedNext(reading, k);
      byteSize := byteSize + |chunk|;
      if byteSize > claim.maxBytes {
        TooLargeAlready(tools, registry, claim, reading, k + 1);
        return Err(TooLarge);
      }
      PrefixExtends(hashed, chunk, needed);
      hashed := hashed + chunk;
      if |prefix| < needed {
        var remaining := needed - |prefix|;
        prefix := prefix + chunk[..Min(remaining, |chunk|)];
      }
      fed := fed + [chunk];
      k := k + 1;
    }
    DeliveredStops(reading, k);
    if claim.declaredSize.Some? && byteSize != claim.declaredSize.value {
      return Err(MetadataMismatch);
    }
    if byteSize != claim.expectedSize {
      return Err(SizeMismatch);
    }
    var ok := CheckFormat(tools, rule, prefix, fed);
    if !ok {
      return Err(FormatMismatch);
    }
    return Ok(Inspected(byteSize, tools.sha256(hashed), key));
  }

  lemma {:induction false} VerdictMeans(tools: Tools, registry: Registry, claim: Claim, chunks: seq<Bytes>,
                                        r: Result<Inspected, InspectionError>)
    requires r == Verdict(tools, registry, claim, chunks)
    ensures ReadsBytes(registry, claim) ==> (r.Ok? <==> Acceptable(registry, claim, Joined(chunks)))
    ensures r.Ok? ==> r.value == Inspected(|Joined(chunks)|, tools.sha256(Joined(chunks)), ClaimedKey(registry, claim.extension))
  {
  }

  /** Whatever the sizes of the reads: under a byte rule the upload is accepted exactly when
      its whole content is acceptable, and its length and digest are those of the whole. */
  method InspectChunks(tools: Tools, registry: Registry, claim: Claim, reading: seq<Bytes>)
    returns (r: Result<Inspected, InspectionError>)
    ensures r == Verdict(tools, registry, claim, Delivered(reading))
    ensures ReadsBytes(registry, claim) ==> (r.Ok? <==> Acceptable(registry, claim, Joined(Delivered(reading))))
    ensures var whole := Joined(Delivered(reading));
            r.Ok? ==> r.value == Inspected(|whole|, tools.sha256(whole), ClaimedKey(registry, claim.extension))
  {
    r := StreamChunks(tools, registry, claim, reading);
    VerdictMeans(tools, registry, claim, Delivered(reading), r);
  }
}
