/** Artifact type keys and the byte rules that confirm a file format
    (libs/core/src/grafy_core/artifacts.py). */
module Artifacts {

  type Bytes = seq<bv8>

  datatype TypeKey = TypeKey(id: string, version: int)

  /** Bytes that must stand at a fixed offset of a file. */
  datatype Segment = Segment(offset: nat, value: Bytes)

  /** One alternative: every segment must match. */
  datatype Signature = Signature(segments: seq<Segment>)

  datatype Rule = Magic(signatures: seq<Signature>) | Json | JsonDocument | NoRule

  function Min(a: int, b: int): int { if a <= b then a else b }

  /** A slice whose bounds are clamped to the content, as Python slices are. */
  function Slice(content: Bytes, from: nat, to: nat): Bytes
    requires from <= to
  {
    content[Min(from, |content|)..Min(to, |content|)]
  }

  predicate SegmentMatches(s: Segment, content: Bytes) {
    Slice(content, s.offset, s.offset + |s.value|) == s.value
  }

  predicate SignatureMatches(s: Signature, content: Bytes) {
    forall k :: 0 <= k < |s.segments| ==> SegmentMatches(s.segments[k], content)
  }

  /** Whether the bytes agree with a rule that reads bytes; JSON rules parse instead. */
  predicate Confirms(rule: Rule, content: Bytes)
    requires rule.Magic? || rule.NoRule?
  {
    rule.Magic? ==> exists k :: 0 <= k < |rule.signatures| && SignatureMatches(rule.signatures[k], content)
  }
}
