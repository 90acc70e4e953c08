/**
 * The statsd counter-increment line `<key>:1|c` that a probe sends.
 * build_payload is defined twice in the repository with the same body
 * (src/prober/job.rs and src/prober/job/mod.rs); it is modelled once here.
 */
module Payload {
  import opened Utf8

  /** The line that follows the key: ':' '1' '|' 'c'. */
  const Increment: string := ":1|c"

  /** The bytes of `Increment`. */
  const IncrementBytes: seq<byte> := [0x3A, 0x31, 0x7C, 0x63]

  lemma IncrementEncoding()
    ensures Encode(Increment) == IncrementBytes
  {
  }

  /**
   * `format!("{}:1|c", key).into_bytes()`: the key is inserted verbatim, with no
   * escaping of ':' or '|', so the payload is the key's bytes followed by the four
   * bytes of the increment.
   */
  function BuildPayload(statsdKey: string): (p: seq<byte>)
    ensures p == Encode(statsdKey) + IncrementBytes
  {
    EncodeConcat(statsdKey, Increment);
    IncrementEncoding();
    Encode(statsdKey + Increment)
  }

  lemma PayloadLength(statsdKey: string)
    ensures |BuildPayload(statsdKey)| == |Encode(statsdKey)| + 4
    ensures IsAscii(statsdKey) ==> |BuildPayload(statsdKey)| == |statsdKey| + 4
  {
    if IsAscii(statsdKey) {
      EncodeAscii(statsdKey);
    }
  }

  /** The key's bytes are a prefix and the increment a suffix of the payload. */
  lemma PayloadPrefixSuffix(statsdKey: string)
    ensures var p := BuildPayload(statsdKey);
      var n := |Encode(statsdKey)|;
      p[..n] == Encode(statsdKey) && p[n..] == IncrementBytes
  {
  }

  /** Distinct keys give distinct payloads, so a collector can tell the counters apart. */
  lemma PayloadInjective(a: string, b: string)
    requires BuildPayload(a) == BuildPayload(b)
    ensures a == b
  {
    var pa, pb := BuildPayload(a), BuildPayload(b);
    assert Encode(a) == pa[..|pa| - 4];
    assert Encode(b) == pb[..|pb| - 4];
    EncodeInjective(a, b);
  }

  /** Separators inside the key are not escaped: the key `a:b|c` gives `a:b|c:1|c`. */
  lemma SeparatorsNotEscaped()
    ensures BuildPayload("a:b|c") == [0x61, 0x3A, 0x62, 0x7C, 0x63, 0x3A, 0x31, 0x7C, 0x63]
  {
  }
}
