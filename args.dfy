/**
 * The configuration built from the command line (src/args.rs). Only the pairing
 * of `-t` values into targets is modelled; clap's parsing and humantime's
 * duration parsing are not.
 */
module Args {
  import opened Wrappers

  /** A probing interval, in nanoseconds, as a `std::time::Duration` holds it. */
  type Duration = nat

  datatype ProbeTarget = ProbeTarget(address: string, statsdKey: string)

  datatype Configuration = Configuration(interval: Duration, targets: seq<ProbeTarget>)

  /**
   * `parse_targets`: consecutive values form (address, key) pairs; `tuples()`
   * drops a trailing value that has no partner.
   */
  function ParseTargets(values: seq<string>): (targets: seq<ProbeTarget>)
    ensures |targets| == |values| / 2
    ensures forall i :: 0 <= i < |targets| ==> targets[i] == ProbeTarget(values[2 * i], values[2 * i + 1])
    decreases |values|
  {
    if |values| < 2 then []
    else [ProbeTarget(values[0], values[1])] + ParseTargets(values[2..])
  }

  /** The `-t` values, absent when the option was not given, mapped to targets (`map_or(vec![], ...)`). */
  function TargetsOf(values: Option<seq<string>>): (targets: seq<ProbeTarget>)
    ensures values.None? ==> targets == []
    ensures values.Some? ==> |targets| == |values.value| / 2
    ensures values.Some? ==> forall i :: 0 <= i < |targets| ==>
      targets[i] == ProbeTarget(values.value[2 * i], values.value[2 * i + 1])
  {
    match values
    case None => []
    case Some(v) => ParseTargets(v)
  }

  /** Pairs are taken in order: the targets of two value lists are those of their concatenation. */
  lemma {:induction false} ParseTargetsConcat(a: seq<string>, b: seq<string>)
    requires |a| % 2 == 0
    ensures ParseTargets(a + b) == ParseTargets(a) + ParseTargets(b)
    decreases |a|
  {
    if a != [] {
      assert (a + b)[2..] == a[2..] + b;
      ParseTargetsConcat(a[2..], b);
    }
  }

  /** `-t address key` gives that target first. */
  lemma ParseFirstTarget(address: string, statsdKey: string, rest: seq<string>)
    ensures ParseTargets([address, statsdKey] + rest)[0] == ProbeTarget(address, statsdKey)
  {
  }

  /** `-t a b -t address key` gives that target second. */
  lemma ParseNextTarget(address: string, statsdKey: string)
    ensures ParseTargets(["a", "b", address, statsdKey])[1] == ProbeTarget(address, statsdKey)
  {
  }
}
