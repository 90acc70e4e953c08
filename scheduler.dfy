/**
 * The prober (src/prober/mod.rs): one job per configured target, a shared socket
 * factory, and a dispatch pass run on every tick.
 *
 * Each job sits behind a mutex. A tick spawns one task per job; the task takes the
 * job's mutex with `try_lock` and gives up when it is held, so a job whose probe
 * from an earlier tick is still running is skipped. The mutexes are modelled as the
 * array `locked`; a spawned task is modelled in two steps: `ProbeAll` takes the
 * lock of every job it dispatches, and `FinishTask` runs that job's probe and
 * releases the lock.
 */
module Scheduler {
  import opened Wrappers
  import opened Socket
  import opened ProbeJob
  import opened Args
  import Payload

  /** The jobs of a configuration: one per target, in order. */
  function BuildJobs(targets: seq<ProbeTarget>): (jobs: seq<Job>)
    ensures |jobs| == |targets|
    ensures forall i :: 0 <= i < |jobs| ==>
      jobs[i].address == targets[i].address && jobs[i].payload == Payload.BuildPayload(targets[i].statsdKey)
    decreases |targets|
  {
    if targets == [] then []
    else [NewJob(targets[0].address, targets[0].statsdKey)] + BuildJobs(targets[1..])
  }

  /** The indices, in increasing order, of the jobs whose lock is free. */
  function Unlocked(locks: seq<bool>): seq<nat>
    decreases |locks|
  {
    if locks == [] then []
    else
      var n := |locks| - 1;
      Unlocked(locks[..n]) + (if locks[n] then [] else [n])
  }

  /** The dispatched indices are exactly the free ones, each once, in increasing order. */
  lemma {:induction false} UnlockedExactlyFree(locks: seq<bool>)
    ensures forall k :: 0 <= k < |Unlocked(locks)| ==> Unlocked(locks)[k] < |locks| && !locks[Unlocked(locks)[k]]
    ensures forall i :: 0 <= i < |locks| && !locks[i] ==> i in Unlocked(locks)
    ensures forall k, m :: 0 <= k < m < |Unlocked(locks)| ==> Unlocked(locks)[k] < Unlocked(locks)[m]
    decreases |locks|
  {
    if locks != [] {
      var n := |locks| - 1;
      var prefix := locks[..n];
      UnlockedExactlyFree(prefix);
      var before := Unlocked(prefix);
      assert Unlocked(locks) == before + (if locks[n] then [] else [n]);
      assert forall i :: 0 <= i < n ==> prefix[i] == locks[i];
      assert forall k :: 0 <= k < |before| ==> before[k] < n;
    }
  }

  /** Extending the lock states by one job extends the free indices by that job, if free. */
  lemma UnlockedExtend(locks: seq<bool>, i: nat)
    requires i < |locks|
    ensures Unlocked(locks[..i + 1]) == Unlocked(locks[..i]) + (if locks[i] then [] else [i])
  {
    assert locks[..i + 1][..i] == locks[..i];
  }

  /** When no lock is held, every job is dispatched, in index order. */
  lemma {:induction false} AllFreeDispatchesAll(locks: seq<bool>)
    requires forall i :: 0 <= i < |locks| ==> !locks[i]
    ensures |Unlocked(locks)| == |locks|
    ensures forall k :: 0 <= k < |locks| ==> Unlocked(locks)[k] == k
    decreases |locks|
  {
    if locks != [] {
      AllFreeDispatchesAll(locks[..|locks| - 1]);
    }
  }

  lemma OnlySecondFree()
    ensures Unlocked([true, false]) == [1]
  {
    assert [true, false][..1] == [true];
    assert [true][..0] == [];
  }

  class Prober {
    const interval: Duration
    const jobs: seq<Job>
    const factory: Factory
    /** `locked[i]` holds when the mutex of job `i` is held by a running task. */
    const locked: array<bool>

    ghost predicate Valid()
      reads this
    {
      locked.Length == |jobs|
    }

    /** `Prober::new`. */
    constructor (configuration: Configuration)
      ensures Valid()
      ensures interval == configuration.interval
      ensures jobs == BuildJobs(configuration.targets)
      ensures fresh(factory) && factory.State() == NoSockets
      ensures factory.requests == [] && factory.bindLog == []
      ensures fresh(locked) && forall i :: 0 <= i < locked.Length ==> !locked[i]
    {
      var built := BuildJobs(configuration.targets);
      interval := configuration.interval;
      jobs := built;
      factory := new Factory();
      locked := new bool[|built|](_ => false);
    }

    /**
     * `probe_all`: every job index is visited once, in order; a job whose lock is
     * free is dispatched and its lock taken, a job whose lock is held is skipped.
     * Afterwards every lock is held, by an earlier task or by a new one.
     */
    method ProbeAll() returns (dispatched: seq<nat>)
      requires Valid()
      modifies locked
      ensures dispatched == Unlocked(old(locked[..]))
      ensures forall i :: 0 <= i < locked.Length ==> locked[i]
    {
      ghost var before := locked[..];
      dispatched := [];
      for i := 0 to locked.Length
        invariant dispatched == Unlocked(before[..i])
        invariant forall k :: 0 <= k < i ==> locked[k]
        invariant forall k :: i <= k < locked.Length ==> locked[k] == before[k]
      {
        UnlockedExtend(before, i);
        if !locked[i] {
          locked[i] := true;
          dispatched := dispatched + [i];
        }
      }
      assert before[..locked.Length] == before;
    }

    /**
     * The end of the task dispatched for job `i`: the job's probe runs against the
     * shared factory and the lock is released. The probe's result is discarded by
     * the task; it is returned here so that it can be stated.
     */
    method FinishTask(i: nat, lookup: Lookup, bindAt: BindOracle, failure: Option<IoError>)
      returns (r: Result<(), JobError>, sent: Option<Datagram>)
      requires Valid() && i < |jobs| && locked[i]
      modifies locked, factory
      ensures locked[..] == old(locked[..])[i := false]
      ensures var o := ProbeSpec(jobs[i], old(factory.State()), lookup, bindAt, failure);
        && r == o.result && sent == o.sent && factory.State() == o.slots
        && factory.requests == old(factory.requests) + o.requested
        && factory.bindLog == old(factory.bindLog) + o.binds
    {
      r, sent := Probe(jobs[i], factory, lookup, bindAt, failure);
      locked[i] := false;
    }
  }

  /**
   * One tick over three idle jobs. The second job's task finishes first, on the
   * factory as the tick found it, and its resolution, binds and send are left
   * entirely open: whatever it does to the shared factory, including filling the
   * empty slot with a socket of its own, the other two jobs, each with one
   * reachable candidate of a known family, still succeed.
   */
  method TickWithFailingJob(p: Prober, socket: UdpSocket, collector: SocketAddr,
                            lookup: Lookup, bindAt: BindOracle, failure: Option<IoError>)
    returns (dispatched: seq<nat>, outcomes: seq<Result<(), JobError>>)
    requires p.Valid() && |p.jobs| == 3 && (collector.V4? || collector.V6?)
    requires forall i :: 0 <= i < 3 ==> !p.locked[i]
    modifies p.locked, p.factory
    ensures dispatched == [0, 1, 2]
    ensures |outcomes| == 3 && outcomes[0] == Ok(()) && outcomes[2] == Ok(())
    ensures forall i :: 0 <= i < 3 ==> !p.locked[i]
  {
    var reachable := (i: nat) => Ok(socket);
    AllFreeDispatchesAll(p.locked[..]);
    dispatched := p.ProbeAll();
    var r1, _ := p.FinishTask(1, lookup, bindAt, failure);
    SingleReachableCandidate(p.jobs[0], p.factory.State(), collector, reachable);
    var r0, _ := p.FinishTask(0, Ok([collector]), reachable, None);
    SingleReachableCandidate(p.jobs[2], p.factory.State(), collector, reachable);
    var r2, _ := p.FinishTask(2, Ok([collector]), reachable, None);
    outcomes := [r0, r1, r2];
  }

  /**
   * Failure isolation over three ticks: whatever the second job's resolution, binds
   * and send do on each tick (tick `t` uses `lookups[t]`, `bindAts[t]` and
   * `failures[t]`), every tick dispatches all three jobs and the other two succeed.
   */
  method FailingJobIsIsolated(socket: UdpSocket, collector: SocketAddr, lookups: seq<Lookup>,
                              bindAts: seq<BindOracle>, failures: seq<Option<IoError>>)
    returns (ticks: seq<seq<nat>>, outcomes: seq<seq<Result<(), JobError>>>)
    requires collector.V4? || collector.V6?
    requires |lookups| == 3 && |bindAts| == 3 && |failures| == 3
    ensures ticks == [[0, 1, 2], [0, 1, 2], [0, 1, 2]]
    ensures |outcomes| == 3
    ensures forall t :: 0 <= t < 3 ==> |outcomes[t]| == 3 && outcomes[t][0] == Ok(()) && outcomes[t][2] == Ok(())
  {
    var targets := [ProbeTarget("a", "k0"), ProbeTarget("b", "k1"), ProbeTarget("c", "k2")];
    var p := new Prober(Configuration(1, targets));
    ticks, outcomes := [], [];
    for t := 0 to 3
      invariant p.Valid() && |p.jobs| == 3 && fresh(p.locked) && fresh(p.factory)
      invariant forall i :: 0 <= i < 3 ==> !p.locked[i]
      invariant |ticks| == t && forall k :: 0 <= k < t ==> ticks[k] == [0, 1, 2]
      invariant |outcomes| == t && forall k :: 0 <= k < t ==>
        |outcomes[k]| == 3 && outcomes[k][0] == Ok(()) && outcomes[k][2] == Ok(())
    {
      var dispatched, results := TickWithFailingJob(p, socket, collector, lookups[t], bindAts[t], failures[t]);
      ticks := ticks + [dispatched];
      outcomes := outcomes + [results];
    }
  }

  /**
   * Overlap: a job whose task from the previous tick has not finished is skipped;
   * the job whose task finished is dispatched again.
   */
  method BusyJobIsSkipped() returns (first: seq<nat>, second: seq<nat>)
    ensures first == [0, 1] && second == [1]
  {
    var p := new Prober(Configuration(1, [ProbeTarget("a", "k0"), ProbeTarget("b", "k1")]));
    AllFreeDispatchesAll(p.locked[..]);
    first := p.ProbeAll();
    assert p.locked[..] == [true, true];
    var _, _ := p.FinishTask(1, Ok([]), (i: nat) => Err(IoError(0)), None);
    assert p.locked[..] == [true, false];
    OnlySecondFree();
    second := p.ProbeAll();
  }
}
