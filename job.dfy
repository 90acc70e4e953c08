/**
 * One probe job (src/prober/job/mod.rs): it resolves its address, asks the socket
 * factory for a socket for each candidate in turn, and sends its payload through
 * the first socket it obtains.
 *
 * Name resolution (`net::lookup_host`) and the datagram write (`send_to`) are
 * oracles: the resolver's answer and the send's failure, if any, are parameters.
 * So is the outcome of each bind the factory might perform, indexed by the
 * position of the candidate being tried.
 */
module ProbeJob {
  import opened Wrappers
  import opened Utf8
  import opened Socket
  import Payload

  /** The errors of a probe. */
  datatype JobError =
    | LookupHost(source: IoError)
    | LookupHostEmpty
    | SendPayload(source: IoError)
    | SocketFactory(cause: SocketError)

  /** A job: the target's address, kept verbatim, and the payload built once. */
  datatype Job = Job(address: string, payload: seq<byte>)

  /**
   * A datagram handed to `send_to`: which socket, what bytes, to which address. It
   * is recorded whether or not `send_to` then reports an error.
   */
  datatype Datagram = Datagram(socket: UdpSocket, payload: seq<byte>, destination: SocketAddr)

  /** `Job::new`. */
  function NewJob(address: string, statsdKey: string): (job: Job)
    ensures job.address == address
    ensures job.payload == Encode(statsdKey) + Payload.IncrementBytes
  {
    Job(address, Payload.BuildPayload(statsdKey))
  }

  /** What resolving a job's address yields: an error, or candidates in resolver order. */
  type Lookup = Result<seq<SocketAddr>, IoError>

  /** The bind outcome that the factory would meet while serving candidate `i`. */
  type BindOracle = nat -> BindOutcome

  /**
   * `Job::send_payload`: one datagram carrying the job's payload to `address`;
   * `failure` is the error `send_to` reports, if any.
   */
  method SendPayloadTo(job: Job, socket: UdpSocket, address: SocketAddr, failure: Option<IoError>)
    returns (r: Result<(), JobError>, sent: Datagram)
    ensures sent == Datagram(socket, job.payload, address)
    ensures r == SendResult(failure)
  {
    sent := Datagram(socket, job.payload, address);
    match failure {
      case None => r := Ok(());
      case Some(e) => r := Err(SendPayload(e));
    }
  }

  /**
   * Everything one probe does: its result, the datagram it handed to `send_to` (if
   * any, whether or not the send then failed), the factory's slots afterwards, the
   * candidates it asked the factory for, what each of those requests returned, and
   * the bind attempts made on its behalf.
   */
  datatype ProbeOutcome = ProbeOutcome(
    result: Result<(), JobError>,
    sent: Option<Datagram>,
    slots: Slots,
    requested: seq<SocketAddr>,
    gets: seq<Result<UdpSocket, SocketError>>,
    binds: seq<string>)

  /** The result of `send_payload`, given the error `send_to` reports, if any. */
  function SendResult(failure: Option<IoError>): Result<(), JobError> {
    if failure.None? then Ok(()) else Err(SendPayload(failure.value))
  }

  /**
   * The candidate loop from candidate `i` on, given the slots and the last socket
   * error seen so far.
   */
  function TryCandidates(job: Job, s: Slots, candidates: seq<SocketAddr>, i: nat,
                         lastErr: Option<SocketError>, bindAt: BindOracle,
                         failure: Option<IoError>): ProbeOutcome
    requires i <= |candidates|
    decreases |candidates| - i
  {
    if i == |candidates| then
      var result := if lastErr.Some? then Err(SocketFactory(lastErr.value)) else Err(LookupHostEmpty);
      ProbeOutcome(result, None, s, [], [], [])
    else
      var g := GetStep(s, candidates[i], bindAt(i));
      match g.result
      case Ok(socket) =>
        ProbeOutcome(SendResult(failure), Some(Datagram(socket, job.payload, candidates[i])),
                     g.slots, [candidates[i]], [g.result], g.binds)
      case Err(e) =>
        var rest := TryCandidates(job, g.slots, candidates, i + 1, Some(e), bindAt, failure);
        rest.(requested := [candidates[i]] + rest.requested,
              gets := [g.result] + rest.gets,
              binds := g.binds + rest.binds)
  }

  /** A candidate whose request fails passes its error on to the rest of the loop. */
  lemma TryCandidatesFailStep(job: Job, s: Slots, candidates: seq<SocketAddr>, i: nat,
                              lastErr: Option<SocketError>, bindAt: BindOracle, failure: Option<IoError>)
    requires i < |candidates|
    requires GetStep(s, candidates[i], bindAt(i)).result.Err?
    ensures var g := GetStep(s, candidates[i], bindAt(i));
      var rest := TryCandidates(job, g.slots, candidates, i + 1, Some(g.result.error), bindAt, failure);
      TryCandidates(job, s, candidates, i, lastErr, bindAt, failure)
        == rest.(requested := [candidates[i]] + rest.requested,
                 gets := [g.result] + rest.gets,
                 binds := g.binds + rest.binds)
  {
  }

  /**
   * The loop invariant of `TryEachCandidate`: the whole outcome is that of the rest
   * of the loop, once the requests and binds logged so far are put in front.
   */
  ghost predicate Resumes(total: ProbeOutcome, rest: ProbeOutcome,
                          requests0: seq<SocketAddr>, requests: seq<SocketAddr>,
                          binds0: seq<string>, binds: seq<string>) {
    && total.result == rest.result && total.sent == rest.sent && total.slots == rest.slots
    && requests0 + total.requested == requests + rest.requested
    && binds0 + total.binds == binds + rest.binds
  }

  lemma ResumesAfterFailure(total: ProbeOutcome, s: Slots, job: Job, candidates: seq<SocketAddr>, i: nat,
                            lastErr: Option<SocketError>, bindAt: BindOracle, failure: Option<IoError>,
                            requests0: seq<SocketAddr>, requests: seq<SocketAddr>,
                            binds0: seq<string>, binds: seq<string>)
    requires i < |candidates|
    requires Resumes(total, TryCandidates(job, s, candidates, i, lastErr, bindAt, failure),
                     requests0, requests, binds0, binds)
    requires GetStep(s, candidates[i], bindAt(i)).result.Err?
    ensures var g := GetStep(s, candidates[i], bindAt(i));
      Resumes(total, TryCandidates(job, g.slots, candidates, i + 1, Some(g.result.error), bindAt, failure),
              requests0, requests + [candidates[i]], binds0, binds + g.binds)
  {
    TryCandidatesFailStep(job, s, candidates, i, lastErr, bindAt, failure);
    var g := GetStep(s, candidates[i], bindAt(i));
    var rest := TryCandidates(job, g.slots, candidates, i + 1, Some(g.result.error), bindAt, failure);
    assert requests + ([candidates[i]] + rest.requested) == (requests + [candidates[i]]) + rest.requested;
    assert binds + (g.binds + rest.binds) == (binds + g.binds) + rest.binds;
  }

  lemma ResumesAfterSend(total: ProbeOutcome, s: Slots, job: Job, candidates: seq<SocketAddr>, i: nat,
                         lastErr: Option<SocketError>, bindAt: BindOracle, failure: Option<IoError>,
                         requests0: seq<SocketAddr>, requests: seq<SocketAddr>,
                         binds0: seq<string>, binds: seq<string>)
    requires i < |candidates|
    requires Resumes(total, TryCandidates(job, s, candidates, i, lastErr, bindAt, failure),
                     requests0, requests, binds0, binds)
    requires GetStep(s, candidates[i], bindAt(i)).result.Ok?
    ensures var g := GetStep(s, candidates[i], bindAt(i));
      && total.result == SendResult(failure)
      && total.sent == Some(Datagram(g.result.value, job.payload, candidates[i]))
      && total.slots == g.slots
      && requests + [candidates[i]] == requests0 + total.requested
      && binds + g.binds == binds0 + total.binds
  {
  }

  lemma ResumesAtEnd(total: ProbeOutcome, s: Slots, job: Job, candidates: seq<SocketAddr>,
                     lastErr: Option<SocketError>, bindAt: BindOracle, failure: Option<IoError>,
                     requests0: seq<SocketAddr>, requests: seq<SocketAddr>,
                     binds0: seq<string>, binds: seq<string>)
    requires Resumes(total, TryCandidates(job, s, candidates, |candidates|, lastErr, bindAt, failure),
                     requests0, requests, binds0, binds)
    ensures total.result == (if lastErr.Some? then Err(SocketFactory(lastErr.value)) else Err(LookupHostEmpty))
    ensures total.sent.None? && total.slots == s
    ensures requests == requests0 + total.requested && binds == binds0 + total.binds
  {
    assert requests + [] == requests;
    assert binds + [] == binds;
  }

  /** `Job::probe` as a function of the factory's slots and the oracles. */
  function ProbeSpec(job: Job, s: Slots, lookup: Lookup, bindAt: BindOracle,
                     failure: Option<IoError>): ProbeOutcome
  {
    match lookup
    case Err(e) => ProbeOutcome(Err(LookupHost(e)), None, s, [], [], [])
    case Ok(candidates) => TryCandidates(job, s, candidates, 0, None, bindAt, failure)
  }

  /** A resolver error is reported as `LookupHost`; the factory is never consulted. */
  lemma ProbeLookupError(job: Job, s: Slots, e: IoError, bindAt: BindOracle, failure: Option<IoError>)
    ensures ProbeSpec(job, s, Err(e), bindAt, failure)
         == ProbeOutcome(Err(LookupHost(e)), None, s, [], [], [])
  {
  }

  /** No candidates: `LookupHostEmpty`, distinct from a resolver error. */
  lemma ProbeNoCandidates(job: Job, s: Slots, bindAt: BindOracle, failure: Option<IoError>)
    ensures ProbeSpec(job, s, Ok([]), bindAt, failure)
         == ProbeOutcome(Err(LookupHostEmpty), None, s, [], [], [])
  {
  }

  /** The shape of the candidate loop's outcome from candidate `i` on. */
  ghost predicate TriedInOrder(job: Job, candidates: seq<SocketAddr>, i: nat, lastErr: Option<SocketError>,
                               failure: Option<IoError>, o: ProbeOutcome)
    requires i <= |candidates|
  {
    var n := |o.requested|;
    && |o.gets| == n
    && i + n <= |candidates|
    && o.requested == candidates[i..i + n]
    && (forall k :: 0 <= k < n - 1 ==> o.gets[k].Err?)
    && (n == 0 ==> i == |candidates| && o.sent.None?
                   && o.result == (if lastErr.Some? then Err(SocketFactory(lastErr.value)) else Err(LookupHostEmpty)))
    && (n > 0 && o.gets[n - 1].Ok? ==>
          o.sent == Some(Datagram(o.gets[n - 1].value, job.payload, o.requested[n - 1]))
          && o.result == SendResult(failure))
    && (n > 0 && o.gets[n - 1].Err? ==>
          i + n == |candidates| && o.sent.None? && o.result == Err(SocketFactory(o.gets[n - 1].error)))
  }

  /** A failed request in front of an outcome of the right shape keeps the shape. */
  lemma TriedInOrderCons(job: Job, candidates: seq<SocketAddr>, i: nat, lastErr: Option<SocketError>,
                         failure: Option<IoError>, e: SocketError, binds: seq<string>, rest: ProbeOutcome)
    requires i < |candidates|
    requires TriedInOrder(job, candidates, i + 1, Some(e), failure, rest)
    ensures TriedInOrder(job, candidates, i, lastErr, failure,
                         rest.(requested := [candidates[i]] + rest.requested,
                               gets := [Err(e)] + rest.gets,
                               binds := binds + rest.binds))
  {
    var n := |rest.requested|;
    assert candidates[i..i + 1 + n] == [candidates[i]] + candidates[i + 1..i + 1 + n];
  }

  lemma {:induction false} TryCandidatesInOrder(job: Job, s: Slots, candidates: seq<SocketAddr>, i: nat,
                                                lastErr: Option<SocketError>, bindAt: BindOracle,
                                                failure: Option<IoError>)
    requires i <= |candidates|
    ensures TriedInOrder(job, candidates, i, lastErr, failure,
                         TryCandidates(job, s, candidates, i, lastErr, bindAt, failure))
    decreases |candidates| - i
  {
    if i < |candidates| {
      var g := GetStep(s, candidates[i], bindAt(i));
      if g.result.Err? {
        TryCandidatesInOrder(job, g.slots, candidates, i + 1, Some(g.result.error), bindAt, failure);
        var rest := TryCandidates(job, g.slots, candidates, i + 1, Some(g.result.error), bindAt, failure);
        TriedInOrderCons(job, candidates, i, lastErr, failure, g.result.error, g.binds, rest);
      }
    }
  }

  /**
   * With at least one candidate: the candidates are asked for in resolver order,
   * up to and including the first one that yields a socket and no further; that
   * one alone is sent to, with the job's payload, through the socket obtained, and
   * a send failure is reported without falling back. If no candidate yields a
   * socket, every one was tried and the error of the last is reported.
   */
  lemma ProbeTriesCandidatesInOrder(job: Job, s: Slots, candidates: seq<SocketAddr>,
                                    bindAt: BindOracle, failure: Option<IoError>)
    requires candidates != []
    ensures var o := ProbeSpec(job, s, Ok(candidates), bindAt, failure);
      var n := |o.requested|;
      && 1 <= n <= |candidates| && |o.gets| == n
      && o.requested == candidates[..n]
      && (forall k :: 0 <= k < n - 1 ==> o.gets[k].Err?)
      && (o.gets[n - 1].Ok? ==>
            && o.sent == Some(Datagram(o.gets[n - 1].value, job.payload, candidates[n - 1]))
            && o.result == SendResult(failure))
      && (o.gets[n - 1].Err? ==>
            && n == |candidates| && o.sent.None?
            && o.result == Err(SocketFactory(o.gets[n - 1].error)))
  {
    TryCandidatesInOrder(job, s, candidates, 0, None, bindAt, failure);
  }

  /**
   * Family fallback: a target resolving to an IPv6 address whose bind fails and
   * then to an IPv4 address whose bind succeeds is probed through the IPv4
   * candidate. Both binds go to the IPv4 slot, as written.
   */
  lemma FamilyFallback(job: Job, a: SocketAddr, b: SocketAddr, e: IoError, socket: UdpSocket)
    requires a.V6? && b.V4?
    ensures var bindAt := (i: nat) => if i == 0 then Err(e) else Ok(socket);
      var o := ProbeSpec(job, NoSockets, Ok([a, b]), bindAt, None);
      && o.result == Ok(())
      && o.sent == Some(Datagram(socket, job.payload, b))
      && o.requested == [a, b]
      && o.binds == [Ipv6Wildcard, Ipv4Wildcard]
      && o.slots == Slots(Some(socket), None)
  {
    var bindAt := (i: nat) => if i == 0 then Err(e) else Ok(socket);
    var first := GetStep(NoSockets, a, bindAt(0));
    assert first == GetOutcome(NoSockets, Err(Bind(e)), [Ipv6Wildcard]);
    var second := GetStep(first.slots, b, bindAt(1));
    assert second == GetOutcome(Slots(Some(socket), None), Ok(socket), [Ipv4Wildcard]);
    var last := TryCandidates(job, first.slots, [a, b], 1, Some(Bind(e)), bindAt, None);
    assert last == ProbeOutcome(Ok(()), Some(Datagram(socket, job.payload, b)),
                                second.slots, [b], [Ok(socket)], [Ipv4Wildcard]);
  }

  /** A single candidate of a known family whose socket can be had is probed successfully. */
  lemma SingleReachableCandidate(job: Job, s: Slots, a: SocketAddr, bindAt: BindOracle)
    requires (a.V4? || a.V6?) && bindAt(0).Ok?
    ensures ProbeSpec(job, s, Ok([a]), bindAt, None).result == Ok(())
  {
    GetSlotDiscipline(s, a, bindAt(0));
  }

  /**
   * The `for` loop of `Job::probe` over the resolved candidates, with the factory
   * shared by all jobs; its `get` is called once per candidate tried.
   */
  method TryEachCandidate(job: Job, factory: Factory, candidates: seq<SocketAddr>, bindAt: BindOracle,
                          failure: Option<IoError>)
    returns (r: Result<(), JobError>, sent: Option<Datagram>)
    modifies factory
    ensures var o := TryCandidates(job, old(factory.State()), candidates, 0, None, bindAt, failure);
      && r == o.result && sent == o.sent
      && factory.State() == o.slots
      && factory.requests == old(factory.requests) + o.requested
      && factory.bindLog == old(factory.bindLog) + o.binds
  {
    var lastSocketErr: Option<SocketError> := None;
    ghost var total := TryCandidates(job, factory.State(), candidates, 0, None, bindAt, failure);
    ghost var requests0, binds0 := factory.requests, factory.bindLog;
    for i := 0 to |candidates|
      invariant Resumes(total, TryCandidates(job, factory.State(), candidates, i, lastSocketErr, bindAt, failure),
                        requests0, factory.requests, binds0, factory.bindLog)
    {
      ghost var before, requests, binds := factory.State(), factory.requests, factory.bindLog;
      var got := factory.Get(candidates[i], bindAt(i));
      match got {
        case Err(e) =>
          ResumesAfterFailure(total, before, job, candidates, i, lastSocketErr, bindAt, failure,
                              requests0, requests, binds0, binds);
          lastSocketErr := Some(e);
        case Ok(socket) =>
          ResumesAfterSend(total, before, job, candidates, i, lastSocketErr, bindAt, failure,
                           requests0, requests, binds0, binds);
          var datagram;
          r, datagram := SendPayloadTo(job, socket, candidates[i], failure);
          sent := Some(datagram);
          return;
      }
    }
    ResumesAtEnd(total, factory.State(), job, candidates, lastSocketErr, bindAt, failure,
                 requests0, factory.requests, binds0, factory.bindLog);
    if lastSocketErr.Some? {
      return Err(SocketFactory(lastSocketErr.value)), None;
    }
    return Err(LookupHostEmpty), None;
  }

  /** `Job::probe`: resolve, then try the candidates. */
  method Probe(job: Job, factory: Factory, lookup: Lookup, bindAt: BindOracle, failure: Option<IoError>)
    returns (r: Result<(), JobError>, sent: Option<Datagram>)
    modifies factory
    ensures var o := ProbeSpec(job, old(factory.State()), lookup, bindAt, failure);
      && r == o.result && sent == o.sent
      && factory.State() == o.slots
      && factory.requests == old(factory.requests) + o.requested
      && factory.bindLog == old(factory.bindLog) + o.binds
  {
    match lookup {
      case Err(e) =>
        return Err(LookupHost(e)), None;
      case Ok(candidates) =>
        r, sent := TryEachCandidate(job, factory, candidates, bindAt, failure);
    }
  }
}
