# statsd-prober, modelled in Dafny

statsd-prober sends the statsd counter line `<key>:1|c` as a UDP datagram to each
configured target, once per tick. Each job resolves its target's address. It asks a
shared socket factory for a socket for each resolved candidate, in order, and sends
its payload through the first socket it gets. The factory creates its sockets lazily
and keeps them.

This project models that decision logic and proves properties of it:

- `utf8.dfy` (module `Utf8`): the UTF-8 encoding that `String::into_bytes` performs.
  It is proved to distribute over concatenation, to be injective, and to give one
  byte per character on ASCII text.
- `payload.dfy` (module `Payload`): `build_payload`. The repository defines it twice
  with the same body, in `src/prober/job.rs` and in `src/prober/job/mod.rs`. It is
  modelled once here.
- `socket.dfy` (module `Socket`): the socket factory. `GetStep` is `Factory::get` as
  a function of the two slots and of the bind outcome. The class `Factory` has the
  two `Option` slots, and its method `Get` is proved against `GetStep`.
- `job.dfy` (module `ProbeJob`): `Job::new`, `send_payload` and `Job::probe`.
  `ProbeSpec` states the whole outcome of a probe. The method `Probe` runs the
  candidate loop against a `Factory` and is proved against `ProbeSpec`.
- `scheduler.dfy` (module `Scheduler`): `Prober::new` and one `probe_all` pass. The
  job mutexes are modelled as the array `locked`.
- `args.dfy` (module `Args`): `parse_targets` from `src/args.rs`, and the empty
  default used when `-t` is absent.
- `wrappers.dfy`: `Option` and `Result`.

Oracles stand in for the I/O. The resolver's answer (an error, or candidates in
order) is a parameter of type `Lookup`. The outcome of each bind is given per
candidate index by a `BindOracle`. The error of `send_to`, if any, is an
`Option<IoError>`. The factory carries two ghost logs, `requests` (every address
passed to `get`) and `bindLog` (the local endpoint of every bind attempt). They let
the contracts say which candidates were asked for and when a bind happened.

### Where the model follows the code as written

- **The IPv6 branch of `Factory::get` uses the IPv4 slot** (src/prober/socket.rs:39).
  The factory declares a separate `ipv6_socket` slot (src/prober/socket.rs:18),
  so each family was evidently meant to have its own. As written, an IPv6 request reads
  `ipv4_socket`, and when that slot is empty it binds `[::]:0` and stores the
  socket in `ipv4_socket`. `ipv6_socket` is never read or written, and a socket
  bound for one family is handed out for the other. The model reproduces this.
  `GetSlotDiscipline`, `Ipv6SlotNeverWritten` and `Ipv6ReusesIpv4Socket` state it.
  `FamilyFallback` shows that both binds of a fallback go to the IPv4 slot.
- **Busy jobs are skipped.** A job's probes from two ticks never overlap. The code
  guards each job with a mutex and skips, for that tick, a job whose mutex is still
  held by the previous tick's task (src/prober/mod.rs:48). The model does the same.
- **The factory is shared.** `probe` takes the factory by value, but its caller
  passes a shared reference (src/prober/mod.rs:50). The model passes one shared
  `Factory` object.
- `src/prober/job/mod.rs` declares `mod socket;`, but the factory lives in
  `src/prober/socket.rs`. The model uses that file as the factory.

## Model

| member | source | states |
|---|---|---|
| `Utf8.EncodeChar` | src/prober/job/mod.rs:16 | one character encodes to 1 to 4 bytes; the leading byte announces the length and the rest are continuation bytes |
| `Utf8.EncodeCharInjective` | src/prober/job/mod.rs:16 | distinct characters have distinct encodings |
| `Utf8.Encode` | src/prober/job/mod.rs:16 | a string's bytes are at least as many as its characters, and only the empty string encodes to nothing |
| `Utf8.EncodeConcat` | src/prober/job/mod.rs:15-16 | the bytes of a concatenation are the concatenation of the bytes |
| `Utf8.EncodeAscii` | src/prober/job/mod.rs:15-16 | an ASCII string encodes to one byte per character, equal to the character's code |
| `Utf8.EncodeInjective` | src/prober/job/mod.rs:16 | distinct strings have distinct byte encodings |
| `Payload.IncrementEncoding` | src/prober/job/mod.rs:15 | the suffix `:1\|c` is the four bytes 0x3A 0x31 0x7C 0x63 |
| `Payload.BuildPayload` | src/prober/job/mod.rs:14-18 | the payload is the key's bytes followed by the four bytes of `:1\|c`, for every key |
| `Payload.PayloadLength` | src/prober/job.rs:1-5 | the payload is 4 bytes longer than the key's encoding; for an ASCII key it is the key's length plus 4 |
| `Payload.PayloadPrefixSuffix` | src/prober/job.rs:2 | the key's bytes are a prefix of the payload and `:1\|c` the rest |
| `Payload.PayloadInjective` | src/prober/job.rs:2 | distinct keys give distinct payloads |
| `Payload.SeparatorsNotEscaped` | src/prober/job/mod.rs:15 | a key containing `:` and `\|` is copied into the payload without escaping |
| `Socket.GetStep` | src/prober/socket.rs:26-50 | `Factory::get` as a function of the old slots and the bind outcome; it has no ensures of its own: `GetBindsWhenEmpty`, `GetReusesSetSlot`, `GetBindFailureLeavesSlot`, `GetUnknownFamily`, `GetSlotDiscipline` and `Ipv6ReusesIpv4Socket` state its properties, and `Factory.Get` is proved equal to it |
| `Socket.GetBindsWhenEmpty` | src/prober/socket.rs:27-46 | with the slot empty, a successful bind on the family's wildcard endpoint fills the slot and its socket is returned |
| `Socket.GetReusesSetSlot` | src/prober/socket.rs:28-29 | with the slot filled, its socket is returned, nothing is bound and nothing changes |
| `Socket.GetBindFailureLeavesSlot` | src/prober/socket.rs:30-33 | a failed bind returns `Bind` with its cause and leaves the slot empty |
| `Socket.GetUnknownFamily` | src/prober/socket.rs:49 | an address of neither family yields `UnknownSocketType`, binds nothing and changes no slot |
| `Socket.GetSlotDiscipline` | src/prober/socket.rs:26-50 | a call leaves the slots alone or fills the empty IPv4 slot with the socket it returns; the IPv6 slot is never written; a call succeeds exactly when the family is known and the slot is filled or the bind succeeds; a bind is attempted exactly when the family is known and the slot is empty |
| `Socket.Ipv6ReusesIpv4Socket` | src/prober/socket.rs:38-46 | as written, after an IPv4 socket is bound, an IPv6 request gets that same socket with no bind |
| `Socket.SlotsAfter` | src/prober/socket.rs:26-50 | the slots after a sequence of `get` calls, each `GetStep` in turn; it has no ensures of its own: `SetSlotIsPermanent` and `Ipv6SlotNeverWritten` state its properties |
| `Socket.SetSlotIsPermanent` | src/prober/socket.rs:28-33 | once the slot holds a socket, no sequence of later calls changes the slots |
| `Socket.Ipv6SlotNeverWritten` | src/prober/socket.rs:17-46 | no sequence of calls changes the IPv6 slot |
| `Socket.BindRetriedAfterFailure` | src/prober/socket.rs:30-33 | after a failed bind, the next call binds again and can fill the slot |
| `Socket.Factory.constructor` | src/prober/socket.rs:15-24 | a new factory has both slots empty |
| `Socket.Factory.Get` | src/prober/socket.rs:26-50 | the new slots, the result and the bind attempts are those of `GetStep` on the old slots; the address is logged as requested |
| `ProbeJob.NewJob` | src/prober/job/mod.rs:26-31 | the job keeps the address verbatim and its payload is the key's bytes followed by `:1\|c` |
| `ProbeJob.SendPayloadTo` | src/prober/job/mod.rs:33-43 | one datagram carrying the job's payload is handed to `send_to` for the given address through the given socket; the result is `SendResult` of the send's error, so a send error is returned as `SendPayload` |
| `ProbeJob.SendResult` | src/prober/job/mod.rs:38-42 | the result of `send_payload`: no send error gives `Ok(())`, an error `e` gives `SendPayload(e)`; it has no ensures of its own, and `SendPayloadTo` and `ProbeTriesCandidatesInOrder` are stated through it |
| `ProbeJob.TryCandidates` | src/prober/job/mod.rs:48-58 | the candidate loop from candidate `i` on, as a function of the slots, the last socket error and the oracles; it has no ensures of its own: `TryCandidatesInOrder` states its properties, and `TryEachCandidate` is proved equal to it |
| `ProbeJob.ProbeSpec` | src/prober/job/mod.rs:45-59 | the whole outcome of `Job::probe`; it has no ensures of its own: `ProbeLookupError`, `ProbeNoCandidates`, `ProbeTriesCandidatesInOrder`, `FamilyFallback` and `SingleReachableCandidate` state its properties, and `Probe` is proved equal to it |
| `ProbeJob.ProbeLookupError` | src/prober/job/mod.rs:48 | a resolver error yields `LookupHost` with its cause; the factory is not asked, nothing is bound or sent |
| `ProbeJob.ProbeNoCandidates` | src/prober/job/mod.rs:55-58 | an empty candidate list yields `LookupHostEmpty`; nothing is requested or sent |
| `ProbeJob.TryCandidatesInOrder` | src/prober/job/mod.rs:48-58 | from any candidate on, the loop asks for a contiguous run of candidates, stops at the first socket obtained and sends only there, and otherwise reports the last socket error or, with none, `LookupHostEmpty` |
| `ProbeJob.ProbeTriesCandidatesInOrder` | src/prober/job/mod.rs:45-59 | with candidates, a prefix of them is asked for in order; all but the last fail; if the last yields a socket, the payload is sent there through it and the send's outcome is the result; otherwise every candidate was tried and `SocketFactory` carries the last error |
| `ProbeJob.FamilyFallback` | src/prober/job/mod.rs:48-53 | a failing IPv6 candidate followed by a reachable IPv4 one gives success, sent to the IPv4 address, with both binds on the IPv4 slot |
| `ProbeJob.SingleReachableCandidate` | src/prober/job/mod.rs:48-51 | a single candidate of a known family whose socket can be had gives success when the send succeeds |
| `ProbeJob.TryEachCandidate` | src/prober/job/mod.rs:48-58 | the loop over the candidates ends with the result, datagram, slots, requests and binds that `TryCandidates` gives from the first candidate on the old slots |
| `ProbeJob.Probe` | src/prober/job/mod.rs:45-59 | the result, the datagram sent, the new slots, the candidates requested and the binds are exactly those of `ProbeSpec` |
| `Scheduler.BuildJobs` | src/prober/mod.rs:19-28 | one job per target, in order: job `i` has target `i`'s address and the payload built from its key |
| `Scheduler.Unlocked` | src/prober/mod.rs:43-48 | the `try_lock` dispatch rule: the indices of the jobs whose lock is free; it has no ensures of its own: `UnlockedExactlyFree`, `UnlockedExtend` and `AllFreeDispatchesAll` state its properties, and `Prober.ProbeAll` is proved equal to it |
| `Scheduler.UnlockedExactlyFree` | src/prober/mod.rs:43-48 | the result lists, in increasing order, exactly the indices whose lock is free |
| `Scheduler.UnlockedExtend` | src/prober/mod.rs:43-48 | visiting one more job adds that job's index exactly when its lock is free |
| `Scheduler.AllFreeDispatchesAll` | src/prober/mod.rs:43-50 | when no lock is held, every job index is dispatched, in order |
| `Scheduler.Prober.constructor` | src/prober/mod.rs:16-31 | the interval is copied; the jobs are `BuildJobs` of the targets; the factory is new with both slots empty and nothing requested or bound; every job's lock is free |
| `Scheduler.Prober.ProbeAll` | src/prober/mod.rs:42-54 | the dispatched indices are exactly the free ones, in order; each is locked by its new task and busy jobs are skipped; afterwards every lock is held; the jobs are unchanged |
| `Scheduler.Prober.FinishTask` | src/prober/mod.rs:47-52 | the dispatched job's probe runs against the shared factory as `ProbeSpec` says (result, datagram, new slots, requests and binds appended to the factory's logs), then its lock alone is released |
| `Scheduler.TickWithFailingJob` | src/prober/mod.rs:42-54 | on a tick over three idle jobs, all three are dispatched; the second job's task finishes first, on the factory as the tick found it, and whatever its resolution, binds and send do to the shared factory (including filling the empty slot), the first and third jobs, each with one reachable IPv4 or IPv6 candidate, succeed |
| `Scheduler.FailingJobIsIsolated` | src/prober/mod.rs:33-40 | over three consecutive ticks, every tick dispatches all three jobs and, whatever the second job's resolution, binds and send do on each tick, each tick with its own oracles, the other two succeed each time |
| `Scheduler.BusyJobIsSkipped` | src/prober/mod.rs:48 | a job whose task has not finished is skipped on the next tick, while a finished one is dispatched again |
| `Args.ParseTargets` | src/args.rs:24-36 | there are half as many targets as values, rounded down; target `i` is values `2i` and `2i+1` as address and key |
| `Args.TargetsOf` | src/args.rs:66-68 | without `-t` values there are no targets; with them, the targets are those of `parse_targets`: half as many as the values, target `i` being values `2i` and `2i+1` |
| `Args.ParseTargetsConcat` | src/args.rs:28-35 | pairing preserves order: the targets of two value lists, the first of even length, are the targets of each in turn |
| `Args.ParseFirstTarget` | src/args.rs:79-90 | the first pair of values is the first target |
| `Args.ParseNextTarget` | src/args.rs:93-104 | the second pair of values is the second target |

## Left out

- Command-line parsing with clap and duration parsing with humantime (src/args.rs:38-65): these are library calls. Only the pairing of the `-t` values and the empty default are modelled. An odd number of `-t` values is refused by clap; the model's pairing simply drops the trailing value, as `tuples()` does.
- The periodic loop `probe_all_periodically` (src/prober/mod.rs:33-40), its timer and the first-tick timing: only single dispatch passes are modelled. `FailingJobIsIsolated` runs three passes in a row.
- Concurrency: tasks racing to fill a slot, the async mutex around each socket, and `try_lock` racing other tasks. Every operation is modelled as one sequential step. A dispatched task is split into `ProbeAll` (taking the lock) and `FinishTask` (probing and releasing it). `FinishTask` requires the job's lock to be held, because only a dispatched task finishes.
- Socket.Factory.Get: the lock taken on the stored socket (`socket.lock()`) is not modelled. Sequentially it is always acquired, so `Get` returns the socket itself.
- Name resolution (`net::lookup_host`), `UdpSocket::bind` and `send_to`: these are I/O, so their outcomes are oracle parameters. A job's address is therefore not interpreted by the model; it is only stored.
- The `.unwrap()` on a probe's result inside the spawned task (src/prober/mod.rs:50) panics that task on an error. The panic message that Rust's default panic hook writes to stderr (`called Result::unwrap() on an Err value: ...`, with the error's debug form) is the program's only trace of a failed probe and of its error kind. No code reads it, and the model does not produce it. The lock is released either way. `FinishTask` returns the result so that it can be stated.
- Rust's `SocketAddr` has only IPv4 and IPv6 variants, so `UnknownSocketType` (src/prober/socket.rs:49) cannot arise in the source. The model adds an `OtherFamily` variant so that this branch is still modelled.
- The send oracle does not depend on whether the socket's bound family matches the destination's. The model therefore does not capture what the as-written cross-family reuse (src/prober/socket.rs:39) does to a send: an IPv4-bound socket handed to an IPv6 candidate, or an IPv6-bound one handed to a later IPv4 candidate, may be refused by the operating system. The model's send outcome is whatever the oracle says, for either case.
- Hosts and ports of socket addresses are opaque numbers, with no width limits. A `Duration` is a natural number of nanoseconds.
- src/main.rs (process bootstrap) and src/prober.rs (a data-only `ProbeTarget` with an interval field, which conflicts with src/prober/mod.rs) are not part of this model.
- Properties the code does not have are not claimed: the IPv6 slot is not isolated from IPv4 requests, and probes have no timeout.
