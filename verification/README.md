# etcd-compute scheduler: claim negotiation in Dafny

This project models the scheduler of etcd-compute (`ecomp/schedule.py`). The
scheduler asks the placement authority for ranked allocation candidates. It
claims them one by one under a single consumer id and stops at the first claim
the authority accepts. It then publishes a scheduling message for that claim
to the coordination store (etcd) under `/hosts/<provider>/<consumer>`. It can
also release an instance's allocation by publishing a release message, and it
can query the address an agent stored for an instance under `/booted/<instance>`.

Modules:

- `Maybe` (maybe.dfy): an option type.
- `Records` (records.dfy): allocations, kept as an ordered sequence of
  `(provider, resources)` entries so that "the first key" is defined. Also
  claims, scheduling messages and release messages. A `Field` type keeps a
  JSON `null` apart from a missing member. Members other than the six the
  scheduler names are kept, as opaque JSON text, in `others`.
- `Keys` (keys.dfy): the store keys and placement paths. Includes a parser
  that recovers the provider and consumer from a host key.
- `Store` (store.dfy): the store as a pure map, with unconditional puts.
- `Negotiator` (negotiator.dfy): `_schedule`. `Negotiate` is a recursive
  model that follows the source's pop-front structure. `ScheduleLoop` is the
  `while True` loop as written. `Expected` is a reference definition built
  from the stopping point alone. Both models are proved equal to it.
- `Manager` (manager.dfy): `main`'s argument dispatch and the `schedule`,
  `destroy` and `query` commands, returning an exit status instead of calling
  `sys.exit`.

Inputs from the outside world:

- The candidate fetch and the current-allocation fetch are inputs. `None`
  means the response had an error status.
- For each claim attempt, a `Reply` carries the two fresh uuids put into the
  claim and the authority's accept/reject verdict. Replies line up
  one-to-one with the candidates.
- The consumer uuid is a parameter.

Behaviours of the code that the model keeps as written:

- `destroy` on an instance whose allocation cannot be fetched only prints. It
  does not call `sys.exit`, so the process ends with status 0, not a
  non-zero status.
- `query` tests the stored value for truthiness. An empty stored value
  therefore exits 1, like a missing one.
- A candidate or fetched allocation with an empty `allocations` object
  makes `list(...keys())[0]` raise `IndexError`, which nothing catches. This
  is modelled as an uncaught exception (`Raised` / `Traceback`), not as a
  failure return. A candidate naming several providers is not rejected: the
  claim carries all of them and the message is keyed by the first.
- Success of `_schedule` is the truthiness of `target`, not a separate flag.
  So an accepted claim on a provider whose id is the empty string still
  publishes its message, yet `_schedule` returns `False` and `schedule`
  exits 1.

## Model

| member | source | states |
|---|---|---|
| Negotiator.Negotiate | ecomp/schedule.py:106-143 | at most one message is published, only when the run returns normally and after at least one claim; every claim is PUT to `/allocations/<consumer>` for the one consumer id; a successful run published exactly one message |
| Negotiator.FirstStop | ecomp/schedule.py:111-137 | the stopping point of the loop: every earlier candidate names a provider and was rejected, and the candidate at it (if any) is accepted or names no provider |
| Negotiator.NegotiateMeetsExpected | ecomp/schedule.py:106-143 | for all inputs the negotiation equals the reference outcome: claims for exactly the candidates up to the stopping point, then success/raise/failure and the single publication decided by the candidate there |
| Negotiator.ScheduleLoop | ecomp/schedule.py:106-143 | the `while True` pop/claim/break loop, with `target` reset on rejection and its truthiness deciding the result, produces the reference outcome |
| Negotiator.AttemptsFollowCandidateOrder | ecomp/schedule.py:109-126 | claims are issued strictly front to back, each candidate at most once, all for one consumer id; claim i carries candidate i's allocations, the fresh ids of attempt i and a null consumer generation; every claim but the last was rejected |
| Negotiator.FirstAcceptanceWins | ecomp/schedule.py:113-141 | when candidate k is the first accepted one, candidates 0..k are claimed and no later one; exactly one message is published, at `/hosts/<first provider of k>/<consumer>`, holding the claim plus `instance = consumer` and the image; the result is whether that provider id is non-empty |
| Negotiator.ExhaustionFails | ecomp/schedule.py:111-143 | when every candidate is rejected, or there are none, the result is false, each candidate was claimed once, and nothing is published |
| Negotiator.EmptyCandidateRaises | ecomp/schedule.py:113-118 | a candidate with no provider, reached after rejections, raises out of the loop after the earlier claims and with nothing published |
| Negotiator.VerdictCharacterized | ecomp/schedule.py:139-143 | the result is true iff some candidate wins and its first provider id is non-empty; the run raises iff an empty candidate is reached; a message is published iff some candidate wins |
| Negotiator.LaterCandidatesUntouched | ecomp/schedule.py:111-137 | two runs whose candidates agree up to where the first stops, and whose replies agree for the claimed candidates, end identically: candidates after the stop, and the reply for a candidate that raises, are never read |
| Negotiator.PublicationParses | ecomp/schedule.py:128-132 | the published message carries the winning candidate's allocations, `instance = consumer` and the image, and is keyed in the `/hosts/` namespace by a key that parses back to (first provider, consumer) when the provider id holds no '/' |
| Negotiator.TwoCandidateScenario | ecomp/schedule.py:111-141 | a rejected claim on PROV-A followed by an accepted claim on PROV-B gives success, two claims in order, and one message keyed by PROV-B with PROV-B's allocations, the consumer and the image |
| Records.ClaimShape | ecomp/schedule.py:119-124 | a claim body holds the candidate's whole allocations, the two fresh ids, a null consumer generation, and no other member |
| Records.MessageExtendsClaim | ecomp/schedule.py:128-130 | the message is a copy of the claim plus exactly `instance = consumer` and `image`; dropping those two gives the claim back |
| Records.ReleaseForgetsAmounts | ecomp/schedule.py:49-51 | the release record has empty allocations, null image and `instance` set to the given instance, keeps every other member, does not depend on the original amounts, and releasing it again changes nothing |
| Keys.HostKeyNamespace | ecomp/schedule.py:131 | every key built as `PREFIX/target/consumer` lies in the `/hosts/` namespace and differs from every `/booted/<instance>` key |
| Keys.ParseHostKeyRoundTrip | ecomp/schedule.py:131-132 | the key `/hosts/<target>/<consumer>` parses back to the same provider and consumer whenever the provider id holds no '/' |
| Keys.HostKeyInjective | ecomp/schedule.py:52-53 | release and scheduling keys for different (provider, consumer) pairs differ when provider ids hold no '/' |
| Store.Apply | ecomp/schedule.py:131-132 | puts overwrite unconditionally: the written keys are added, every other key keeps its value, and the last put's value is stored at its key |
| Store.PublishIdempotent | ecomp/schedule.py:52-53 | publishing the same puts twice leaves the store exactly as publishing them once |
| Manager.Contains | ecomp/schedule.py:79 | Python's substring test: true iff the needle occurs at some position of the argument |
| Manager.Dispatch | ecomp/schedule.py:78-95 | no arguments gives help; an argument 0 containing `resources` schedules it with image argument 1 or the default image; otherwise two arguments give `destroy <instance>` when the command is `destroy` and an unknown command otherwise; any other non-empty vector queries argument 0 |
| Manager.ScheduleCommand | ecomp/schedule.py:26-39 | a failed candidate fetch exits 1 with no claim and no write; otherwise the exit status is 0 iff some candidate wins with a non-empty provider id, an uncaught exception iff an empty candidate is reached, and 1 otherwise; a message is put iff some candidate wins |
| Manager.DestroyCommand | ecomp/schedule.py:42-55 | a found allocation yields one write at `/hosts/<first provider>/<instance>` of a record with empty allocations, null image, `instance` set, and user, project, generation and every other member kept; a failed fetch writes nothing and exits 0; empty allocations raise |
| Manager.ReleaseOverwritesScheduled | ecomp/schedule.py:42-55 | destroying the consumer a negotiation won, given any fetched allocation whose first provider is the winner's, writes its release at the exact key the scheduling message was published under, replacing that message and adding no key |
| Manager.QueryCommand | ecomp/schedule.py:58-66 | exits 0 iff a non-empty value is stored under `/booted/<instance>`, else 1; never writes |
| Manager.Main | ecomp/schedule.py:69-95 | only schedule and destroy write, at most once; only schedule submits claims; an unknown two-argument command exits 1; help exits 0 |
| Manager.MainLeavesBooted | ecomp/schedule.py:58-60 | no command adds, removes or changes a `/booted/<instance>` entry, so `query` answers the same after any run as before it |

## Left out

- HTTP session construction and headers (ecomp/schedule.py:72-77). The placement authority's real accept/reject behaviour under optimistic concurrency is replaced by the per-attempt verdicts in `Reply`.
- The etcd client construction and configuration loading in `run` (ecomp/schedule.py:146-153). The `conf` and `clients` modules are not part of this model.
- uuid generation (ecomp/schedule.py:109, 121-122). The ids are parameters, and their uniqueness is not modelled.
- JSON (de)serialisation and `copy.deepcopy`. Records are a datatype, so a fetch body that is not JSON, or that lacks `allocation_requests` or `allocations`, is not modelled.
- Transport errors raised by `session.get` (ecomp/schedule.py:30, 44), by `session.put` inside the claim loop (ecomp/schedule.py:126), and by the store's `put` and `get` (ecomp/schedule.py:52, 60, 131). Each ends the source with a traceback. The model treats every request as answered, so a transport error after some claims were submitted is not represented.
- A rejected claim whose response body is not JSON. `resp.json()` at ecomp/schedule.py:135 then raises mid-loop, whereas the model's rejection always moves on to the next candidate.
- A `/booted/` value that is not valid UTF-8. `decode` at ecomp/schedule.py:62 then raises, whereas `QueryCommand` exits 0 for any non-empty value.
- Distinct provider keys in an allocations object. `Records.DistinctProviders` states the property, but no member requires it. The verdict and every store key read only the first entry, so duplicates cannot change them. The claim and the published message carry the whole allocations, so any duplicates appear in them.
- Distinct members in a record. `Records.DistinctMembers` states that `others` never repeats a member the scheduler names, but no member requires it. A record that breaks it stands for a JSON object with a duplicated member, which a parsed object cannot have.
- The resource query string, which is only forwarded in the candidate-fetch URL (ecomp/schedule.py:29). It is kept in `Command.Schedule` but does not influence the fetched candidates, which are an input.
- All `print` diagnostics, including the message text of `query` on success.
- Races between independent schedulers. These are concurrency outside the code.
- Manager.Main: its contract states only the write and exit-status facts that hold for every command; the per-command exit statuses are stated by ScheduleCommand, DestroyCommand and QueryCommand.
