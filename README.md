# rate-delay-simulation: a Dafny model of the ARQ core

This project models the core of a simulated reliable packet transport:

- a **Gilbert-Elliot loss model**: a two-state Good/Bad Markov chain that decides whether each message crossing the link survives;
- a **transmitter**: paced first sends, a token pool that acts as the window, acknowledgment handling and timeout-driven resubmission through a FIFO queue;
- a **base station**: it acknowledges every arrival, caches packets that arrive ahead of the next expected id, and rebuilds the in-order sequence.

It proves properties of each part. The model has four modules, one per source file of the core plus one for the shared message shapes:

- `Channel` (`channel.dfy`): the `Packet` and `Response` shapes. Timestamps are abstract clock values (`nat`).
- `PathLoss` (`path_loss.dfy`): the loss decision as pure functions, and a class `GilbertElliot` whose state is updated in place. `Attempts` is a reference definition for a series of `transmit` calls.
- `BaseStation` (`base_station.dfy`): the reordering logic as functions on a value state (`Drain`, `Step`, `Run`) with lemmas about it. The class `BaseStation` holds the cache map and the processed list as fields. Its per-packet method `Receive` contains the drain loop (`ProcessCached`). Its loop method `RunSimulation` is proved equal to `Step` and `Run`.
- `Transmitter` (`transmitter.dfy`): the class `Transmitter` has fields for the free tokens, the confirmed set, the resubmission queue and the next id. It also has the record the resubmission loop is sleeping on and a log of everything handed to the forward channel. Each of the Rust implementation's three loops becomes one atomic step method: `SendNext`, `HandleResponse` and `Resubmit`. Each step keeps the object invariant `Valid()`.

Clock values, the packets delivered by the channel and the random samples are parameters of the steps.

Three behaviours of the Rust code shape the model:

- **Window bound.** The code does not bound the number of unacknowledged ids by the window. The base station acknowledges every arrival, duplicates included, and every ACK returns a token. Only "the pool never holds more than `max_unconfirmed_packets` tokens" is guaranteed and proved.
- **ACK for an unsent id.** The code does not treat this as fatal. It inserts the id and returns a token. The model does the same.
- **Termination test.** The receiver's test is `capacity() == len()`. It is modelled as `len == numPackets`, with arriving ids below `numPackets`.

## Model

| member | source | states |
|---|---|---|
| `BaseStation.BaseStation.constructor` | src/base_station.rs:16-31 | a new station has an empty cache, an empty processed list and has sent no response |
| `BaseStation.BaseStation.Receive` | src/base_station.rs:34-62 | one arrival: exactly one `ACK(packet.id)` is appended to the responses in every branch; the new state is `Step` of the old one; `done` holds iff the arrival was in order and the list length reached `numPackets`; the invariant `Inv` is kept |
| `BaseStation.BaseStation.ProcessCached` | src/base_station.rs:50-58 | the drain loop removes the consecutive cached ids from `from` upward, appends them stamped with `now`, and stops at the first id that is missing (equal to `Drain`) |
| `BaseStation.BaseStation.RunSimulation` | src/base_station.rs:33-65 | the receive loop's final state and returned list are those of `Run`. It stops right after the delivery that completes the list, or else returns the partial list when the input ends. The responses are one ACK per consumed arrival, in arrival order |
| `BaseStation.DrainStops` | src/base_station.rs:51-57 | the drain ends at the first id after the expected one that is not cached |
| `BaseStation.DrainAt` | src/base_station.rs:52-54 | the i-th drained packet is the cached packet with id `next + i`, stamped with the step's time |
| `BaseStation.DrainRest` | src/base_station.rs:52 | after the drain the cache holds exactly the entries outside the drained run, unchanged |
| `BaseStation.StepOutOfOrder` | src/base_station.rs:41-43 | a packet ahead of the expected id is inserted into the cache (overwriting an earlier copy) and the processed list is unchanged; a packet behind it changes nothing |
| `BaseStation.StepInOrder` | src/base_station.rs:44-58 | an in-order packet is appended stamped; then every contiguous cached successor is removed from the cache and appended stamped; the new length is not a cached key, before or after |
| `BaseStation.StepKeepsInv` | src/base_station.rs:38-58 | each arrival keeps the invariant: the processed list holds ids `0..len-1` in order, all stamped, `len <= numPackets`, and every cached key is greater than `len`, below `numPackets`, and keys its own packet |
| `BaseStation.StepKeepsConsistent` | src/base_station.rs:41-58 | after each arrival, an id is processed or cached iff it has arrived |
| `BaseStation.InitialConsistent` | src/base_station.rs:28-29 | the empty station accounts for no arrival |
| `BaseStation.RunPreserves` | src/base_station.rs:34-64 | over a run the invariant holds, the state accounts for exactly the consumed arrivals, and the run ends before its input only when the list is complete |
| `BaseStation.RunStopsAtFirstCompletion` | src/base_station.rs:59-61 | starting incomplete, every proper prefix of the consumed arrivals leaves the list incomplete: the run returns at the first completion and consumes (and acknowledges) no later arrival |
| `BaseStation.IncompleteBefore` | src/base_station.rs:59-61 | the same for one prefix length |
| `BaseStation.IdsPrefix` | src/base_station.rs:34 | the ids of consumed arrivals are among the ids of all arrivals |
| `BaseStation.IdsArrived` | src/base_station.rs:34 | the collected ids are exactly the ids that arrived |
| `BaseStation.RunDeliversPrefix` | src/base_station.rs:33-65 | from an empty station the output is ids `0..len-1` in order, all stamped and all arrived; if incomplete, the id `len` never arrived (the output stops at the first gap) |
| `BaseStation.RunCompleteIff` | src/base_station.rs:59-64 | a run delivers all `numPackets` packets iff every id below `numPackets` arrives |
| `BaseStation.StepKeepsTimely` | src/base_station.rs:43-54 | a step at a clock value `now` no earlier than the last, on a packet sent no later than `now`, keeps every stamp at or after its packet's send time and at or before `now` |
| `BaseStation.RunKeepsTimely` | src/base_station.rs:34-64 | over a whole run in which arrival clock values never go back, none is earlier than the last, and no packet arrives before it was sent, every stamp stays at or after its packet's send time and at or before the returned `t'`, which is the clock value of the last consumed arrival (or the starting `t` when none is consumed) |
| `BaseStation.ProcessedAfterSent` | src/base_station.rs:46-53 | if no packet arrives before it was sent and arrival clock values never go back, every delivered packet has `processed = Some(t)` with `t` at or after its send time |
| `BaseStation.ReorderExample` | src/base_station.rs:41-58 | arrivals 2, 0, 1 with three packets expected: 2 is cached first, and the run consumes all three and yields 0, 1, 2 with an empty cache |
| `BaseStation.Run` | src/base_station.rs:34-64 | a run consumes at most the arrivals it is given |
| `Transmitter.Transmitter.constructor` | src/transmitter.rs:29-35 | requires a positive pool size (a bounded channel of capacity 0 cannot be created); the pool starts with exactly `maxUnconfirmed` tokens (filled one at a time); nothing is confirmed, queued, held or sent; the next id is 0 |
| `Transmitter.Transmitter.SendNext` | src/transmitter.rs:100-119 | if every id has been sent (always when `numPackets == 0`), nothing happens; with no free token the loop blocks and nothing changes; otherwise one token is taken and packet `nextId` (sent now, unprocessed) goes out and is queued due at `now + retransmissionDelay`, and `nextId` advances. The invariant is kept |
| `Transmitter.Transmitter.HandleResponse` | src/transmitter.rs:64-71 | an ACK returns one token and adds its id to the confirmed set (the set only grows); a NACK never arrives; the release happens only while the pool has room, so the pool stays within its capacity |
| `Transmitter.Transmitter.Resubmit` | src/transmitter.rs:82-97 | the first pending record (the one held, else the queue head) is slept on if not due (a fresh record only if unconfirmed); else discarded if confirmed (not resent, not requeued); else resent once and requeued once at `now + retransmissionDelay`. No token moves, and a resent id is never confirmed |
| `Transmitter.Transmitter.TakeFirst` | src/transmitter.rs:82 | taking the first pending record leaves the rest well-formed, and the record is one that was sent |
| `Transmitter.Transmitter.ResendNext` | src/transmitter.rs:93-96 | a resend appends the packet to the forward channel and requeues it with a fresh due time, keeping the queue in due order |
| `Transmitter.FifoIsDueOrder` | src/transmitter.rs:94-95 | a queue whose neighbours are in due order is in due order throughout, so FIFO order is due-time order |
| `Transmitter.DueOrderedPair` | src/transmitter.rs:94-95 | any two queued records, the earlier one is due no later |
| `Transmitter.EnqueueKeepsOrder` | src/transmitter.rs:117-118 | enqueuing a record due no earlier than all queued ones keeps the order |
| `Transmitter.WellQueuedTail` | src/transmitter.rs:82 | dequeuing keeps the queue in order, bounded and made of sent packets |
| `Transmitter.WellQueuedLater` | src/transmitter.rs:86 | a later clock keeps every due time within its bound |
| `PathLoss.GilbertElliot.constructor` | src/path_loss.rs:21-37 | a new model keeps its four parameters and starts in `Good` |
| `PathLoss.GilbertElliot.MaybeNextState` | src/path_loss.rs:39-55 | from `Good` the state becomes `Bad` iff the sample is below `probGoodToBad`; from `Bad` it becomes `Good` iff the sample is below `probBadToGood`; the new state is returned |
| `PathLoss.GilbertElliot.Transmit` | src/path_loss.rs:57-64 | the state is first moved; the message survives iff the second sample is at least the error rate of the moved-to state; one call is one step of `Attempts` |
| `PathLoss.Attempts` | src/path_loss.rs:39-64 | a series of calls: each attempt's state is the transition of the previous one's, and its decision uses that state and its own loss sample |
| `PathLoss.ZeroErrorRatesNeverDrop` | src/path_loss.rs:59-62 | with samples in [0, 1) and both error rates 0, no message is ever dropped |
| `PathLoss.UnitErrorRatesAlwaysDrop` | src/path_loss.rs:59-62 | with samples in [0, 1) and both error rates 1, every message is dropped |
| `PathLoss.StaysGood` | src/path_loss.rs:39-61 | with `probGoodToBad = 0` a link starting in `Good` stays `Good` for every attempt and drops exactly by the Good error rate |
| `PathLoss.StaysGoodAt` | src/path_loss.rs:43-47 | the same for the attempt at one index |

## Left out

- Async tasks, mutexes and interleaving: each loop iteration of the transmitter, the base station and the link is one atomic step. Steps of different loops can be called in any order.
- Real sleeps and clocks: the processing interval, the transmission interval and the wait until a record is due become an explicit `now` parameter. Timed steps require a clock that never goes back. The sleep in the resubmission loop is modelled as a held record that a later `Resubmit` with `now` at or past its due time wakes.
- Rate-to-interval float computations (src/transmitter.rs:26-27, src/base_station.rs:22-23): they only feed sleeps.
- The random number generator: both uniform samples of `transmit` are inputs. The lemmas that need them assume they lie in [0, 1). Probabilities are `real`; the code only compares them.
- Message delivery in src/channel.rs:42-58 (spawned delayed delivery, the lossy gate applied per send, the bounded queues of capacity 1000): the model's forward channel is the log `sent`, and the base station consumes an arbitrary delivered sequence.
- Backpressure: a token release that would block on a full pool is a precondition of `HandleResponse`. A full resubmission queue is not modelled.
- Shared link state across clones (`Arc`): one link instance is modelled.
- src/main.rs (argument parsing, CSV output, bootstrapping).
- `BaseStation.BaseStation.Receive`: all packets stamped in one arrival step get the same clock value. The code reads the clock once per packet.
- `BaseStation.BaseStation.Receive`: the termination test `capacity() == len()` is modelled as `len == numPackets`, since `Vec::with_capacity` may allocate more. Arriving ids are required to be below `numPackets`.
- Integer widths: ids, lengths and timestamps are unbounded. Every id is below `numPackets`, itself a `u32`, so the receiver's `next_packet_id` cannot wrap.
- `Transmitter.Transmitter.SendNext`: the number of outstanding ids is not bounded by the window, as explained above; only the pool bound is stated.
