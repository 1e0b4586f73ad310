/** The reordering receiver. Packets arrive in any order; the station
    acknowledges each arrival, caches packets that are ahead of the next
    expected id, and appends the expected packet followed by every cached
    successor that is contiguous with it. */
module BaseStation {
  import opened Channel

  /** A packet handed to the station, with the clock value at which it is processed. */
  datatype Arrival = Arrival(packet: Packet, at: nat)

  /** The station's state as a value: the reorder cache and the processed list. */
  datatype Station = Station(cache: map<nat, Packet>, processed: seq<Packet>)

  const Initial := Station(map[], [])

  function Stamp(p: Packet, now: nat): Packet {
    p.(processed := Some(now))
  }

  /** The state invariant: the processed list holds ids 0, 1, ..., len - 1 in
      order, each stamped; every cached key is beyond the next expected id
      (which is the length of the processed list), below the packet count,
      and maps to the packet with that id. */
  ghost predicate Inv(st: Station, n: nat) {
    && |st.processed| <= n
    && (forall i :: 0 <= i < |st.processed| ==> st.processed[i].id == i && st.processed[i].processed.Some?)
    && (forall k :: k in st.cache ==> |st.processed| < k < n && st.cache[k].id == k)
  }

  /** The state accounts for exactly the ids in `seen`: an id has arrived iff
      it is processed or cached. */
  ghost predicate Consistent(st: Station, seen: set<nat>) {
    forall k: nat :: k in seen <==> k < |st.processed| || k in st.cache
  }

  /** Removes `next`, `next + 1`, ... from the cache for as long as they are
      present, returning the removed packets stamped with `now`, in id order,
      and what is left of the cache. */
  function Drain(cache: map<nat, Packet>, next: nat, now: nat): (seq<Packet>, map<nat, Packet>)
    decreases |cache.Keys|
  {
    if next in cache then
      var rest := Drain(cache - {next}, next + 1, now);
      ([Stamp(cache[next], now)] + rest.0, rest.1)
    else
      ([], cache)
  }

  /** Drain stops at the first id after `next` that is not cached. */
  lemma {:induction false} DrainStops(cache: map<nat, Packet>, next: nat, now: nat)
    ensures next + |Drain(cache, next, now).0| !in cache
    decreases |cache.Keys|
  {
    if next in cache {
      DrainStops(cache - {next}, next + 1, now);
    }
  }

  /** The i-th drained packet is the cached packet with id `next + i`, stamped. */
  lemma {:induction false} DrainAt(cache: map<nat, Packet>, next: nat, now: nat, i: nat)
    requires i < |Drain(cache, next, now).0|
    ensures next + i in cache
    ensures Drain(cache, next, now).0[i] == Stamp(cache[next + i], now)
    decreases i
  {
    if i > 0 {
      DrainAt(cache - {next}, next + 1, now, i - 1);
    }
  }

  /** What is left in the cache is everything outside the drained run, unchanged. */
  lemma {:induction false} DrainRest(cache: map<nat, Packet>, next: nat, now: nat, k: nat)
    ensures var r := Drain(cache, next, now);
      k in r.1 <==> k in cache && (k < next || next + |r.0| <= k)
    ensures k in Drain(cache, next, now).1 ==> Drain(cache, next, now).1[k] == cache[k]
    decreases |cache.Keys|
  {
    if next in cache {
      DrainRest(cache - {next}, next + 1, now, k);
    }
  }

  /** Whether `p` is the packet the station expects next. */
  predicate InOrder(st: Station, p: Packet) {
    p.id == |st.processed|
  }

  /** The reordering logic for one arrival processed at time `now`. */
  function Step(st: Station, p: Packet, now: nat): Station {
    var next := |st.processed|;
    if p.id > next then
      st.(cache := st.cache[p.id := p])
    else if p.id == next then
      var d := Drain(st.cache, next + 1, now);
      Station(d.1, st.processed + [Stamp(p, now)] + d.0)
    else
      st
  }

  /** The run stops right after an in-order delivery that completes the list. */
  predicate Stops(st: Station, p: Packet, now: nat, n: nat) {
    InOrder(st, p) && |Step(st, p, now).processed| == n
  }

  /** The result of a run: the final state and how many arrivals it consumed. */
  datatype Outcome = Outcome(station: Station, consumed: nat)

  /** Processes arrivals until the stop condition holds or the input ends. */
  function Run(st: Station, arrivals: seq<Arrival>, n: nat): (r: Outcome)
    ensures r.consumed <= |arrivals|
    decreases |arrivals|
  {
    if arrivals == [] then Outcome(st, 0)
    else
      var a := arrivals[0];
      var st' := Step(st, a.packet, a.at);
      if Stops(st, a.packet, a.at, n) then Outcome(st', 1)
      else
        var r := Run(st', arrivals[1..], n);
        Outcome(r.station, r.consumed + 1)
  }

  /** The ids among the given arrivals. */
  function Ids(arrivals: seq<Arrival>): set<nat>
    decreases |arrivals|
  {
    if arrivals == [] then {} else {arrivals[0].packet.id} + Ids(arrivals[1..])
  }

  /** Whether a packet with this id is among the arrivals. */
  predicate Arrived(arrivals: seq<Arrival>, id: nat) {
    exists j :: 0 <= j < |arrivals| && arrivals[j].packet.id == id
  }

  predicate IdsBelow(arrivals: seq<Arrival>, n: nat) {
    forall i :: 0 <= i < |arrivals| ==> arrivals[i].packet.id < n
  }

  /** One acknowledgment per arrival, in arrival order. */
  function Acks(arrivals: seq<Arrival>): seq<Response> {
    seq(|arrivals|, i requires 0 <= i < |arrivals| => ACK(arrivals[i].packet.id))
  }

  /** A packet ahead of the expected id is cached, overwriting an earlier
      copy, and the processed list is untouched; a packet behind it changes
      nothing. */
  lemma StepOutOfOrder(st: Station, p: Packet, now: nat)
    requires p.id != |st.processed|
    ensures Step(st, p, now).processed == st.processed
    ensures p.id > |st.processed| ==> Step(st, p, now).cache == st.cache[p.id := p]
    ensures p.id < |st.processed| ==> Step(st, p, now) == st
  {
  }

  /** An in-order arrival appends the packet and then its contiguous cached
      successors, each stamped with `now` and removed from the cache; the new
      length is the first id above the packet's that was not cached. */
  lemma StepInOrder(st: Station, p: Packet, now: nat)
    requires p.id == |st.processed|
    ensures var st' := Step(st, p, now);
      |st'.processed| > |st.processed| && st'.processed[..|st.processed|] == st.processed
    ensures Step(st, p, now).processed[|st.processed|] == Stamp(p, now)
    ensures var st' := Step(st, p, now);
      forall i :: |st.processed| < i < |st'.processed| ==>
        i in st.cache && i !in st'.cache && st'.processed[i] == Stamp(st.cache[i], now)
    ensures |Step(st, p, now).processed| !in st.cache
    ensures |Step(st, p, now).processed| !in Step(st, p, now).cache
  {
    var next := |st.processed|;
    var d := Drain(st.cache, next + 1, now);
    var st' := Step(st, p, now);
    assert st'.processed == st.processed + [Stamp(p, now)] + d.0;
    forall i | next < i < |st'.processed|
      ensures i in st.cache && i !in st'.cache && st'.processed[i] == Stamp(st.cache[i], now)
    {
      assert st'.processed[i] == d.0[i - (next + 1)];
      DrainAt(st.cache, next + 1, now, i - (next + 1));
      DrainRest(st.cache, next + 1, now, i);
    }
    DrainStops(st.cache, next + 1, now);
    DrainRest(st.cache, next + 1, now, |st'.processed|);
  }

  /** Each step keeps the invariant. */
  lemma {:induction false} StepKeepsInv(st: Station, p: Packet, now: nat, n: nat)
    requires Inv(st, n) && p.id < n
    ensures Inv(Step(st, p, now), n)
  {
    var next := |st.processed|;
    var st' := Step(st, p, now);
    if p.id == next {
      var d := Drain(st.cache, next + 1, now);
      assert st'.processed == st.processed + [Stamp(p, now)] + d.0;
      assert st'.cache == d.1;
      var len := |st'.processed|;
      // the last appended id is p's or a cached key, so it is below n
      if |d.0| > 0 {
        DrainAt(st.cache, next + 1, now, |d.0| - 1);
      }
      forall i | 0 <= i < len
        ensures st'.processed[i].id == i && st'.processed[i].processed.Some?
      {
        if i < next {
          assert st'.processed[i] == st.processed[i];
        } else if i == next {
          assert st'.processed[i] == Stamp(p, now);
        } else {
          assert st'.processed[i] == d.0[i - (next + 1)];
          DrainAt(st.cache, next + 1, now, i - (next + 1));
        }
      }
      DrainStops(st.cache, next + 1, now);
      forall k | k in st'.cache ensures len < k < n && st'.cache[k].id == k {
        DrainRest(st.cache, next + 1, now, k);
      }
    }
  }

  /** Each step accounts for the new arrival: afterwards an id is processed
      or cached iff it had arrived before or is the new packet's. */
  lemma {:induction false} StepKeepsConsistent(st: Station, seen: set<nat>, p: Packet, now: nat, n: nat)
    requires Inv(st, n) && Consistent(st, seen) && p.id < n
    ensures Consistent(Step(st, p, now), seen + {p.id})
  {
    var next := |st.processed|;
    var st' := Step(st, p, now);
    if p.id == next {
      var d := Drain(st.cache, next + 1, now);
      assert st'.processed == st.processed + [Stamp(p, now)] + d.0;
      assert st'.cache == d.1;
      var len := |st'.processed|;
      forall k: nat ensures k in seen + {p.id} <==> k < len || k in st'.cache {
        DrainRest(st.cache, next + 1, now, k);
        if next < k < len {
          DrainAt(st.cache, next + 1, now, k - (next + 1));
        }
      }
    } else if p.id > next {
      assert st' == st.(cache := st.cache[p.id := p]);
    } else {
      assert st' == st;
      assert p.id in seen;
      assert seen + {p.id} == seen;
    }
  }

  lemma InitialConsistent()
    ensures Consistent(Initial, {})
  {
    forall k: nat ensures k in {} <==> k < |Initial.processed| || k in Initial.cache {
    }
  }

  /** Over a whole run the invariant holds, the state accounts for exactly the
      consumed arrivals, and the run ends early only because it is complete. */
  lemma {:induction false} RunPreserves(st: Station, seen: set<nat>, arrivals: seq<Arrival>, n: nat)
    requires Inv(st, n) && Consistent(st, seen) && IdsBelow(arrivals, n)
    ensures var r := Run(st, arrivals, n);
      && Inv(r.station, n)
      && Consistent(r.station, seen + Ids(arrivals[..r.consumed]))
      && (r.consumed < |arrivals| ==> |r.station.processed| == n)
    decreases |arrivals|
  {
    if arrivals != [] {
      var a := arrivals[0];
      var st' := Step(st, a.packet, a.at);
      StepKeepsInv(st, a.packet, a.at, n);
      StepKeepsConsistent(st, seen, a.packet, a.at, n);
      assert Ids(arrivals[..1]) == {a.packet.id} by {
        assert arrivals[..1] == [a];
        assert [a][1..] == [];
      }
      if !Stops(st, a.packet, a.at, n) {
        var r := Run(st', arrivals[1..], n);
        RunPreserves(st', seen + {a.packet.id}, arrivals[1..], n);
        assert arrivals[..r.consumed + 1][1..] == arrivals[1..][..r.consumed];
        assert arrivals[..r.consumed + 1][0] == a;
      }
    }
  }

  /** The run stops at the first completion: every proper prefix of the
      consumed arrivals leaves the list incomplete, so no arrival after the
      completing one is consumed (or acknowledged). */
  lemma RunStopsAtFirstCompletion(st: Station, arrivals: seq<Arrival>, n: nat)
    requires Inv(st, n) && IdsBelow(arrivals, n) && |st.processed| < n
    ensures forall j :: 0 < j < Run(st, arrivals, n).consumed ==>
      |Run(st, arrivals[..j], n).station.processed| < n
  {
    forall j | 0 < j < Run(st, arrivals, n).consumed
      ensures |Run(st, arrivals[..j], n).station.processed| < n
    {
      IncompleteBefore(st, arrivals, n, j);
    }
  }

  lemma {:induction false} IncompleteBefore(st: Station, arrivals: seq<Arrival>, n: nat, j: nat)
    requires Inv(st, n) && IdsBelow(arrivals, n) && |st.processed| < n
    requires 0 < j < Run(st, arrivals, n).consumed
    ensures |Run(st, arrivals[..j], n).station.processed| < n
    decreases j
  {
    var a := arrivals[0];
    var st' := Step(st, a.packet, a.at);
    StepKeepsInv(st, a.packet, a.at, n);
    assert !Stops(st, a.packet, a.at, n);
    assert |st'.processed| < n;
    var pre := arrivals[..j];
    assert pre[0] == a;
    assert pre[1..] == arrivals[1..][..j - 1];
    assert Run(st, pre, n).station == Run(st', arrivals[1..][..j - 1], n).station;
    if j > 1 {
      var rest := arrivals[1..];
      assert forall i :: 0 <= i < |rest| ==> rest[i] == arrivals[i + 1];
      IncompleteBefore(st', rest, n, j - 1);
    }
  }

  lemma {:induction false} IdsPrefix(arrivals: seq<Arrival>, k: nat)
    requires k <= |arrivals|
    ensures Ids(arrivals[..k]) <= Ids(arrivals)
    decreases k
  {
    if k > 0 {
      assert arrivals[..k][1..] == arrivals[1..][..k - 1];
      IdsPrefix(arrivals[1..], k - 1);
    }
  }

  /** `Ids` collects exactly the arrived ids. */
  lemma {:induction false} IdsArrived(arrivals: seq<Arrival>, id: nat)
    ensures id in Ids(arrivals) <==> Arrived(arrivals, id)
    decreases |arrivals|
  {
    if arrivals != [] {
      IdsArrived(arrivals[1..], id);
      if Arrived(arrivals[1..], id) {
        var j :| 0 <= j < |arrivals[1..]| && arrivals[1..][j].packet.id == id;
        assert arrivals[j + 1].packet.id == id;
      }
      if Arrived(arrivals, id) && arrivals[0].packet.id != id {
        var j :| 0 <= j < |arrivals| && arrivals[j].packet.id == id;
        assert arrivals[1..][j - 1].packet.id == id;
      }
    }
  }

  /** From an empty station, the output is the ids 0, 1, ..., len - 1 in order,
      each stamped; every output id arrived; and, unless all n were
      delivered, the output length is an id that never arrived (so the
      output stops at the first gap). */
  lemma RunDeliversPrefix(arrivals: seq<Arrival>, n: nat)
    requires IdsBelow(arrivals, n)
    ensures var out := Run(Initial, arrivals, n).station.processed;
      && |out| <= n
      && (forall i :: 0 <= i < |out| ==> out[i].id == i && out[i].processed.Some?)
      && (forall i :: 0 <= i < |out| ==> Arrived(arrivals, out[i].id))
      && (|out| < n ==> !Arrived(arrivals, |out|))
  {
    var r := Run(Initial, arrivals, n);
    InitialConsistent();
    RunPreserves(Initial, {}, arrivals, n);
    IdsPrefix(arrivals, r.consumed);
    var out := r.station.processed;
    forall i | 0 <= i < |out| ensures Arrived(arrivals, out[i].id) {
      assert i in Ids(arrivals[..r.consumed]);
      IdsArrived(arrivals, i);
    }
    if |out| < n {
      assert arrivals[..r.consumed] == arrivals;
      IdsArrived(arrivals, |out|);
    }
  }

  /** A run from an empty station delivers all n packets iff every id below n
      is among the arrivals. */
  lemma RunCompleteIff(arrivals: seq<Arrival>, n: nat)
    requires IdsBelow(arrivals, n)
    ensures |Run(Initial, arrivals, n).station.processed| == n <==>
      forall i :: 0 <= i < n ==> Arrived(arrivals, i)
  {
    var out := Run(Initial, arrivals, n).station.processed;
    RunDeliversPrefix(arrivals, n);
    if |out| == n {
      forall i | 0 <= i < n ensures Arrived(arrivals, i) {
        assert out[i].id == i;
      }
    }
  }

  /** Timestamps are consistent with a clock that has reached `t`: every
      cached packet was sent by then, and every processed packet was stamped
      by then and no earlier than it was sent. */
  ghost predicate Timely(st: Station, t: nat) {
    && (forall k :: k in st.cache ==> st.cache[k].transmitted <= t)
    && (forall i :: 0 <= i < |st.processed| ==>
          st.processed[i].processed.Some? &&
          st.processed[i].transmitted <= st.processed[i].processed.value <= t)
  }

  /** A step at a clock value no earlier than the last, on a packet sent by
      then, keeps the timestamps consistent. */
  lemma {:induction false} StepKeepsTimely(st: Station, t: nat, p: Packet, now: nat)
    requires Timely(st, t) && t <= now && p.transmitted <= now
    ensures Timely(Step(st, p, now), now)
  {
    var next := |st.processed|;
    var st' := Step(st, p, now);
    if p.id == next {
      var d := Drain(st.cache, next + 1, now);
      assert st'.processed == st.processed + [Stamp(p, now)] + d.0;
      forall i | 0 <= i < |st'.processed|
        ensures st'.processed[i].processed.Some? &&
          st'.processed[i].transmitted <= st'.processed[i].processed.value <= now
      {
        if i > next {
          assert st'.processed[i] == d.0[i - (next + 1)];
          DrainAt(st.cache, next + 1, now, i - (next + 1));
        } else if i < next {
          assert st'.processed[i] == st.processed[i];
        }
      }
      forall k | k in st'.cache ensures st'.cache[k].transmitted <= now {
        DrainRest(st.cache, next + 1, now, k);
      }
    }
  }

  /** Arrival times never go back, and no packet arrives before it was sent. */
  predicate Causal(arrivals: seq<Arrival>) {
    && (forall i :: 0 <= i < |arrivals| ==> arrivals[i].packet.transmitted <= arrivals[i].at)
    && (forall i, j :: 0 <= i <= j < |arrivals| ==> arrivals[i].at <= arrivals[j].at)
  }

  /** Over a causal run the timestamps stay consistent with the clock value
      `t'` of the last step. */
  lemma {:induction false} RunKeepsTimely(st: Station, t: nat, arrivals: seq<Arrival>, n: nat) returns (t': nat)
    requires Timely(st, t) && Causal(arrivals)
    requires forall i :: 0 <= i < |arrivals| ==> t <= arrivals[i].at
    ensures Timely(Run(st, arrivals, n).station, t')
    ensures Run(st, arrivals, n).consumed == 0 ==> t' == t
    ensures Run(st, arrivals, n).consumed > 0 ==> t' == arrivals[Run(st, arrivals, n).consumed - 1].at
    decreases |arrivals|
  {
    if arrivals == [] {
      t' := t;
    } else {
      var a := arrivals[0];
      StepKeepsTimely(st, t, a.packet, a.at);
      var st' := Step(st, a.packet, a.at);
      if !Stops(st, a.packet, a.at, n) {
        var rest := arrivals[1..];
        assert forall i :: 0 <= i < |rest| ==> rest[i] == arrivals[i + 1];
        t' := RunKeepsTimely(st', a.at, rest, n);
        assert Run(st, arrivals, n).station == Run(st', rest, n).station;
      } else {
        t' := a.at;
      }
    }
  }

  /** When each packet arrives no earlier than it was sent and the clock never
      goes back, every delivered packet is stamped no earlier than it was sent. */
  lemma ProcessedAfterSent(arrivals: seq<Arrival>, n: nat)
    requires Causal(arrivals)
    ensures var out := Run(Initial, arrivals, n).station.processed;
      forall i :: 0 <= i < |out| ==>
        out[i].processed.Some? && out[i].transmitted <= out[i].processed.value
  {
    assert Timely(Initial, 0);
    var t := RunKeepsTimely(Initial, 0, arrivals, n);
  }

  /** Arrivals 2, 0, 1 with three packets expected give 0, 1, 2: packet 2 is
      cached first and drained once 0 and 1 are in. */
  lemma ReorderExample(t: nat)
    ensures var a := [Arrival(Packet(2, t, None), t), Arrival(Packet(0, t, None), t), Arrival(Packet(1, t, None), t)];
      var r := Run(Initial, a, 3);
      && Step(Initial, a[0].packet, t) == Station(map[2 := Packet(2, t, None)], [])
      && r.consumed == 3
      && r.station == Station(map[], [Packet(0, t, Some(t)), Packet(1, t, Some(t)), Packet(2, t, Some(t))])
  {
    var p0, p1, p2 := Packet(0, t, None), Packet(1, t, None), Packet(2, t, None);
    var a := [Arrival(p2, t), Arrival(p0, t), Arrival(p1, t)];
    var m := map[2 := p2];
    var s1 := Step(Initial, p2, t);
    assert s1 == Station(m, []);
    var s2 := Step(s1, p0, t);
    assert Drain(m, 1, t) == ([], m);
    assert s2.processed == [Stamp(p0, t)];
    assert s2 == Station(m, [Stamp(p0, t)]);
    var s3 := Step(s2, p1, t);
    assert m - {2} == map[];
    assert Drain(map[], 3, t) == ([], map[]);
    var d := Drain(m, 2, t);
    assert d.0 == [Stamp(p2, t)] + [];
    assert d.1 == map[];
    assert s3.processed == [Stamp(p0, t), Stamp(p1, t), Stamp(p2, t)];
    assert s3 == Station(map[], [Stamp(p0, t), Stamp(p1, t), Stamp(p2, t)]);
    assert !Stops(Initial, p2, t, 3) && !Stops(s1, p0, t, 3) && Stops(s2, p1, t, 3);
    assert a[1..][1..] == [Arrival(p1, t)];
    assert Run(s2, [Arrival(p1, t)], 3) == Outcome(s3, 1);
    assert Run(s1, a[1..], 3) == Outcome(s3, 2);
  }

  /** The base station of the Rust implementation: the cache and the processed list are
      updated in place, and every acknowledgment it hands to the return
      channel is appended to `responses`. */
  class BaseStation {
    const numPackets: nat
    var cachedPackets: map<nat, Packet>
    var processedPackets: seq<Packet>
    var responses: seq<Response>

    function State(): Station
      reads this
    {
      Station(cachedPackets, processedPackets)
    }

    ghost predicate Valid()
      reads this
    {
      Inv(State(), numPackets)
    }

    constructor (numPackets: nat)
      ensures this.numPackets == numPackets
      ensures State() == Initial && responses == []
      ensures Valid()
    {
      this.numPackets := numPackets;
      cachedPackets := map[];
      processedPackets := [];
      responses := [];
    }

    /** The drain loop: moves the cached packets `from`, `from + 1`, ... to
        the processed list, stamped with `now`, until the first id that is
        not cached. */
    method ProcessCached(from: nat, now: nat)
      modifies this
      ensures var d := Drain(old(cachedPackets), from, now);
        processedPackets == old(processedPackets) + d.0 && cachedPackets == d.1
      ensures responses == old(responses)
    {
      ghost var goal := Drain(cachedPackets, from, now);
      ghost var base := processedPackets;
      var i := from;
      while i in cachedPackets
        invariant from <= i
        invariant |processedPackets| == |base| + (i - from)
        invariant goal.0 == processedPackets[|base|..] + Drain(cachedPackets, i, now).0
        invariant goal.1 == Drain(cachedPackets, i, now).1
        invariant processedPackets[..|base|] == base
        invariant responses == old(responses)
        decreases |cachedPackets.Keys|
      {
        var p := cachedPackets[i];
        cachedPackets := cachedPackets - {i};
        processedPackets := processedPackets + [Stamp(p, now)];
        i := i + 1;
      }
      assert processedPackets == base + processedPackets[|base|..];
    }

    /** The body of the receive loop for one packet processed at time `now`;
        `done` says whether the loop returns here. */
    method Receive(packet: Packet, now: nat) returns (done: bool)
      requires Valid()
      requires packet.id < numPackets
      modifies this
      ensures Valid()
      ensures State() == Step(old(State()), packet, now)
      ensures responses == old(responses) + [ACK(packet.id)]
      ensures done == Stops(old(State()), packet, now, numPackets)
    {
      ghost var st := State();
      StepKeepsInv(st, packet, now, numPackets);
      responses := responses + [ACK(packet.id)];
      var next := |processedPackets|;
      done := false;
      if packet.id > next {
        cachedPackets := cachedPackets[packet.id := packet];
      } else if packet.id == next {
        processedPackets := processedPackets + [Stamp(packet, now)];
        next := next + 1;
        ProcessCached(next, now);
        done := |processedPackets| == numPackets;
      }
    }

    /** The receive loop over the packets delivered by the forward channel,
        in delivery order; it returns the processed list. */
    method RunSimulation(arrivals: seq<Arrival>) returns (result: seq<Packet>)
      requires Valid()
      requires IdsBelow(arrivals, numPackets)
      modifies this
      ensures Valid()
      ensures var r := Run(old(State()), arrivals, numPackets);
        && State() == r.station
        && result == processedPackets
        && responses == old(responses) + Acks(arrivals[..r.consumed])
    {
      ghost var goal := Run(State(), arrivals, numPackets);
      var i := 0;
      while i < |arrivals|
        invariant 0 <= i <= |arrivals|
        invariant Valid()
        invariant var r := Run(State(), arrivals[i..], numPackets);
          goal == Outcome(r.station, r.consumed + i)
        invariant responses == old(responses) + Acks(arrivals[..i])
      {
        var a := arrivals[i];
        assert arrivals[i..][0] == a;
        assert arrivals[i..][1..] == arrivals[i + 1..];
        var done := Receive(a.packet, a.at);
        assert Acks(arrivals[..i + 1]) == Acks(arrivals[..i]) + [ACK(a.packet.id)];
        i := i + 1;
        if done {
          return processedPackets;
        }
      }
      return processedPackets;
    }
  }
}
