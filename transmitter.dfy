/** The ARQ sender. The three loops of the Rust implementation (first sends, acknowledgment
    handling, resubmission) are modelled as atomic steps over one state; each
    timed step receives the current clock value. */
module Transmitter {
  import opened Channel

  /** An entry of the resubmission queue: when the packet is due to be resent, and the packet. */
  datatype Record = Record(due: nat, packet: Packet)

  /** Due times never decrease from the head of a queue to its tail (stated on neighbours). */
  ghost predicate DueOrdered(q: seq<Record>) {
    forall j :: 0 < j < |q| ==> q[j - 1].due <= q[j].due
  }

  /** Because neighbours are ordered, FIFO order is ascending due order: no
      record is due before one ahead of it, so the head is always due first. */
  lemma {:induction false} FifoIsDueOrder(q: seq<Record>)
    requires DueOrdered(q)
    ensures forall i, j :: 0 <= i <= j < |q| ==> q[i].due <= q[j].due
  {
    forall i, j | 0 <= i <= j < |q| ensures q[i].due <= q[j].due {
      DueOrderedPair(q, i, j);
    }
  }

  lemma {:induction false} DueOrderedPair(q: seq<Record>, i: nat, j: nat)
    requires DueOrdered(q) && i <= j < |q|
    ensures q[i].due <= q[j].due
    decreases j - i
  {
    if i < j {
      DueOrderedPair(q, i, j - 1);
    }
  }

  /** Appending a record due no earlier than every queued one keeps the queue ordered. */
  lemma EnqueueKeepsOrder(q: seq<Record>, r: Record)
    requires DueOrdered(q)
    requires forall j :: 0 <= j < |q| ==> q[j].due <= r.due
    ensures DueOrdered(q + [r])
  {
  }

  /** A well-formed sequence of pending records: in due order, every due no
      later than `latest`, and every packet one that went out. */
  ghost predicate WellQueued(q: seq<Record>, latest: nat, sent: seq<Packet>) {
    && DueOrdered(q)
    && (forall j :: 0 <= j < |q| ==> q[j].due <= latest)
    && (forall j :: 0 <= j < |q| ==> q[j].packet in sent)
  }

  lemma WellQueuedTail(q: seq<Record>, latest: nat, sent: seq<Packet>)
    requires WellQueued(q, latest, sent) && q != []
    ensures WellQueued(q[1..], latest, sent)
  {
    assert forall j :: 0 <= j < |q[1..]| ==> q[1..][j] == q[j + 1];
  }

  lemma WellQueuedLater(q: seq<Record>, latest: nat, later: nat, sent: seq<Packet>)
    requires WellQueued(q, latest, sent) && latest <= later
    ensures WellQueued(q, later, sent)
  {
  }

  /** What one step of the send loop did. */
  datatype SendOutcome =
    | Sent(packet: Packet)  // a token was taken and a new packet went out
    | Blocked               // no token is free: the loop waits
    | Exhausted             // every id has been sent once: the loop has ended

  /** What one step of the resubmission loop did. */
  datatype ResubmitOutcome =
    | Idle                   // the queue is empty: the loop waits for a record
    | Sleeping(until: nat)   // the held record is not due yet: the loop sleeps until then
    | Discarded(id: nat)     // the record's packet was confirmed: dropped
    | Resent(packet: Packet) // the packet went out again and was queued again

  class Transmitter {
    const maxUnconfirmed: nat
    const retransmissionDelay: nat
    /** Free tokens in the pool; a first send takes one, an acknowledgment returns one. */
    var tokens: nat
    var confirmed: set<nat>
    /** The resubmission queue, head first. */
    var queue: seq<Record>
    /** The record the resubmission loop has taken off the queue and is sleeping on. */
    var sleeping: Option<Record>
    var nextId: nat
    /** Every packet handed to the forward channel, first sends and resends, oldest first. */
    var sent: seq<Packet>
    /** The latest clock value a step has seen; the clock never goes back. */
    ghost var clock: nat

    /** The records still to be handled by the resubmission loop, in the order it handles them. */
    ghost function Pending(): seq<Record>
      reads this
    {
      (if sleeping.Some? then [sleeping.value] else []) + queue
    }

    ghost predicate Valid()
      reads this
    {
      && tokens <= maxUnconfirmed
      && WellQueued(Pending(), clock + retransmissionDelay, sent)
      && (forall j :: 0 <= j < |sent| ==> sent[j].id < nextId)
    }

    /** Fills the token pool with `maxUnconfirmed` tokens. The pool is a
        bounded channel, which cannot be created with capacity 0. */
    constructor (maxUnconfirmed: nat, retransmissionDelay: nat)
      requires maxUnconfirmed > 0
      ensures this.maxUnconfirmed == maxUnconfirmed && this.retransmissionDelay == retransmissionDelay
      ensures tokens == maxUnconfirmed
      ensures confirmed == {} && queue == [] && sleeping == None && nextId == 0 && sent == []
      ensures Valid()
    {
      this.maxUnconfirmed := maxUnconfirmed;
      this.retransmissionDelay := retransmissionDelay;
      confirmed, queue, sleeping, nextId, sent, clock := {}, [], None, 0, [], 0;
      var pool := 0;
      for k := 0 to maxUnconfirmed
        invariant pool == k
      {
        pool := pool + 1;
      }
      tokens := pool;
    }

    /** One iteration of the send loop for ids 0 .. numPackets - 1 at time
        `now`. The loop bound is fixed for a run: every call of one run passes
        the same `numPackets`. */
    method SendNext(numPackets: nat, now: nat) returns (outcome: SendOutcome)
      requires Valid() && clock <= now
      modifies this
      ensures Valid() && clock == now
      ensures confirmed == old(confirmed) && sleeping == old(sleeping)
      ensures outcome == Exhausted <==> old(nextId) >= numPackets
      ensures outcome == Blocked <==> old(nextId) < numPackets && old(tokens) == 0
      ensures !outcome.Sent? ==>
        tokens == old(tokens) && nextId == old(nextId) && sent == old(sent) && queue == old(queue)
      ensures outcome.Sent? ==>
        && outcome.packet == Packet(old(nextId), now, None)
        && tokens == old(tokens) - 1
        && nextId == old(nextId) + 1
        && sent == old(sent) + [outcome.packet]
        && queue == old(queue) + [Record(now + retransmissionDelay, outcome.packet)]
    {
      clock := now;
      if nextId >= numPackets {
        return Exhausted;
      }
      if tokens == 0 {
        return Blocked;
      }
      tokens := tokens - 1;
      var packet := Packet(nextId, now, None);
      sent := sent + [packet];
      queue := queue + [Record(now + retransmissionDelay, packet)];
      nextId := nextId + 1;
      outcome := Sent(packet);
      EnqueueKeepsOrder(old(Pending()), Record(now + retransmissionDelay, packet));
      assert Pending() == old(Pending()) + [Record(now + retransmissionDelay, packet)];
    }

    /** One iteration of the acknowledgment loop. A NACK never arrives, and the
        token can only be returned while the pool has room. */
    method HandleResponse(res: Response)
      requires Valid()
      requires res.ACK?
      requires tokens < maxUnconfirmed
      modifies this
      ensures Valid()
      ensures tokens == old(tokens) + 1
      ensures confirmed == old(confirmed) + {res.id}
      ensures queue == old(queue) && sleeping == old(sleeping) && nextId == old(nextId)
      ensures sent == old(sent) && clock == old(clock)
    {
      tokens := tokens + 1;
      confirmed := confirmed + {res.id};
    }

    /** Whether the resubmission loop, about to handle record `r` at time
        `now`, sleeps: a record it already holds is slept on until due; a
        record just taken off the queue is slept on when it is unconfirmed
        and not yet due. */
    ghost predicate SleepsOn(r: Record, now: nat)
      reads this
    {
      now < r.due && (sleeping.Some? || r.packet.id !in confirmed)
    }

    /** One iteration of the resubmission loop at time `now`. It handles the
        first pending record: the one it sleeps on, or else the head of the
        queue. */
    method Resubmit(now: nat) returns (outcome: ResubmitOutcome)
      requires Valid() && clock <= now
      modifies this
      ensures Valid() && clock == now
      ensures tokens == old(tokens) && confirmed == old(confirmed) && nextId == old(nextId)
      ensures old(Pending()) == [] ==>
        outcome == Idle && sleeping == None && queue == old(queue) && sent == old(sent)
      ensures old(Pending()) != [] && old(SleepsOn(Pending()[0], now)) ==>
        && outcome == Sleeping(old(Pending())[0].due)
        && sleeping == Some(old(Pending())[0])
        && Pending() == old(Pending())
        && sent == old(sent)
      ensures old(Pending()) != [] && !old(SleepsOn(Pending()[0], now)) ==>
        var r := old(Pending())[0];
        && sleeping == None
        && (r.packet.id in confirmed ==>
              outcome == Discarded(r.packet.id) && sent == old(sent) && queue == old(Pending())[1..])
        && (r.packet.id !in confirmed ==>
              && outcome == Resent(r.packet)
              && sent == old(sent) + [r.packet]
              && queue == old(Pending())[1..] + [Record(now + retransmissionDelay, r.packet)])
      ensures outcome.Resent? ==> outcome.packet.id !in confirmed
    {
      WellQueuedLater(Pending(), clock + retransmissionDelay, now + retransmissionDelay, sent);
      clock := now;
      if sleeping.Some? && now < sleeping.value.due {
        return Sleeping(sleeping.value.due);
      }
      if sleeping.None? && queue == [] {
        return Idle;
      }
      var held := sleeping.Some?;
      var r := TakeFirst();
      if r.packet.id in confirmed {
        return Discarded(r.packet.id);
      }
      if !held && now < r.due {
        sleeping := Some(r);
        assert Pending() == old(Pending());
        return Sleeping(r.due);
      }
      ResendNext(r, now);
      outcome := Resent(r.packet);
    }

    /** Takes the first pending record: the one the loop holds, or else the
        head of the queue. */
    method TakeFirst() returns (r: Record)
      requires Valid() && Pending() != []
      modifies this`sleeping, this`queue
      ensures Valid() && sleeping == None
      ensures [r] + queue == old(Pending())
      ensures r.packet in sent
    {
      if sleeping.Some? {
        r := sleeping.value;
        sleeping := None;
      } else {
        r := queue[0];
        queue := queue[1..];
      }
      assert old(Pending()) == [r] + queue && Pending() == queue;
      assert queue == old(Pending())[1..];
      assert r == old(Pending())[0];
      WellQueuedTail(old(Pending()), clock + retransmissionDelay, sent);
    }

    /** The record `r` was just taken off the front of the pending records:
        its packet goes out again and is queued with a fresh due time. */
    method ResendNext(r: Record, now: nat)
      requires Valid() && clock == now && sleeping == None
      requires r.packet in sent
      modifies this`sent, this`queue
      ensures Valid()
      ensures sent == old(sent) + [r.packet]
      ensures queue == old(queue) + [Record(now + retransmissionDelay, r.packet)]
    {
      assert Pending() == queue;
      var r' := Record(now + retransmissionDelay, r.packet);
      EnqueueKeepsOrder(queue, r');
      sent := sent + [r.packet];
      queue := queue + [r'];
      assert Pending() == queue;
      assert forall j :: 0 <= j < |old(sent)| ==> sent[j] == old(sent)[j];
    }
  }
}
