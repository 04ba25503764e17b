/**
  The message broker as the workers and the upload service use it: one queue per
  job type bound to the fanout exchange, manual acknowledgement, and a dead-letter
  queue for what is rejected without requeueing.
 */
module BrokerAccess {
  import opened Models
  import opened Protocol
  import opened Tracing

  class Broker {
    const reliable: bool         // no call fails while the connection is in use, unless it is down
    const down: bool             // publishing fails without effect whenever it is tried
    var bound: seq<JobType>      // queues bound to the fanout exchange, in binding order
    var deadLetterBound: bool    // the dead-letter queue is bound to its exchange
    var copies: seq<Copy>

    constructor (reliable: bool, down: bool)
      ensures bound == [] && !deadLetterBound && copies == [] && this.reliable == reliable && this.down == down
    {
      this.reliable, this.down, bound, deadLetterBound, copies := reliable, down, [], false, [];
    }

    /** Any earlier declaration, complete or interrupted, has bound an initial part of the list. */
    ghost predicate Valid()
      reads this
    {
      |bound| <= 3 && bound == JOB_TYPES[..|bound|] && (bound != [] ==> deadLetterBound)
    }

    /** Declaring is idempotent; once it succeeds, a publish reaches all three queues. */
    method DeclareTopology() returns (ok: bool)
      requires Valid()
      modifies this`bound, this`deadLetterBound
      ensures Valid() && old(bound) <= bound
      ensures ok ==> bound == JOB_TYPES && deadLetterBound
      ensures reliable ==> ok
    {
      var fault := Fails(reliable);
      if fault {
        return false;
      }
      deadLetterBound := true;
      for i := 0 to 3
        invariant Valid() && old(bound) <= bound && deadLetterBound && i <= |bound|
      {
        fault := Fails(reliable);
        if fault {
          return false;
        }
        if JOB_TYPES[i] !in bound {
          bound := bound + [JOB_TYPES[i]];
        }
      }
      ok := true;
    }

    /** The exchange copies the message into every bound queue, or the publish fails. */
    method Publish(body: Message) returns (ok: bool)
      requires Valid()
      modifies this`copies
      ensures copies == old(copies) || (|copies| == |old(copies)| + |bound| && copies[..|old(copies)|] == old(copies))
      ensures bound == JOB_TYPES ==> copies == old(copies) || copies == old(copies) + Fanout(body)
      ensures ok ==> |copies| == |old(copies)| + |bound|
      ensures reliable && !down ==> ok
      ensures down ==> !ok && copies == old(copies)
    {
      var fault := Fails(reliable, down);
      if fault {
        return false;
      }
      var added := [];
      for i := 0 to |bound|
        invariant |added| == i
        invariant forall j :: 0 <= j < i ==> added[j] == Copy(bound[j], body, Ready)
      {
        added := added + [Copy(bound[i], body, Ready)];
      }
      assert bound == JOB_TYPES ==> added == Fanout(body);
      copies := copies + added;
      fault := Fails(reliable);
      ok := !fault;
    }

    /** Hands one ready copy of a queue to a consumer, if there is one. */
    method Deliver(t: JobType, consumer: WorkerId) returns (id: Option<CopyId>)
      modifies this`copies
      ensures id.Some? ==> id.value < |old(copies)|
      ensures id.Some? ==> old(copies)[id.value].location == Ready && old(copies)[id.value].queue == t
      ensures copies == if id.Some? then MoveCopy(old(copies), id.value, Unacked(consumer)) else old(copies)
      ensures id.None? ==> forall i :: 0 <= i < |copies| ==> copies[i].queue == t ==> copies[i].location != Ready
    {
      for i := 0 to |copies|
        invariant forall j :: 0 <= j < i ==> copies[j].queue == t ==> copies[j].location != Ready
        invariant copies == old(copies)
      {
        if copies[i].queue == t && copies[i].location == Ready {
          copies := MoveCopy(copies, i, Unacked(consumer));
          return Some(i);
        }
      }
      return None;
    }

    /** A delivery is settled by the consumer that holds it, and only once. */
    method Ack(id: CopyId, ghost worker: WorkerId, ghost trace: Trace)
      requires id < |copies| && copies[id].location == Unacked(worker)
      modifies this`copies, trace
      ensures copies == MoveCopy(old(copies), id, Acked)
      ensures trace.events == old(trace.events) + [Settle(worker)]
    {
      trace.events := trace.events + [Settle(worker)];
      copies := MoveCopy(copies, id, Acked);
    }

    /** Back to its queue, or to the dead-letter queue. */
    method Nack(id: CopyId, requeue: bool, ghost worker: WorkerId, ghost trace: Trace)
      requires id < |copies| && copies[id].location == Unacked(worker)
      modifies this`copies, trace
      ensures copies == MoveCopy(old(copies), id, if requeue then Ready else DeadLettered)
      ensures trace.events == old(trace.events) + [Settle(worker)]
    {
      trace.events := trace.events + [Settle(worker)];
      copies := MoveCopy(copies, id, if requeue then Ready else DeadLettered);
    }
  }
}
