/** The message batcher of `engine/stream_batch.go`. A timer that fires late, even after it was
stopped, only calls `Flush` once more. */
module Batching {
  import opened EventParser

  const BATCH_LIMIT: nat := 256

  datatype Reason = Closed | Cancelled | MaxEvents | MaxBytes | MaxDuration | Failed

  datatype Message =
    | Open
    | Occurred(index: nat, event: Event)
    | Wait(attempt: nat, retryMs: nat)
    | End(reason: Reason)

  function Flatten(batches: seq<seq<Message>>): seq<Message> {
    if batches == [] then [] else Flatten(batches[..|batches| - 1]) + batches[|batches| - 1]
  }

  ghost predicate AreBatches(batches: seq<seq<Message>>) {
    forall i :: 0 <= i < |batches| ==> 1 <= |batches[i]| <= BATCH_LIMIT
  }

  class Batcher {
    var pending: seq<Message>
    var timer: bool
    // What `emit` was handed so far, and every message added so far.
    var batches: seq<seq<Message>>
    ghost var log: seq<Message>

    /** Nothing is lost or reordered, batches are not empty and not too long, and as long as
        something is pending a timer is running that will hand it out. */
    ghost predicate Valid()
      reads this
    {
      && log == Flatten(batches) + pending
      && AreBatches(batches) && |pending| < BATCH_LIMIT
      && (timer <==> pending != [])
    }

    constructor ()
      ensures Valid() && log == []
    {
      pending, timer, batches, log := [], false, [], [];
    }

    method Add(message: Message)
      requires Valid()
      modifies this
      ensures Valid() && log == old(log) + [message]
    {
      pending := pending + [message];
      log := log + [message];
      assert log == Flatten(batches) + pending;
      if |pending| >= BATCH_LIMIT {
        FlushLocked();
        return;
      }
      timer := true;
    }

    method Flush()
      requires Valid()
      modifies this
      ensures Valid() && log == old(log) && pending == [] && log == Flatten(batches)
    {
      FlushLocked();
    }

    method FlushLocked()
      requires log == Flatten(batches) + pending && AreBatches(batches) && |pending| <= BATCH_LIMIT
      modifies this
      ensures Valid() && log == old(log) && pending == [] && log == Flatten(batches)
    {
      timer := false;
      if pending == [] {
        assert Flatten(batches) + [] == Flatten(batches);
        return;
      }
      ghost var before := batches;
      batches := batches + [pending];
      assert batches[..|batches| - 1] == before;
      pending := [];
      assert Flatten(batches) + [] == Flatten(batches);
    }
  }
}
