/**
 * The runtime's event queue: PostEvent appends, xrPollEvent takes the
 * event at the front.
 */
module OpenXrEvent {
  import opened OpenXrTypes

  type Instance = int

  /** An XrEventDataBuffer: its structure type and its payload. */
  datatype EventBuffer = EventBuffer(eventType: int, payload: seq<int>)

  /** An XREvent: the buffer and whether it holds an event. */
  datatype QueuedEvent = QueuedEvent(buffer: EventBuffer, valid: bool)

  class EventQueue {
    var queue: seq<QueuedEvent>

    constructor ()
      ensures queue == []
    {
      queue := [];
    }

    /** PostEvent: the event joins the back of the queue, marked valid. */
    method PostEvent(event: EventBuffer)
      modifies this
      ensures queue == old(queue) + [QueuedEvent(event, true)]
    {
      queue := queue + [QueuedEvent(event, true)];
    }

    /**
     * xrPollEvent: after the argument and instance checks, an empty queue
     * has no event for the caller; otherwise the front event is removed
     * whatever happens next, and is handed out only if it is valid and of
     * the type the caller's buffer asks for.
     */
    method PollEvent(instances: set<Instance>, instance: Instance, eventData: Option<EventBuffer>)
      returns (result: XrResult, delivered: Option<EventBuffer>)
      modifies this
      ensures eventData.None? ==> result == ErrorValidationFailure && delivered == None && queue == old(queue)
      ensures eventData.Some? && instance !in instances ==> result == ErrorHandleInvalid && delivered == None && queue == old(queue)
      ensures eventData.Some? && instance in instances && old(queue) == [] ==>
        result == EventUnavailable && delivered == None && queue == []
      ensures eventData.Some? && instance in instances && old(queue) != [] ==>
        && queue == old(queue)[1..]
        && var front := old(queue)[0];
        && (front.valid && front.buffer.eventType == eventData.value.eventType ==>
              result == Success && delivered == Some(front.buffer))
        && (!(front.valid && front.buffer.eventType == eventData.value.eventType) ==>
              result == EventUnavailable && delivered == None)
    {
      if eventData.None? {
        return ErrorValidationFailure, None;
      }
      if instance !in instances {
        return ErrorHandleInvalid, None;
      }
      if queue == [] {
        return EventUnavailable, None;
      }
      var event := queue[0];
      queue := queue[1..];
      if event.valid && eventData.value.eventType == event.buffer.eventType {
        return Success, Some(event.buffer);
      }
      return EventUnavailable, None;
    }
  }

  /**
   * The queue is first in, first out: the events a run of polls takes off
   * the front are those posted first, in order, and the rest stay queued.
   */
  lemma {:induction false} FirstInFirstOut(queue: seq<QueuedEvent>, posted: seq<QueuedEvent>, n: nat)
    requires n <= |queue|
    ensures Drop(queue + posted, n) == Drop(queue, n) + posted
    ensures forall i :: 0 <= i < n ==> (queue + posted)[i] == queue[i]
  {
    if n > 0 {
      var all := queue + posted;
      assert all[1..] == queue[1..] + posted;
      calc {
        Drop(all, n);
        Drop(queue[1..] + posted, n - 1);
        { FirstInFirstOut(queue[1..], posted, n - 1); }
        Drop(queue[1..], n - 1) + posted;
      }
    }
  }

  /** The queue after n polls. */
  function Drop(queue: seq<QueuedEvent>, n: nat): (r: seq<QueuedEvent>)
    requires n <= |queue|
    ensures |r| == |queue| - n
    ensures forall i :: 0 <= i < |r| ==> r[i] == queue[n + i]
  {
    if n == 0 then queue else Drop(queue[1..], n - 1)
  }
}
