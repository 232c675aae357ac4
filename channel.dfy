/** `impl::Channel` (src/impl/channel.hpp, src/impl/channel.cpp) as a class:
    five replaying slots, the plain message slot, the two counters, the open
    flag and the transport's inbound queue. Every method is one atomic step
    and is proved to move the state exactly as the matching function of
    ChannelSpec does; `events` records every handler run, across slots, in order. */
module Channels {
  import opened Common
  import opened Callbacks
  import opened ChannelSpec

  class Channel {
    const openCallback: SyncCallback<()>
    const closedCallback: SyncCallback<()>
    const errorCallback: SyncCallback<string>
    const availableCallback: SyncCallback<()>
    const bufferedAmountLowCallback: SyncCallback<()>
    const messageCallback: SyncCallback<Message>

    var bufferedAmount: Size
    var bufferedAmountLowThreshold: Size
    var openTriggered: bool
    /** The concrete transport's inbound queue, front first. */
    var queue: seq<Message>
    /** Every handler run caused through this channel, in order. */
    ghost var events: seq<Event>

    ghost predicate Valid()
      reads this, openCallback, closedCallback, errorCallback,
            availableCallback, bufferedAmountLowCallback, messageCallback
    {
      && openCallback != closedCallback && openCallback != availableCallback
      && openCallback != bufferedAmountLowCallback && closedCallback != availableCallback
      && closedCallback != bufferedAmountLowCallback && availableCallback != bufferedAmountLowCallback
      && WellFormed(State())
    }

    ghost function State(): ChannelState
      reads this, openCallback, closedCallback, errorCallback,
            availableCallback, bufferedAmountLowCallback, messageCallback
    {
      ChannelState(openTriggered, bufferedAmount, bufferedAmountLowThreshold,
        openCallback.Model(), closedCallback.Model(), errorCallback.Model(),
        availableCallback.Model(), bufferedAmountLowCallback.Model(),
        messageCallback.Model(), queue)
    }

    /** A new channel: counters at 0, the open gate closed, every slot empty. */
    constructor ()
      ensures Valid() && State() == Fresh() && events == []
      ensures fresh(openCallback) && fresh(closedCallback) && fresh(errorCallback)
      ensures fresh(availableCallback) && fresh(bufferedAmountLowCallback) && fresh(messageCallback)
      ensures openCallback.trace == [] && closedCallback.trace == [] && errorCallback.trace == []
      ensures availableCallback.trace == [] && bufferedAmountLowCallback.trace == [] && messageCallback.trace == []
    {
      openCallback := new SyncCallback(true);
      closedCallback := new SyncCallback(true);
      errorCallback := new SyncCallback(true);
      availableCallback := new SyncCallback(true);
      bufferedAmountLowCallback := new SyncCallback(true);
      messageCallback := new SyncCallback(false);
      bufferedAmount := 0;
      bufferedAmountLowThreshold := 0;
      openTriggered := false;
      queue := [];
      events := [];
    }

    /** `receive()`: take the next message from the front of the queue, if any. */
    method Receive() returns (next: Option<Message>)
      modifies this
      ensures old(queue) == [] ==> next == None && queue == []
      ensures old(queue) != [] ==> next == Some(old(queue)[0]) && queue == old(queue)[1..]
      ensures bufferedAmount == old(bufferedAmount) && bufferedAmountLowThreshold == old(bufferedAmountLowThreshold)
      ensures openTriggered == old(openTriggered) && events == old(events)
    {
      if queue == [] {
        next := None;
      } else {
        next := Some(queue[0]);
        queue := queue[1..];
      }
    }

    /** `peek()`: the next message, left in the queue. */
    method Peek() returns (next: Option<Message>)
      ensures next.None? <==> queue == []
      ensures next.Some? ==> next.value == queue[0]
    {
      next := if queue == [] then None else Some(queue[0]);
    }

    /** `availableAmount()`: the total payload size waiting in the queue. */
    method AvailableAmount() returns (amount: nat)
      ensures amount == TotalSize(queue)
      ensures amount == 0 <==> forall i :: 0 <= i < |queue| ==> MessageSize(queue[i]) == 0
    {
      amount := 0;
      var i := |queue|;
      while i > 0
        invariant 0 <= i <= |queue|
        invariant amount == TotalSize(queue[i..])
      {
        i := i - 1;
        assert queue[i..][1..] == queue[i + 1..];
        amount := MessageSize(queue[i]) + amount;
      }
      assert queue[0..] == queue;
      TotalSizeZero(queue);
    }

    /** `flushPendingMessages`. */
    method FlushPendingMessages()
      requires Valid()
      modifies this, messageCallback
      ensures Valid()
      ensures State() == Flush(old(State())).next
      ensures events == old(events) + Flush(old(State())).events
    {
      if !openTriggered {
        return;
      }
      ghost var start := State();
      ghost var taken := 0;
      while messageCallback.IsSet()
        invariant Valid()
        invariant 0 <= taken <= |start.queue| && queue == start.queue[taken..]
        invariant openTriggered && messageCallback.Model() == start.message
        invariant bufferedAmount == start.bufferedAmount && bufferedAmountLowThreshold == start.bufferedAmountLowThreshold
        invariant messageCallback.callback.None? ==> taken == 0 && events == old(events)
        invariant messageCallback.callback.Some? ==>
          events == old(events) + Deliveries(messageCallback.callback.value, start.queue[..taken])
        decreases |queue|
      {
        var next := Receive();
        if next.None? {
          break;
        }
        var _, fired := messageCallback.Call(next.value);
        events := events + Lift(fired, ReceivedOf);
        assert start.queue[..taken + 1] == start.queue[..taken] + [start.queue[taken]];
        taken := taken + 1;
        assert start.queue[taken..] == queue;
      }
    }

    /** The first half of `triggerOpen`: set the flag and invoke the open slot. */
    method MarkOpen()
      requires Valid()
      modifies this, openCallback
      ensures Valid()
      ensures State() == Opening(old(State()))
      ensures events == old(events) + OpenEvents(old(State()))
    {
      openTriggered := true;
      var _, fired := openCallback.Call(());
      events := events + Lift(fired, OpenedOf);
    }

    /** `triggerOpen`. */
    method TriggerOpen()
      requires Valid()
      modifies this, openCallback, messageCallback
      ensures Valid()
      ensures State() == ChannelSpec.TriggerOpen(old(State())).next
      ensures events == old(events) + ChannelSpec.TriggerOpen(old(State())).events
    {
      ghost var c, log := State(), events;
      MarkOpen();
      ghost var marked, afterOpen := State(), events;
      FlushPendingMessages();
      TriggerOpenSteps(c, log, marked, afterOpen, State(), events);
    }

    /** `triggerClosed`. */
    method TriggerClosed()
      requires Valid()
      modifies this, closedCallback
      ensures Valid()
      ensures State() == ChannelSpec.TriggerClosed(old(State())).next
      ensures events == old(events) + ChannelSpec.TriggerClosed(old(State())).events
    {
      var _, fired := closedCallback.Call(());
      events := events + Lift(fired, ClosedOf);
    }

    /** `triggerError(error)`. */
    method TriggerError(error: string)
      requires Valid()
      modifies this, errorCallback
      ensures Valid()
      ensures State() == ChannelSpec.TriggerError(old(State()), error).next
      ensures events == old(events) + ChannelSpec.TriggerError(old(State()), error).events
    {
      var _, fired := errorCallback.Call(error);
      events := events + Lift(fired, ErroredOf);
    }

    /** The first half of `triggerAvailable`: invoke the available slot when `count == 1`. */
    method SignalAvailable(count: Size)
      requires Valid()
      modifies this, availableCallback
      ensures Valid()
      ensures State() == Signal(old(State()), count).next
      ensures events == old(events) + Signal(old(State()), count).events
    {
      if count == 1 {
        var _, fired := availableCallback.Call(());
        events := events + Lift(fired, AvailableOf);
      }
    }

    /** `triggerAvailable(count)`. */
    method TriggerAvailable(count: Size)
      requires Valid()
      modifies this, availableCallback, messageCallback
      ensures Valid()
      ensures State() == ChannelSpec.TriggerAvailable(old(State()), count).next
      ensures events == old(events) + ChannelSpec.TriggerAvailable(old(State()), count).events
    {
      ghost var c, log := State(), events;
      SignalAvailable(count);
      ghost var signalled, afterSignal := State(), events;
      FlushPendingMessages();
      TriggerAvailableSteps(c, count, log, signalled, afterSignal, State(), events);
    }

    /** `triggerBufferedAmount(amount)`: the exchange yields the previous amount
        in the same step that stores the new one. */
    method TriggerBufferedAmount(amount: Size)
      requires Valid()
      modifies this, bufferedAmountLowCallback
      ensures Valid()
      ensures State() == ChannelSpec.TriggerBufferedAmount(old(State()), amount).next
      ensures events == old(events) + ChannelSpec.TriggerBufferedAmount(old(State()), amount).events
    {
      var previous := bufferedAmount;
      bufferedAmount := amount;
      var threshold := bufferedAmountLowThreshold;
      if previous > threshold && amount <= threshold {
        var _, fired := bufferedAmountLowCallback.Call(());
        events := events + Lift(fired, BufferedAmountLowOf);
      }
    }

    /** `resetOpenCallback`. */
    method ResetOpenCallback()
      requires Valid()
      modifies this, openCallback
      ensures Valid()
      ensures State() == ChannelSpec.ResetOpenCallback(old(State()))
      ensures events == old(events)
    {
      openTriggered := false;
      var _ := openCallback.Rebind(None);
    }

    /** `resetCallbacks`. */
    method ResetCallbacks()
      requires Valid()
      modifies this, openCallback, closedCallback, errorCallback,
               availableCallback, bufferedAmountLowCallback, messageCallback
      ensures Valid()
      ensures State() == ChannelSpec.ResetCallbacks(old(State()))
      ensures events == old(events)
    {
      openTriggered := false;
      var _ := openCallback.Rebind(None);
      var _ := closedCallback.Rebind(None);
      var _ := errorCallback.Rebind(None);
      var _ := availableCallback.Rebind(None);
      var _ := bufferedAmountLowCallback.Rebind(None);
      var _ := messageCallback.Set(None);
    }
  }
}
