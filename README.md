# Channel event delivery of libdatachannel, in Dafny

This project models the event-delivery core of libdatachannel's channels: the
synchronized callback slots of `include/rtc/utils.hpp` and the trigger and
flush protocol of `impl::Channel` (`src/impl/channel.hpp`, `src/impl/channel.cpp`).

- `common.dfy` (module `Common`): `Option`, `size_t` as `Size` (64-bit), and
  `message_variant` as `Message = Binary | Text`.
- `callbacks.dfy` (module `Callbacks`): a slot is a `Slot(storing, callback, stored)`.
  `storing` tells a `synchronized_stored_callback` from a plain
  `synchronized_callback`; the subclass's overrides of the virtual `set` and
  `call` become the `storing` branches. `Invoke` and `Assign` give one step on
  values. `Run` gives a sequence of steps. The class `SyncCallback<A>` has the
  fields `callback` and `stored` and a ghost `trace` of handler runs. Its methods
  are proved to move exactly as `Invoke`/`Assign` say. Lemmas prove that the
  last missed call wins, that it is replayed exactly once, and that a plain slot
  drops calls.
- `channel_spec.dfy` (module `ChannelSpec`): the channel state as a value
  (`ChannelState`) and one function per trigger. Each function returns the next
  state and the handler runs (`Event`s) the trigger causes, in order.
- `channel.dfy` (module `Channels`): the class `Channel`. It holds the six slot
  objects, the two counters, the open flag and the transport's queue, plus a
  ghost log `events` of every handler run across slots. Each method is proved to
  follow the matching function of `ChannelSpec`.

Handlers are opaque identities. Running a handler is recorded as an event
instead of executing code. Each operation is one sequential step; the mutexes
and atomics only exist to make it one.

Behaviours the model makes explicit:

- Writing `slot = func` or `slot = nullptr` means different things for the two
  kinds of slot. A plain slot takes the base `operator=(std::function)`
  (utils.hpp:73-77), which is `set(func)`. A stored slot declares a destructor
  and no assignment operator of its own (utils.hpp:105-111), so its implicitly
  declared copy assignment hides the base's. `func` is converted to a temporary
  stored slot, the temporary's handler goes through this slot's `set`, and then
  `stored` is copied from the temporary, which empties it (`Replace`,
  `SyncCallback.Rebind`). Assigning a non-null handler still replays a missed
  call first. Assigning null discards it, whereas `set(nullptr)` would keep it
  (`NullAssignmentDiscards`).
- `resetCallbacks` and `resetOpenCallback` assign null to the slots this way.
  After `resetCallbacks` the channel is as freshly constructed apart from the
  two counters and the queue, and every missed event is discarded
  (`ResetCallbacks`, `ResetDropsMissedOpen`).
- `availableAmount()` is pure virtual in `impl::Channel`. It is modelled as
  the total payload size of the queued messages: bytes of a binary message,
  characters of a text message. A total of 0 therefore does not mean the
  queue is empty (`TotalSizeZero`).
- The transport owns the inbound queue. It is modelled as a `seq<Message>`.
  `receive()` takes the message at the front, and `peek()` reads it without
  removing it. This is an assumption about the concrete transports, which are
  not part of this model.

## Model

| member | source | states |
|---|---|---|
| `Callbacks.Invoke` | include/rtc/utils.hpp:127-136 | invoking never changes the handler; with a handler it runs exactly once with the given arguments and nothing else changes; without one a stored slot keeps these arguments (overwriting earlier ones) and a plain slot changes nothing; the slot invariant is kept |
| `Callbacks.Reports` | include/rtc/utils.hpp:79-82 | `operator()` on a stored slot always returns true; on a plain slot it returns true iff a handler is held |
| `Callbacks.Assign` | include/rtc/utils.hpp:115-125 | the handler becomes `f`; a replay happens iff the slot stores, `f` is non-null and arguments are pending; the replay runs `f` once with them and clears them; otherwise (in particular for null) pending arguments are kept |
| `Callbacks.Replace` | include/rtc/utils.hpp:105-111 | `slot = func` on a slot of its declared type: the handler becomes `func`; a replay happens iff the slot stores, `func` is non-null and a call is pending, and runs `func` once with it; a stored slot is left with nothing pending whatever was assigned; on a plain slot it is exactly `Assign` |
| `Callbacks.NullAssignmentDiscards` | include/rtc/utils.hpp:105-125 | on a stored slot with a missed call, `set(nullptr)` keeps the call for the next handler, which then runs once with it, while assigning null to the slot itself leaves the next handler nothing to replay |
| `Callbacks.Run` | include/rtc/utils.hpp:105-139 | over any sequence of N `set` calls (base-class assignments) and invocations at most N handler runs happen, the slot kind never changes, and the slot invariant (no pending arguments while a handler is held, none ever in a plain slot) is preserved |
| `Callbacks.LastCallWins` | include/rtc/utils.hpp:127-136 | invoking a stored slot N times while it has no handler runs nothing and leaves exactly the N-th call's arguments pending |
| `Callbacks.ReplayOnce` | include/rtc/utils.hpp:115-125 | attaching a handler after N missed calls runs it once with the N-th call's arguments and leaves nothing pending |
| `Callbacks.AssignmentsReplayNothing` | include/rtc/utils.hpp:119-124 | with nothing pending, no sequence of `set` calls runs a handler or makes anything pending |
| `Callbacks.ReplayExactlyOnce` | include/rtc/utils.hpp:105-139 | after N missed calls, one non-null `set` followed by any further `set` calls runs exactly one handler run in total: the new handler with the N-th call's arguments |
| `Callbacks.PlainSlotDropsCalls` | include/rtc/utils.hpp:91-97 | a plain slot without a handler runs nothing and keeps nothing, however often it is invoked |
| `Callbacks.HandledCallsRunInOrder` | include/rtc/utils.hpp:91-97 | while a handler is held, N calls run it N times in call order with each call's arguments, and the slot is unchanged |
| `Callbacks.SyncCallback.constructor` | include/rtc/utils.hpp:55 | a new slot holds no handler and nothing pending |
| `Callbacks.SyncCallback.FromFunction` | include/rtc/utils.hpp:58 | a slot built from a function holds it, with nothing pending and nothing run |
| `Callbacks.SyncCallback.CopyOf` | include/rtc/utils.hpp:57 | a copy-constructed slot holds the source's handler; the source is unchanged |
| `Callbacks.SyncCallback.MovedFrom` | include/rtc/utils.hpp:56 | a move-constructed slot holds the source's handler; the source is left without one, its pending arguments untouched |
| `Callbacks.SyncCallback.IsSet` | include/rtc/utils.hpp:84-87 | `operator bool` is true iff a handler is held |
| `Callbacks.SyncCallback.Set` | include/rtc/utils.hpp:73-77 | assignment from a function moves the slot as `Assign` says, appends exactly the replayed run (if any) to the trace, and keeps the invariant |
| `Callbacks.SyncCallback.Rebind` | include/rtc/utils.hpp:105-111 | `slot = func` on the slot object: `set(func)`, then for a stored slot the copy of the temporary's empty `stored`; moves the slot exactly as `Replace` says and appends exactly the replayed run, if any, to the trace |
| `Callbacks.SyncCallback.Call` | include/rtc/utils.hpp:79-82 | invocation moves the slot as `Invoke` says, returns what `Reports` says, and appends exactly the run it caused to the trace |
| `Callbacks.SyncCallback.MoveFrom` | include/rtc/utils.hpp:61-65 | move assignment gives the destination the source's handler through the destination's `set` (replaying if it stores and has pending arguments) and leaves a distinct source without a handler, its pending arguments untouched |
| `Callbacks.SyncCallback.CopyFrom` | include/rtc/utils.hpp:67-71 | copy assignment gives the destination the source's handler through its `set`; a distinct source is unchanged |
| `ChannelSpec.Fresh` | src/impl/channel.hpp:71-77 | a new channel has both counters at 0, the open flag false, and well-formed slots (five storing, the message slot plain) |
| `ChannelSpec.Flush` | src/impl/channel.cpp:86-104 | before the open event nothing is received or delivered; with no message handler `receive()` is never called; otherwise the queue is drained and every message reaches the handler once, in receive order, and nothing else changes |
| `ChannelSpec.TriggerOpen` | src/impl/channel.cpp:16-27 | keeps every slot invariant (its effect is stated by `TriggerOpenEffect`) |
| `ChannelSpec.TriggerOpenEffect` | src/impl/channel.cpp:16-27 | `triggerOpen` sets the flag, runs the open handler or keeps the event for replay, then delivers the backlog after the open event when a message handler is held, and otherwise leaves the queue; nothing else changes |
| `ChannelSpec.TriggerClosed` | src/impl/channel.cpp:30-38 | `triggerClosed` runs the closed handler once or keeps the event for replay, and changes nothing else (flag, counters, queue, other slots) |
| `ChannelSpec.TriggerError` | src/impl/channel.cpp:41-49 | `triggerError(msg)` runs the error handler once with `msg` or keeps `msg` for replay, replacing an earlier one, and changes nothing else |
| `ChannelSpec.TriggerAvailable` | src/impl/channel.cpp:52-65 | keeps every slot invariant (its effect is stated by `TriggerAvailableEffect`) |
| `ChannelSpec.TriggerAvailableEffect` | src/impl/channel.cpp:52-65 | a count other than 1 only flushes; a count of 1 invokes the available slot and then flushes exactly as the other counts do |
| `ChannelSpec.TriggerBufferedAmount` | src/impl/channel.cpp:68-83 | the amount becomes `amount`; the low slot is invoked iff the previous amount was above the threshold and the new one is at or below it; the threshold, flag, other slots and queue are untouched |
| `ChannelSpec.ResetOpenCallback` | src/impl/channel.cpp:107-112 | the flag is false and the open slot has neither a handler nor a pending open event; everything else is untouched |
| `ChannelSpec.ResetCallbacks` | src/impl/channel.cpp:115-130 | the flag is false and all six slots have no handler; on a well-formed channel the result is the fresh channel with the old counters and queue, so every pending event is discarded |
| `ChannelSpec.TotalSizeZero` | src/impl/channel.hpp:34 | the available amount is 0 iff every queued message is empty |
| `ChannelSpec.OpenPrecedesMessages` | src/impl/channel.cpp:16-27 | in the runs caused by `triggerOpen`, every open event comes before every delivered message |
| `ChannelSpec.NothingDeliveredBeforeOpen` | src/impl/channel.cpp:86-89 | before the open event `triggerAvailable` (of any count) delivers no message and leaves the queue unchanged |
| `ChannelSpec.ResetRearmsOpenGate` | src/impl/channel.cpp:115-130 | after `resetCallbacks`, a newly attached message handler sees nothing from `triggerAvailable` until the next `triggerOpen`, which then delivers the whole backlog in order |
| `ChannelSpec.ResetDropsMissedOpen` | src/impl/channel.cpp:107-130 | an open event missed by a channel without an open handler is pending, and after `resetCallbacks` or `resetOpenCallback` a newly attached open handler is not run |
| `ChannelSpec.RunBufferedAmounts` | src/impl/channel.cpp:68-83 | a sequence of buffered-amount updates leaves the last amount, changes only the counter and the low slot, and never drops a held low handler |
| `ChannelSpec.LowEventsAreCrossings` | src/impl/channel.cpp:74 | with a low handler held, the low events of any sequence of amounts are exactly one per downward crossing of the threshold in the value sequence |
| `ChannelSpec.QuietWhileLow` | src/impl/channel.cpp:74 | updates that keep an already low amount at or below the threshold never invoke the low slot: nothing runs and nothing is kept for replay |
| `ChannelSpec.ThresholdHundredCases` | src/impl/channel.cpp:68-83 | with threshold 100 on a fresh channel: [150, 80] fires once, [80, 50] never, [50, 120, 80] once and only at its last step |
| `ChannelSpec.DefaultThresholdFiresAtZero` | src/impl/channel.hpp:73 | with the default threshold 0, the low handler runs iff the amount drops from a positive value to exactly 0 |
| `Channels.Channel.constructor` | src/impl/channel.hpp:71-77 | a new channel is in the `Fresh` state with distinct, freshly allocated slots, each with an empty trace, and an empty log |
| `Channels.Channel.Receive` | src/impl/channel.hpp:29 | `receive()` returns and removes the front message, or returns empty on an empty queue; counters, flag and log unchanged |
| `Channels.Channel.Peek` | src/impl/channel.hpp:32 | `peek()` returns the front message without removing it, and empty iff the queue is empty |
| `Channels.Channel.AvailableAmount` | src/impl/channel.hpp:34 | the total payload size of the queue, 0 iff every queued message is empty |
| `Channels.Channel.FlushPendingMessages` | src/impl/channel.cpp:86-104 | the drain loop moves the channel exactly as `Flush` says and logs exactly its deliveries |
| `Channels.Channel.MarkOpen` | src/impl/channel.cpp:18-24 | sets the flag and invokes the open slot, logging exactly the open run it caused |
| `Channels.Channel.TriggerOpen` | src/impl/channel.cpp:16-27 | moves the channel and its log exactly as `TriggerOpen` says |
| `Channels.Channel.TriggerClosed` | src/impl/channel.cpp:30-38 | moves the channel and its log exactly as `TriggerClosed` says |
| `Channels.Channel.TriggerError` | src/impl/channel.cpp:41-49 | moves the channel and its log exactly as `TriggerError` says |
| `Channels.Channel.SignalAvailable` | src/impl/channel.cpp:54-62 | invokes the available slot when the count is 1 and changes nothing otherwise, moving the channel and its log as `Signal` says |
| `Channels.Channel.TriggerAvailable` | src/impl/channel.cpp:52-65 | moves the channel and its log exactly as `TriggerAvailable` says |
| `Channels.Channel.TriggerBufferedAmount` | src/impl/channel.cpp:68-83 | exchanges the counter and moves the channel and its log exactly as `TriggerBufferedAmount` says |
| `Channels.Channel.ResetOpenCallback` | src/impl/channel.cpp:107-112 | re-arms the gate and assigns null to the open slot through its own assignment; moves the channel as `ResetOpenCallback` says and runs no handler |
| `Channels.Channel.ResetCallbacks` | src/impl/channel.cpp:115-130 | re-arms the gate and assigns null to the five stored slots through their own assignment and to the message slot through `set`; moves the channel as `ResetCallbacks` says and runs no handler |

## Left out

- Locks and atomics (`std::recursive_mutex`, `std::scoped_lock`, `std::atomic::exchange`): each operation is one sequential step. Deadlock freedom, re-entrant callbacks and concurrent interleavings are not modelled.
- Exceptions thrown by handlers and the warning logged for them: a handler run is an event that never throws. In the source a replayed handler that throws inside the stored `set` (utils.hpp:122-123) skips `stored.reset()`, so the call stays pending while a handler is held and the exception reaches whoever assigned the handler; `Assign` and `Replace` always clear it. Logging is I/O.
- Handler bodies: handlers are opaque identities. A handler that re-assigns or invokes slots while it runs is not modelled.
- Messages arriving while a flush is running: the queue only changes through `receive()` during a flush.
- `weak_bind`, `scope_guard`, `overloaded` and `CheshireCat` in utils.hpp: they depend on `shared_ptr`/`weak_ptr` lifetimes and destructor side effects.
- The public facade in include/rtc/channel.hpp (`onMessage`, `onAvailable`, `setBufferedAmountLowThreshold`, `send`, `close`, `isOpen`, `maxMessageSize`): its bodies are not part of this model. The threshold is a plain public field of the class.
- `Channels.Channel.AvailableAmount`: returns an unbounded `nat`; it does not model a `size_t` total that would overflow.
- `Common.MessageSize`: counts a text message in characters, not in the bytes of its UTF-8 encoding; this model has no string encoding.
- Assignment of one stored slot to another, and copy construction of a stored slot from a const one: the implicit copy assignment and the implicit copy constructor of `synchronized_stored_callback` also copy the source's pending call, whereas `SyncCallback.CopyOf` starts with nothing pending (right for a non-const or rvalue source, which takes the template constructor at utils.hpp:107-110). `SyncCallback.MoveFrom` and `SyncCallback.CopyFrom` model the base class's operators (utils.hpp:61-71), as reached through a `synchronized_callback` reference.
