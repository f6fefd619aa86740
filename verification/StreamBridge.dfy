/** The bridges between a guest's byte streams and the host's bounded channels. */
module StreamBridge {
  import opened Wrappers

  datatype Outcome = Pending | Completed | Dropped | Cancelled

  /** A bounded channel; `open` means that its receiver is still there. */
  class Channel<T> {
    const capacity: nat
    var queue: seq<T>
    var open: bool

    constructor (capacity: nat)
      ensures this.capacity == capacity && queue == [] && open
    {
      this.capacity := capacity;
      queue, open := [], true;
    }

    /** Sending without waiting: a full channel refuses, a closed one too. */
    method TrySend(item: T) returns (sent: bool)
      modifies this`queue
      ensures sent <==> open && |old(queue)| < capacity
      ensures queue == if sent then old(queue) + [item] else old(queue)
    {
      sent := open && |queue| < capacity;
      if sent {
        queue := queue + [item];
      }
    }

    method TryReceive() returns (item: Option<T>)
      modifies this`queue
      ensures if old(queue) == [] then item == None && queue == []
              else item == Some(old(queue)[0]) && queue == old(queue)[1..]
    {
      if queue == [] {
        return None;
      }
      item := Some(queue[0]);
      queue := queue[1..];
    }
  }

  /** How far sending goes: up to the room there is. */
  function Room(capacity: nat, queue: nat, wanted: nat): (n: nat)
    ensures n <= wanted
  {
    Min(SatSub(capacity, queue), wanted)
  }

  /** Where the items of a guest's stream are: delivered to the host, in the channel,
      held back by the consumer, or not yet read from the guest. */
  datatype Bridge<T> = Bridge(delivered: seq<T>, queue: seq<T>, pending: seq<T>, unread: seq<T>, capacity: nat)

  /** What one poll does while the channel is open: what was held back goes first; the
      source is read only once nothing is held back, and what does not fit then is held
      back in its turn. */
  function Polled<T>(b: Bridge<T>): Bridge<T> {
    var n := Room(b.capacity, |b.queue|, |b.pending|);
    if n < |b.pending| then b.(queue := b.queue + b.pending[..n], pending := b.pending[n..])
    else
      var flushed := b.queue + b.pending;
      var m := Room(b.capacity, |flushed|, |b.unread|);
      b.(queue := flushed + b.unread[..m], pending := b.unread[m..], unread := [])
  }

  class MpscStreamConsumer<T> {
    const tx: Channel<T>
    var pending: seq<T>

    constructor (tx: Channel<T>)
      ensures this.tx == tx && pending == []
    {
      this.tx := tx;
      pending := [];
    }

    /** Sends items until one is refused; returns how many went through. */
    method SendAll(items: seq<T>) returns (n: nat)
      modifies tx`queue
      ensures n == if tx.open then Room(tx.capacity, |old(tx.queue)|, |items|) else 0
      ensures tx.queue == old(tx.queue) + items[..n]
    {
      n := 0;
      while n < |items|
        invariant n <= |items| && tx.queue == old(tx.queue) + items[..n]
        invariant n > 0 ==> tx.open && |tx.queue| <= tx.capacity
      {
        var sent := tx.TrySend(items[n]);
        if !sent {
          return;
        }
        n := n + 1;
      }
    }

    /** One poll. On a closed channel the items at hand are lost. */
    method PollConsume(source: seq<T>, finish: bool) returns (outcome: Outcome, unread: seq<T>)
      modifies this`pending, tx`queue
      ensures tx.open ==>
                Bridge([], tx.queue, pending, unread, tx.capacity)
                == Polled(Bridge([], old(tx.queue), old(pending), source, tx.capacity))
      ensures tx.open ==>
                outcome == if pending != [] then Pending else if source == [] && finish then Cancelled else Completed
      ensures !tx.open ==> tx.queue == old(tx.queue) && (outcome == Dropped <==> old(pending) + source != [])
      ensures !tx.open && old(pending) != [] ==> pending == old(pending)[1..] && unread == source
      ensures !tx.open && old(pending) == [] ==> pending == [] && unread == []
    {
      unread := source;
      var held := pending;
      var n := SendAll(held);
      pending := held[n..];
      if n < |held| {
        if !tx.open {
          pending := held[n + 1..];
          outcome := Dropped;
        } else {
          outcome := Pending;
        }
        return;
      }
      if source != [] {
        unread := [];
        var m := SendAll(source);
        if m < |source| {
          if !tx.open {
            return Dropped, unread;
          }
          pending := source[m..];
          return Pending, unread;
        }
        outcome := Completed;
      } else {
        outcome := if finish then Cancelled else Completed;
      }
    }
  }

  /** The producer hands over at most `count` items in arrival order. */
  class MpscStreamProducer<T> {
    const rx: Channel<T>

    constructor (rx: Channel<T>)
      ensures this.rx == rx
    {
      this.rx := rx;
    }

    /** `ended` means that the channel has no sender left. */
    method PollProduce(count: nat, ended: bool) returns (outcome: Outcome, buffer: seq<T>)
      modifies rx`queue
      ensures old(rx.queue) == buffer + rx.queue
      ensures |buffer| == Min(count, |old(rx.queue)|)
      ensures outcome == if count == 0 || |buffer| == count then Completed
                         else if ended then Dropped
                         else if buffer == [] then Pending else Completed
    {
      buffer := [];
      if count == 0 {
        return Completed, buffer;
      }
      while true
        invariant old(rx.queue) == buffer + rx.queue && |buffer| < count
        decreases |rx.queue|
      {
        var item := rx.TryReceive();
        if item.Some? {
          buffer := buffer + [item.value];
          if |buffer| >= count {
            return Completed, buffer;
          }
        } else if ended {
          return Dropped, buffer;
        } else if buffer != [] {
          return Completed, buffer;
        } else {
          return Pending, buffer;
        }
      }
    }
  }

  const BATCH: nat := 4096

  /** One batch of the stdin writer: the first item waited for, and what is there behind it. */
  method TakeBatch<T>(rx: Channel<T>) returns (buffer: seq<T>)
    modifies rx`queue
    ensures old(rx.queue) == buffer + rx.queue
    ensures |buffer| == Min(BATCH, |old(rx.queue)|)
  {
    buffer := [];
    var first := rx.TryReceive();
    if first.None? {
      return;
    }
    buffer := [first.value];
    while |buffer| < BATCH
      invariant old(rx.queue) == buffer + rx.queue && 1 <= |buffer| <= BATCH
      decreases |rx.queue|
    {
      var item := rx.TryReceive();
      if item.None? {
        break;
      }
      buffer := buffer + [item.value];
    }
  }

  /* ---------- every interleaving ---------- */

  datatype Step<T> = Write(items: seq<T>) | Consume | Receive(count: nat)

  datatype Steps<T> = Begin(capacity: nat) | Then(before: Steps<T>, step: Step<T>)

  function After<T>(steps: Steps<T>): (b: Bridge<T>) {
    match steps
    case Begin(capacity) => Bridge([], [], [], [], capacity)
    case Then(before, step) =>
      var b := After(before);
      match step
      case Write(items) => b.(unread := b.unread + items)
      case Consume => Polled(b)
      case Receive(count) =>
        var n := Min(count, |b.queue|);
        b.(delivered := b.delivered + b.queue[..n], queue := b.queue[n..])
  }

  function Written<T>(steps: Steps<T>): seq<T> {
    match steps
    case Begin(_) => []
    case Then(before, step) => if step.Write? then Written(before) + step.items else Written(before)
  }

  /** Over every interleaving of writes, polls and receives: what was delivered, is in
      the channel, is held back and is unread is what was written, in order; and the
      channel never holds more than it can. */
  lemma {:induction false} NothingLostOrReordered<T>(steps: Steps<T>)
    ensures
      var b := After(steps);
      && b.delivered + b.queue + b.pending + b.unread == Written(steps)
      && |b.queue| <= b.capacity
  {
    match steps
    case Begin(_) =>
    case Then(before, step) =>
      NothingLostOrReordered(before);
      var b := After(before);
      match step
      case Write(items) =>
        assert b.delivered + b.queue + b.pending + (b.unread + items)
            == b.delivered + b.queue + b.pending + b.unread + items;
      case Consume => PolledConserves(b);
      case Receive(count) =>
        var n := Min(count, |b.queue|);
        assert b.delivered + b.queue[..n] + b.queue[n..] == b.delivered + b.queue;
  }

  /** A poll goes as far as there is room: it leaves nothing behind, or the channel full. */
  lemma PolledFills<T>(b: Bridge<T>)
    ensures
      var c := Polled(b);
      && (c.pending == [] || |c.queue| >= c.capacity)
      && (c.unread == [] || (c.unread == b.unread && |c.queue| >= c.capacity && b.pending != []))
      && c.delivered == b.delivered && c.capacity == b.capacity
  {
  }

  lemma PolledConserves<T>(b: Bridge<T>)
    requires |b.queue| <= b.capacity
    ensures
      var c := Polled(b);
      && c.delivered + c.queue + c.pending + c.unread == b.delivered + b.queue + b.pending + b.unread
      && |c.queue| <= c.capacity
      && (c.unread != b.unread ==> b.queue + b.pending <= c.queue)
  {
    var n := Room(b.capacity, |b.queue|, |b.pending|);
    assert b.pending[..n] + b.pending[n..] == b.pending;
    var m := Room(b.capacity, |b.queue + b.pending|, |b.unread|);
    assert b.unread[..m] + b.unread[m..] == b.unread;
  }
}
