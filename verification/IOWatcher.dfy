/** The epoll table, the interest of one descriptor in it, and the dispatch of what epoll reports
    (potato/net/IOWatcher.h, potato/net/IOWatcher.cpp). epoll_ctl succeeds: its failure aborts. */
module IOWatcher {

  const EPOLLIN: bv32 := 0x0001
  const EPOLLPRI: bv32 := 0x0002
  const EPOLLOUT: bv32 := 0x0004
  const EPOLLERR: bv32 := 0x0008
  const EPOLLHUP: bv32 := 0x0010
  const EPOLLRDHUP: bv32 := 0x2000
  const EPOLLET: bv32 := 0x8000_0000

  const READING: bv32 := EPOLLIN | EPOLLPRI

  /** What the kernel is given for an event's interest. */
  function Mask(events: bv32, etMode: bool): (m: bv32)
    ensures m & EPOLLIN == events & EPOLLIN && m & EPOLLPRI == events & EPOLLPRI && m & EPOLLOUT == events & EPOLLOUT
    ensures events & EPOLLET == 0 ==> (m & EPOLLET != 0 <==> etMode)
  {
    if etMode then events | EPOLLET else events
  }

  datatype Handler = CloseHandler | ReadHandler | WriteHandler | NoHandler

  /** Which callback belongs to a reported mask: a hang-up comes first whatever else is reported, then data to read,
      then room to write. */
  predicate Handles(h: Handler, ev: bv32) {
    var hangUp := ev & EPOLLHUP != 0 || ev & EPOLLRDHUP != 0;
    var readable := ev & EPOLLIN != 0 || ev & EPOLLPRI != 0;
    var writable := ev & EPOLLOUT != 0;
    match h
    case CloseHandler => hangUp
    case ReadHandler => readable && !hangUp
    case WriteHandler => writable && !readable && !hangUp
    case NoHandler => !writable && !readable && !hangUp
  }

  /** The one callback that handleIOEvent invokes for a reported mask. */
  function Dispatch(ev: bv32): (h: Handler)
    ensures Handles(h, ev)
  {
    if ev & (EPOLLHUP | EPOLLRDHUP) != 0 then CloseHandler
    else if ev & (EPOLLIN | EPOLLPRI) != 0 then ReadHandler
    else if ev & EPOLLOUT != 0 then WriteHandler
    else NoHandler
  }

  lemma OneHandles(h: Handler, ev: bv32)
    ensures Handles(h, ev) <==> h == Dispatch(ev)
  {}

  /** Masks the kernel may report for an interest: bits asked for, an error, or a hang-up. */
  predicate Reportable(ev: bv32, events: bv32) {
    ev & !(events | EPOLLERR | EPOLLHUP | EPOLLRDHUP) == 0
  }

  /** Without EPOLLOUT in the interest the write handler is never invoked; with data to read it is not either. */
  lemma WriteHandlerOnlyWhenAsked(ev: bv32, events: bv32)
    requires Reportable(ev, events) && Dispatch(ev) == WriteHandler
    ensures events & EPOLLOUT != 0 && ev & READING == 0
  {}

  class IOWatcher {
    const etMode: bool
    /** The kernel's table: the mask last given for each registered event. */
    var interest: map<IOEvent, bv32>
    /** events_.size(): the most events one wait may report. */
    var capacity: nat

    constructor (etMode: bool)
      ensures this.etMode == etMode && interest == map[] && capacity == 16
    {
      this.etMode := etMode;
      interest := map[];
      capacity := 16;
    }

    /** handleIOEvent: what the wait reported, or that it failed; result k is the handler invoked for report k.
        A batch that fills the array makes the next one twice as large. */
    method HandleIOEvent(failed: bool, ready: seq<(IOEvent, bv32)>) returns (calls: seq<(IOEvent, Handler)>)
      requires |ready| <= capacity
      modifies this`capacity
      ensures failed ==> calls == [] && capacity == old(capacity)
      ensures !failed ==> |calls| == |ready|
      ensures forall k | 0 <= k < |calls| :: calls[k].0 == ready[k].0 && Handles(calls[k].1, ready[k].1)
      ensures !failed ==> capacity == if |ready| == old(capacity) then 2 * old(capacity) else old(capacity)
    {
      calls := [];
      if failed {
        return;
      }
      var i := 0;
      while i < |ready|
        invariant 0 <= i <= |ready| && |calls| == i && capacity == old(capacity)
        invariant forall k | 0 <= k < i :: calls[k].0 == ready[k].0 && Handles(calls[k].1, ready[k].1)
      {
        var (event, ev) := ready[i];
        var handler := ChooseHandler(ev);
        calls := calls + [(event, handler)];
        i := i + 1;
      }
      if |ready| == capacity {
        capacity := 2 * |ready|;
      }
    }

    /** The body of the loop. */
    method ChooseHandler(ev: bv32) returns (h: Handler)
      ensures Handles(h, ev)
    {
      if ev & (EPOLLHUP | EPOLLRDHUP) != 0 {
        h := CloseHandler;
      } else if ev & (EPOLLIN | EPOLLPRI) != 0 {
        h := ReadHandler;
      } else if ev & EPOLLOUT != 0 {
        h := WriteHandler;
      } else {
        h := NoHandler;
      }
    }

    method AddNewIOEvent(event: IOEvent)
      requires event.watcher == this && !event.inEpoll
      modifies this`interest, event`inEpoll
      ensures event.inEpoll && interest == old(interest)[event := Mask(event.events, etMode)]
    {
      interest := interest[event := Mask(event.events, etMode)];
      event.inEpoll := true;
    }

    method ModifyIOEvent(event: IOEvent)
      requires event.watcher == this && event.inEpoll
      modifies this`interest
      ensures interest == old(interest)[event := Mask(event.events, etMode)]
    {
      interest := interest[event := Mask(event.events, etMode)];
    }

    method DeleteIOEvent(event: IOEvent)
      requires event.watcher == this && event.inEpoll
      modifies this`interest, event`inEpoll
      ensures !event.inEpoll && interest == old(interest) - {event}
    {
      interest := interest - {event};
      event.inEpoll := false;
    }

    method EnableIOReading(event: IOEvent)
      requires event.watcher == this && event.events == 0 && !event.inEpoll
      modifies this`interest, event`inEpoll, event`events
      ensures event.inEpoll && event.events == READING
      ensures interest == old(interest)[event := Mask(READING, etMode)]
    {
      event.events := event.events | (EPOLLIN | EPOLLPRI);
      AddNewIOEvent(event);
    }

    method EnableIOWriting(event: IOEvent)
      requires event.watcher == this && !event.isWriting && event.inEpoll && event.events & EPOLLIN != 0
      modifies this`interest, event`events
      ensures event.events == old(event.events) | EPOLLOUT
      ensures interest == old(interest)[event := Mask(event.events, etMode)]
    {
      event.events := event.events | EPOLLOUT;
      ModifyIOEvent(event);
    }

    method DisableIOWriting(event: IOEvent)
      requires event.watcher == this && event.isWriting && event.inEpoll && event.events & EPOLLIN != 0
      modifies this`interest, event`events
      ensures event.events == old(event.events) & !EPOLLOUT
      ensures interest == old(interest)[event := Mask(event.events, etMode)]
    {
      event.events := event.events & !EPOLLOUT;
      ModifyIOEvent(event);
    }

    method RemoveIOEvent(event: IOEvent)
      requires event.watcher == this && event.inEpoll
      modifies this`interest, event`inEpoll, event`events
      ensures !event.inEpoll && event.events == 0 && interest == old(interest) - {event}
    {
      DeleteIOEvent(event);
      event.events := 0;
    }
  }

  class IOEvent {
    const watcher: IOWatcher
    const etMode: bool
    var inEpoll: bool
    var isWriting: bool
    var events: bv32

    constructor (watcher: IOWatcher)
      ensures this.watcher == watcher && etMode == watcher.etMode
      ensures !inEpoll && !isWriting && events == 0
    {
      this.watcher := watcher;
      etMode := watcher.etMode;
      inEpoll, isWriting, events := false, false, 0;
    }

    /** Registered for reading, and for writing exactly when isWriting holds; the kernel has been told so. */
    ghost predicate Registered()
      reads this, watcher
    {
      && inEpoll && etMode == watcher.etMode
      && events == (if isWriting then READING | EPOLLOUT else READING)
      && this in watcher.interest && watcher.interest[this] == Mask(events, etMode)
    }

    /** Not in the kernel's table. */
    ghost predicate Unregistered()
      reads this, watcher
    {
      !inEpoll && etMode == watcher.etMode && events == 0 && this !in watcher.interest
    }

    ghost predicate OthersUnchanged(before: map<IOEvent, bv32>)
      reads watcher
    {
      watcher.interest - {this} == before - {this}
    }

    method ExpectReading()
      requires Unregistered() && !isWriting
      modifies this, watcher
      ensures Registered() && !isWriting && OthersUnchanged(old(watcher.interest))
    {
      watcher.EnableIOReading(this);
    }

    method ExpectWriting()
      requires Registered()
      modifies this, watcher
      ensures Registered() && isWriting && OthersUnchanged(old(watcher.interest))
    {
      if isWriting {
        return;
      }
      watcher.EnableIOWriting(this);
      isWriting := true;
    }

    method IgnoreWriting()
      requires Registered()
      modifies this, watcher
      ensures Registered() && !isWriting && OthersUnchanged(old(watcher.interest))
    {
      if !isWriting {
        return;
      }
      watcher.DisableIOWriting(this);
      isWriting := false;
    }

    method RemoveThisEvent()
      requires Registered()
      modifies this, watcher
      ensures Unregistered() && isWriting == old(isWriting) && OthersUnchanged(old(watcher.interest))
    {
      watcher.RemoveIOEvent(this);
    }
  }
}
