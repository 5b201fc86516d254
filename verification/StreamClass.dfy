/** The broadcaster and its subscribers as objects: handlers and resumptions that update fields in place. */
module StreamClass {
  import opened Wrappers
  import opened Stream

  class Subscription {
    var place: Place
    var queue: seq<Frame>
    var resolve: bool
    var aborted: bool
    // The frames given to the consumer so far.
    ghost var yielded: seq<Frame>

    ghost function Current(): View
      reads this
    {
      View(Subscriber(place, queue, resolve, aborted), yielded)
    }

    /** The first pull: registers the handlers and runs the loop to its first suspension. */
    constructor (aborted: bool)
      ensures Current() == Start(aborted)
    {
      this.place := if aborted then Finished else Blocked;
      this.queue, this.resolve, this.aborted := [], !aborted, aborted;
      this.yielded := [];
    }

    method TakeResolve()
      modifies this`resolve, this`place
      ensures Current() == View(Wake(old(Current()).s), yielded)
    {
      if resolve {
        resolve := false;
        if place.Blocked? { place := Woken; }
      }
    }

    method OnFrame(frame: Frame)
      modifies this
      ensures Current() == Next(old(Current()), Emit(frame))
    {
      if place.Finished? { return; }
      queue := queue + [frame];
      TakeResolve();
    }

    method OnAbort()
      modifies this
      ensures Current() == Next(old(Current()), Abort)
    {
      if place.Finished? { return; }
      aborted := true;
      TakeResolve();
    }

    /** The inner loop up to its next suspension. */
    method RunInner() returns (given: Option<Frame>)
      modifies this
      ensures Current() == Inner(old(Current()))
      ensures yielded == if given.Some? then old(yielded) + [given.value] else old(yielded)
    {
      if |queue| > 0 {
        given := Some(queue[0]);
        yielded := yielded + [queue[0]];
        place, queue := AtYield, queue[1..];
      } else {
        given := None;
        resolve := true;
        place := if aborted then Woken else Blocked;
      }
    }

    method OnPull() returns (given: Option<Frame>)
      modifies this
      ensures Current() == Next(old(Current()), Pull)
      ensures yielded == if given.Some? then old(yielded) + [given.value] else old(yielded)
    {
      given := None;
      if place.AtYield? { given := RunInner(); }
    }

    method OnResume() returns (given: Option<Frame>)
      modifies this
      ensures Current() == Next(old(Current()), Resume)
      ensures yielded == if given.Some? then old(yielded) + [given.value] else old(yielded)
    {
      given := None;
      if place.Woken? {
        if aborted {
          place := Finished;
        } else {
          given := RunInner();
        }
      }
    }
  }

  class StreamBroadcaster {
    var seqNo: nat
    // The listeners of the 'frame' event, in registration order.
    var listeners: seq<Subscription>
    // Every frame emitted so far, and those numbered and still being signed.
    ghost var books: Broadcaster

    ghost predicate Valid()
      reads this
    {
      && books.seqNo == seqNo
      && forall i, j :: 0 <= i < j < |listeners| ==> listeners[i] != listeners[j]
    }

    constructor ()
      ensures Valid() && books == ApplyAll([]) && listeners == []
    {
      seqNo, listeners, books := 0, [], Broadcaster(0, [], []);
    }

    method Subscribe(aborted: bool) returns (s: Subscription)
      requires Valid()
      modifies this
      ensures Valid() && fresh(s) && s.Current() == Start(aborted)
      ensures listeners == old(listeners) + [s] && books == old(books)
    {
      s := new Subscription(aborted);
      listeners := listeners + [s];
    }

    /** Calls every listener with the frame, exactly once each. */
    method Deliver(frame: Frame)
      requires Valid()
      modifies listeners
      ensures Valid()
      ensures forall s :: s in listeners ==> s.Current() == Next(old(s.Current()), Emit(frame))
    {
      for i := 0 to |listeners|
        invariant forall j :: 0 <= j < i ==> listeners[j].Current() == Next(old(listeners[j].Current()), Emit(frame))
        invariant forall j :: i <= j < |listeners| ==> listeners[j].Current() == old(listeners[j].Current())
      {
        listeners[i].OnFrame(frame);
      }
    }

    method Broadcast(ops: seq<string>)
      requires Valid()
      modifies this, listeners
      ensures Valid() && listeners == old(listeners) && books == Apply(old(books), Call.Broadcast(ops))
      ensures forall s :: s in listeners ==>
                s.Current() == if ops == [] then old(s.Current()) else Next(old(s.Current()), Emit(Event(seqNo, ops)))
    {
      if |ops| == 0 { return; }
      seqNo := seqNo + 1;
      books := Apply(books, Call.Broadcast(ops));
      Deliver(Event(seqNo, ops));
    }

    method BroadcastInfo(name: string, message: Option<string>)
      requires Valid()
      modifies this, listeners
      ensures Valid() && listeners == old(listeners) && books == Apply(old(books), Call.BroadcastInfo(name, message))
      ensures forall s :: s in listeners ==> s.Current() == Next(old(s.Current()), Emit(Info(name, message)))
    {
      books := Apply(books, Call.BroadcastInfo(name, message));
      Deliver(Info(name, message));
    }

    /** The message goes off to be signed under its number. */
    method BuildEventMessage(ops: seq<string>) returns (message: Option<Frame>)
      requires Valid()
      modifies this
      ensures Valid() && listeners == old(listeners) && books == Apply(old(books), Call.BuildEventMessage(ops))
      ensures ops == [] ==> message == None
      ensures ops != [] ==> message == Some(Event(seqNo, ops)) && books.signing == old(books.signing) + [message.value]
    {
      if |ops| == 0 { return None; }
      seqNo := seqNo + 1;
      books := Apply(books, Call.BuildEventMessage(ops));
      message := Some(Event(seqNo, ops));
    }

    /** A message that has been signed goes out; `i` is its place among those being signed. */
    method EmitFrame(frame: Frame, ghost i: nat)
      requires Valid() && i < |books.signing| && books.signing[i] == frame
      modifies this, listeners
      ensures Valid() && listeners == old(listeners) && books == Apply(old(books), SigningDone(i, true))
      ensures books.emitted == old(books.emitted) + [frame]
      ensures forall s :: s in listeners ==> s.Current() == Next(old(s.Current()), Emit(frame))
    {
      books := Apply(books, SigningDone(i, true));
      Deliver(frame);
    }
  }
}
