/**
 The realtime stream.  Each subscriber is an async generator with a queue and a hand-rolled wakeup:
 a `resolve` slot that the frame handler and the abort handler take.  A subscriber runs alone
 between its suspension points, so every handler call and every resumption is one step.
 */
module Stream {
  import opened Wrappers

  datatype Frame = Event(seqNo: nat, ops: seq<string>) | Info(name: string, message: Option<string>)

  /** Where the generator stands: suspended at its yield, at an unresolved or a resolved promise, or over. */
  datatype Place = AtYield | Blocked | Woken | Finished

  datatype Subscriber = Subscriber(place: Place, queue: seq<Frame>, resolve: bool, aborted: bool)

  /** The generator, and the frames it has given its consumer. */
  datatype View = View(s: Subscriber, yielded: seq<Frame>)

  // ---- running the generator from one suspension to the next ----

  /** The inner loop: hand out the next frame, or wait on a fresh promise (resolved at once after an abort). */
  function Inner(v: View): View {
    if v.s.queue != [] then
      View(v.s.(place := AtYield, queue := v.s.queue[1..]), v.yielded + [v.s.queue[0]])
    else v.(s := v.s.(place := if v.s.aborted then Woken else Blocked, resolve := true))
  }

  /** The head of the outer loop. */
  function Outer(v: View): View {
    if v.s.aborted then v.(s := v.s.(place := Finished)) else Inner(v)
  }

  /** The first pull registers the handlers and enters the loop. */
  function Start(aborted: bool): View {
    Outer(View(Subscriber(Woken, [], false, aborted), []))
  }

  datatype Step =
    | Emit(frame: Frame)  // the frame handler
    | Abort               // the signal, with its handler
    | Pull                // the consumer asks for the next frame
    | Resume              // the promise continuation
    | Close               // the consumer gives up at a yield

  function Wake(s: Subscriber): Subscriber {
    if s.resolve then s.(resolve := false, place := if s.place.Blocked? then Woken else s.place) else s
  }

  function Next(v: View, step: Step): View {
    match step
    case Emit(frame) =>
      if v.s.place.Finished? then v else v.(s := Wake(v.s.(queue := v.s.queue + [frame])))
    case Abort => if v.s.place.Finished? then v else v.(s := Wake(v.s.(aborted := true)))
    case Pull => if v.s.place.AtYield? then Inner(v) else v
    case Resume => if v.s.place.Woken? then Outer(v) else v
    case Close => if v.s.place.AtYield? then v.(s := v.s.(place := Finished)) else v
  }

  function Run(aborted: bool, steps: seq<Step>): View {
    if steps == [] then Start(aborted) else Next(Run(aborted, steps[..|steps| - 1]), steps[|steps| - 1])
  }

  /** The frames that the broadcaster sent, told from what happened alone. */
  function Sent(steps: seq<Step>): seq<Frame> {
    if steps == [] then []
    else
      var last := steps[|steps| - 1];
      Sent(steps[..|steps| - 1]) + (if last.Emit? then [last.frame] else [])
  }

  /** The consumer has been given the first frames that were sent, and the queue holds the others while it lives. */
  ghost predicate Inv(v: View, sent: seq<Frame>) {
    && (!v.s.place.Finished? ==> v.yielded + v.s.queue == sent)
    && v.yielded <= sent
    && (v.s.place.Blocked? ==> v.s.queue == [] && !v.s.aborted && v.s.resolve)
    && (v.s.place.Woken? ==> v.s.queue != [] || v.s.aborted)
    && (v.s.resolve ==> v.s.place.Blocked? || v.s.aborted)
    && (v.s.place.AtYield? ==> !v.s.resolve)
  }

  lemma NextKeepsInv(v: View, step: Step, sent: seq<Frame>)
    requires Inv(v, sent)
    ensures Inv(Next(v, step), if step.Emit? then sent + [step.frame] else sent)
  {
    if step.Emit? && !v.s.place.Finished? {
      assert v.yielded + (v.s.queue + [step.frame]) == (v.yielded + v.s.queue) + [step.frame];
    }
    if v.s.queue != [] {
      assert (v.yielded + [v.s.queue[0]]) + v.s.queue[1..] == v.yielded + v.s.queue;
    }
  }

  /**
   In every interleaving of emits, pulls, resumptions and abort: frames reach the consumer in the
   order they were sent, with none skipped, and those it does not have yet are in the queue of a live
   subscriber; and a subscriber that sleeps on an unresolved promise has nothing to deliver and
   has not been aborted.
   */
  lemma {:induction false} NoLostWakeup(aborted: bool, steps: seq<Step>)
    ensures Inv(Run(aborted, steps), Sent(steps))
  {
    if steps != [] {
      NoLostWakeup(aborted, steps[..|steps| - 1]);
      NextKeepsInv(Run(aborted, steps[..|steps| - 1]), steps[|steps| - 1], Sent(steps[..|steps| - 1]));
    }
  }

  /** A consumer that keeps asking: resume if woken, else pull. */
  function Ask(v: View): View {
    Next(v, if v.s.place.Woken? then Resume else Pull)
  }

  function AskTimes(v: View, n: nat): View
    decreases n
  {
    if n == 0 then v else AskTimes(Ask(v), n - 1)
  }

  /** The least number of requests after which the consumer has everything and the subscriber sleeps. */
  function Requests(s: Subscriber): nat {
    |s.queue| + (if s.place.Blocked? then 0 else 1)
  }

  /**
   At every point of a run, a live subscriber gives the consumer everything that was sent, in order,
   within as many requests as there are frames in its queue and one more, and then it sleeps; after n
   requests before that it has given n frames more.
   */
  lemma QueuedFramesAreDelivered(aborted: bool, steps: seq<Step>, n: nat)
    requires !Run(aborted, steps).s.aborted && !Run(aborted, steps).s.place.Finished?
    ensures var v := Run(aborted, steps);
      && AskTimes(v, Requests(v.s)).yielded == Sent(steps) && AskTimes(v, Requests(v.s)).s.place.Blocked?
      && (n <= |v.s.queue| ==> AskTimes(v, n).yielded <= Sent(steps) && |AskTimes(v, n).yielded| == |v.yielded| + n)
  {
    NoLostWakeup(aborted, steps);
    QueueIsDelivered(Run(aborted, steps), Sent(steps));
    if n <= |Run(aborted, steps).s.queue| {
      SomeAreDelivered(Run(aborted, steps), Sent(steps), n);
    }
  }

  lemma {:induction false} QueueIsDelivered(v: View, sent: seq<Frame>)
    requires Inv(v, sent) && !v.s.aborted && !v.s.place.Finished?
    ensures AskTimes(v, Requests(v.s)).yielded == sent && AskTimes(v, Requests(v.s)).s.place.Blocked?
    decreases |v.s.queue|
  {
    if !v.s.place.Blocked? {
      NextKeepsInv(v, if v.s.place.Woken? then Resume else Pull, sent);
      if v.s.queue != [] {
        QueueIsDelivered(Ask(v), sent);
      } else {
        assert AskTimes(Ask(v), 0) == Ask(v);
      }
    } else {
      assert AskTimes(v, 0) == v;
    }
  }

  lemma {:induction false} SomeAreDelivered(v: View, sent: seq<Frame>, n: nat)
    requires Inv(v, sent) && !v.s.aborted && !v.s.place.Finished? && n <= |v.s.queue|
    ensures AskTimes(v, n).yielded <= sent && |AskTimes(v, n).yielded| == |v.yielded| + n
    decreases n
  {
    if n > 0 {
      NextKeepsInv(v, if v.s.place.Woken? then Resume else Pull, sent);
      SomeAreDelivered(Ask(v), sent, n - 1);
    }
  }

  /** After an abort the frames already queued at a yield are still delivered, and then the generator ends. */
  lemma AbortDrainsThenEnds(aborted: bool, steps: seq<Step>)
    requires Run(aborted, steps).s.aborted && Run(aborted, steps).s.place.AtYield?
    ensures var v := Run(aborted, steps);
      var last := AskTimes(v, |v.s.queue| + 2);
      last.s.place.Finished? && last.yielded == Sent(steps)
  {
    NoLostWakeup(aborted, steps);
    AbortedQueueIsDelivered(Run(aborted, steps), Sent(steps));
  }

  lemma {:induction false} AbortedQueueIsDelivered(v: View, sent: seq<Frame>)
    requires Inv(v, sent) && v.s.aborted && v.s.place.AtYield?
    ensures AskTimes(v, |v.s.queue| + 2).s.place.Finished? && AskTimes(v, |v.s.queue| + 2).yielded == sent
    decreases |v.s.queue|
  {
    NextKeepsInv(v, Pull, sent);
    if v.s.queue != [] {
      AbortedQueueIsDelivered(Ask(v), sent);
    } else {
      assert AskTimes(v, 2) == AskTimes(Ask(v), 1) == AskTimes(Ask(Ask(v)), 0);
    }
  }

  /**
   Whether an abort loses frames depends on where it finds the subscriber: exactly one that a frame has
   woken, and that has not run since, ends without having given everything that was sent.
   */
  lemma AbortDeliversExactlyWhen(aborted: bool, steps: seq<Step>)
    requires !Run(aborted, steps).s.place.Finished?
    ensures var v := Run(aborted, steps);
      var last := AskTimes(Next(v, Abort), |v.s.queue| + 2);
      && last.s.place.Finished?
      && (last.yielded == Sent(steps) <==> !(v.s.place.Woken? && v.s.queue != []))
  {
    var v, sent := Run(aborted, steps), Sent(steps);
    var u := Next(v, Abort);
    NoLostWakeup(aborted, steps);
    NextKeepsInv(v, Abort, sent);
    if v.s.place.AtYield? {
      AbortedQueueIsDelivered(u, sent);
    } else {
      assert Ask(u) == u.(s := u.s.(place := Finished));
      FinishedStays(Ask(u), |v.s.queue| + 1);
      assert |v.yielded + v.s.queue| == |v.yielded| + |v.s.queue|;
    }
  }

  lemma {:induction false} FinishedStays(v: View, n: nat)
    requires v.s.place.Finished?
    ensures AskTimes(v, n) == v
    decreases n
  {
    if n > 0 {
      FinishedStays(Ask(v), n - 1);
    }
  }

  // ---- the broadcaster's sequence numbers ----

  /** The counter, the frames emitted so far, and messages numbered but still being signed. */
  datatype Broadcaster = Broadcaster(seqNo: nat, emitted: seq<Frame>, signing: seq<Frame>)

  datatype Call =
    | Broadcast(ops: seq<string>)
    | BuildEventMessage(toSign: seq<string>)
    | SigningDone(i: nat, ok: bool)
    | BroadcastInfo(name: string, message: Option<string>)

  function Apply(b: Broadcaster, call: Call): Broadcaster {
    match call
    case Broadcast(ops) =>
      if ops == [] then b
      else b.(seqNo := b.seqNo + 1, emitted := b.emitted + [Event(b.seqNo + 1, ops)])
    case BuildEventMessage(ops) =>
      if ops == [] then b
      else b.(seqNo := b.seqNo + 1, signing := b.signing + [Event(b.seqNo + 1, ops)])
    case SigningDone(i, ok) =>
      if i >= |b.signing| then b
      else b.(signing := b.signing[..i] + b.signing[i + 1..],
              emitted := if ok then b.emitted + [b.signing[i]] else b.emitted)
    case BroadcastInfo(name, message) => b.(emitted := b.emitted + [Info(name, message)])
  }

  function ApplyAll(calls: seq<Call>): Broadcaster {
    if calls == [] then Broadcaster(0, [], []) else Apply(ApplyAll(calls[..|calls| - 1]), calls[|calls| - 1])
  }

  /** The numbers of the event frames, in order. */
  function Numbers(frames: seq<Frame>): seq<nat> {
    if frames == [] then []
    else
      var f := frames[|frames| - 1];
      Numbers(frames[..|frames| - 1]) + (if f.Event? then [f.seqNo] else [])
  }

  /** How often a number occurs in these frames. */
  function Uses(frames: seq<Frame>, n: nat): nat {
    if frames == [] then 0
    else
      var last := frames[|frames| - 1];
      Uses(frames[..|frames| - 1], n) + (if last.Event? && last.seqNo == n then 1 else 0)
  }

  lemma {:induction false} UsesConcat(a: seq<Frame>, b: seq<Frame>, n: nat)
    ensures Uses(a + b, n) == Uses(a, n) + Uses(b, n)
  {
    if b == [] {
      assert a + b == a;
    } else {
      assert (a + b)[..|a + b| - 1] == a + b[..|b| - 1];
      UsesConcat(a, b[..|b| - 1], n);
    }
  }

  lemma UsesSnoc(frames: seq<Frame>, f: Frame, n: nat)
    ensures Uses(frames + [f], n) == Uses(frames, n) + (if f.Event? && f.seqNo == n then 1 else 0)
  {
    assert (frames + [f])[..|frames|] == frames;
  }

  /** A number is given out once at most, whether its frame is emitted or still being signed. */
  ghost predicate Fresh(b: Broadcaster) {
    forall n: nat :: Uses(b.emitted, n) + Uses(b.signing, n) <= (if n <= b.seqNo then 1 else 0)
  }

  lemma {:induction false} GivenOnce(calls: seq<Call>)
    ensures Fresh(ApplyAll(calls))
  {
    if calls != [] {
      GivenOnce(calls[..|calls| - 1]);
      CallKeepsFresh(ApplyAll(calls[..|calls| - 1]), calls[|calls| - 1]);
    }
  }

  lemma {:induction false} NumbersAreUsed(frames: seq<Frame>, n: nat)
    ensures n in Numbers(frames) <==> Uses(frames, n) > 0
  {
    if frames != [] {
      NumbersAreUsed(frames[..|frames| - 1], n);
    }
  }

  lemma {:induction false} UsedOnceIsDistinct(frames: seq<Frame>)
    requires forall n: nat :: Uses(frames, n) <= 1
    ensures forall i, j :: 0 <= i < j < |Numbers(frames)| ==> Numbers(frames)[i] != Numbers(frames)[j]
  {
    if frames != [] {
      var front, last := frames[..|frames| - 1], frames[|frames| - 1];
      forall n: nat ensures Uses(front, n) <= 1 {
        assert Uses(frames, n) <= 1;
      }
      UsedOnceIsDistinct(front);
      if last.Event? {
        assert Uses(frames, last.seqNo) <= 1;
        NumbersAreUsed(front, last.seqNo);
      }
    }
  }

  /** However signings overlap, fail or finish out of order, no sequence number is ever emitted twice. */
  lemma NumbersAreUnique(calls: seq<Call>)
    ensures var numbers := Numbers(ApplyAll(calls).emitted);
      forall i, j :: 0 <= i < j < |numbers| ==> numbers[i] != numbers[j]
  {
    GivenOnce(calls);
    var b := ApplyAll(calls);
    forall n: nat ensures Uses(b.emitted, n) <= 1 {
      assert Uses(b.emitted, n) + Uses(b.signing, n) <= 1;
    }
    UsedOnceIsDistinct(b.emitted);
  }

  lemma CallKeepsFresh(b: Broadcaster, call: Call)
    requires Fresh(b)
    ensures Fresh(Apply(b, call))
  {
    var b' := Apply(b, call);
    forall n: nat ensures Uses(b'.emitted, n) + Uses(b'.signing, n) <= (if n <= b'.seqNo then 1 else 0) {
      assert Uses(b.emitted, n) + Uses(b.signing, n) <= (if n <= b.seqNo then 1 else 0);
      CallUses(b, call, n);
    }
  }

  /** A call gives out the next number, or none. */
  lemma CallUses(b: Broadcaster, call: Call, n: nat)
    ensures var b' := Apply(b, call);
      Uses(b'.emitted, n) + Uses(b'.signing, n)
        <= Uses(b.emitted, n) + Uses(b.signing, n) + (if b.seqNo < n <= b'.seqNo then 1 else 0)
  {
    match call
    case Broadcast(ops) => UsesSnoc(b.emitted, Event(b.seqNo + 1, ops), n);
    case BuildEventMessage(ops) => UsesSnoc(b.signing, Event(b.seqNo + 1, ops), n);
    case BroadcastInfo(name, message) => UsesSnoc(b.emitted, Info(name, message), n);
    case SigningDone(i, ok) =>
      if i < |b.signing| {
        var front, f, back := b.signing[..i], b.signing[i], b.signing[i + 1..];
        assert b.signing == front + [f] + back;
        UsesSnoc(b.emitted, f, n);
        UsesConcat(front, back, n);
        UsesSnoc(front, f, n);
        UsesConcat(front + [f], back, n);
      }
  }

  lemma NumbersSnoc(frames: seq<Frame>, f: Frame)
    ensures Numbers(frames + [f]) == Numbers(frames) + (if f.Event? then [f.seqNo] else [])
  {
    assert (frames + [f])[..|frames|] == frames;
  }

  ghost predicate Unsigned(calls: seq<Call>) {
    forall i :: 0 <= i < |calls| ==> calls[i].Broadcast? || calls[i].BroadcastInfo?
  }

  /** 1, 2, ..., n. */
  function UpTo(n: nat): seq<nat> {
    if n == 0 then [] else UpTo(n - 1) + [n]
  }

  ghost predicate Consecutive(b: Broadcaster) {
    Numbers(b.emitted) == UpTo(b.seqNo) && b.signing == []
  }

  lemma UnsignedCall(b: Broadcaster, call: Call)
    requires Consecutive(b) && (call.Broadcast? || call.BroadcastInfo?)
    ensures Consecutive(Apply(b, call))
  {
    match call
    case Broadcast(ops) => NumbersSnoc(b.emitted, Event(b.seqNo + 1, ops));
    case BroadcastInfo(name, message) => NumbersSnoc(b.emitted, Info(name, message));
  }

  // ---- what the frames say ----

  /** The messages that take a number, in the order of the calls. */
  function Numbered(calls: seq<Call>): seq<seq<string>> {
    if calls == [] then []
    else
      var front, last := Numbered(calls[..|calls| - 1]), calls[|calls| - 1];
      match last
      case Broadcast(ops) => if ops == [] then front else front + [ops]
      case BuildEventMessage(ops) => if ops == [] then front else front + [ops]
      case _ => front
  }

  ghost predicate SaysWhatWasCalled(calls: seq<Call>, f: Frame) {
    match f
    case Event(n, ops) => 1 <= n <= |Numbered(calls)| && Numbered(calls)[n - 1] == ops
    case Info(name, message) => BroadcastInfo(name, message) in calls
  }

  ghost predicate Faithful(calls: seq<Call>, b: Broadcaster) {
    && b.seqNo == |Numbered(calls)|
    && (forall f :: f in b.emitted ==> SaysWhatWasCalled(calls, f))
    && (forall f :: f in b.signing ==> f.Event? && SaysWhatWasCalled(calls, f))
  }

  /**
   However signings overlap, fail or finish out of order, the frame with number n holds the operations of
   the n-th message that took a number, unchanged, whether it is emitted or still being signed.
   */
  lemma {:induction false} FramesSayWhatWasCalled(calls: seq<Call>)
    ensures Faithful(calls, ApplyAll(calls))
  {
    if calls != [] {
      var front, last := calls[..|calls| - 1], calls[|calls| - 1];
      FramesSayWhatWasCalled(front);
      var b, b' := ApplyAll(front), ApplyAll(calls);
      assert calls == front + [last];
      forall f | SaysWhatWasCalled(front, f) ensures SaysWhatWasCalled(calls, f) {
      }
      forall f | f in b'.emitted ensures SaysWhatWasCalled(calls, f) {
        assert f in b.emitted || f in b.signing || f == b'.emitted[|b'.emitted| - 1];
      }
      forall f | f in b'.signing ensures f.Event? && SaysWhatWasCalled(calls, f) {
        assert f in b.signing || f == b'.signing[|b'.signing| - 1];
      }
    }
  }

  /** What unsigned calls send: one frame for each, but for a broadcast without operations. */
  function Frames(calls: seq<Call>): seq<Frame> {
    if calls == [] then []
    else
      var front, last := Frames(calls[..|calls| - 1]), calls[|calls| - 1];
      match last
      case Broadcast(ops) => if ops == [] then front else front + [Event(|Numbered(calls)|, ops)]
      case BroadcastInfo(name, message) => front + [Info(name, message)]
      case _ => front
  }

  /** Without signing, the frames emitted are those of the calls, in order, each with its own operations. */
  lemma {:induction false} UnsignedFramesAreExact(calls: seq<Call>)
    requires Unsigned(calls)
    ensures ApplyAll(calls).emitted == Frames(calls)
  {
    if calls != [] {
      UnsignedFramesAreExact(calls[..|calls| - 1]);
      FramesSayWhatWasCalled(calls);
    }
  }

  /** Without signing, the emitted numbers are 1, 2, 3, ... with no gap. */
  lemma {:induction false} UnsignedNumbersAreConsecutive(calls: seq<Call>)
    requires Unsigned(calls)
    ensures Consecutive(ApplyAll(calls))
  {
    if calls != [] {
      UnsignedNumbersAreConsecutive(calls[..|calls| - 1]);
      UnsignedCall(ApplyAll(calls[..|calls| - 1]), calls[|calls| - 1]);
    }
  }
}
