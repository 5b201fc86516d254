/**
 From what adapters said to what the daemon holds: its tracker is the replay of the messages it was given, so
 the positions it emits are the fixes of sessions, and every entry that departs sums its session up.
 */
module Observed {
  import opened Wrappers
  import opened Tracker
  import opened Records
  import opened DaemonModel
  import opened Frames
  import opened Provenance
  import H = TrackerHistory

  /** The aircraft messages of a run, in order. */
  function Messages(events: seq<Event>): seq<H.Message> {
    if events == [] then []
    else
      var front, last := Messages(events[..|events| - 1]), events[|events| - 1].act;
      match last
      case Message(aircraft, epoch) => front + [H.Message(aircraft, epoch)]
      case _ => front
  }

  lemma OneMessageMore(events: seq<Event>, e: Event)
    ensures Messages(events + [e])
         == if e.act.Message? then Messages(events) + [H.Message(e.act.aircraft, e.act.epoch)] else Messages(events)
  {
    assert (events + [e])[..|events|] == events;
  }

  // ---- the tracker ----

  lemma TrackerStays(cfg: Config, w: World, e: Event)
    requires !e.act.Message?
    ensures Step(cfg, w, e).d.tracker == w.d.tracker
  {
    match e.act
    case DropDepartures(_) => DropTouches(cfg, w, e);
    case TakeRefs(_) => TakeTouches(cfg, w, e);
    case FlightDone(_, _) => DoneTouches(cfg, w, e);
    case RawCaptured(_) => CapturedTouches(cfg, w, e);
    case FlushTick => TickTouches(cfg, w, e);
    case RawUploaded(_, _) => UploadTouches(cfg, w, e);
    case UploadFailed(_) => FailureTouches(cfg, w, e);
    case SightingPublished(_, _) => PublishTouches(cfg, w, e);
    case SightingRefused(_) => RefuseTouches(cfg, w, e);
    case Drain(_) => DrainTouches(cfg, w, e);
    case Resent(_, _) => ResendTouches(cfg, w, e);
  }

  lemma TrackerUpdates(cfg: Config, w: World, e: Event)
    requires e.act.Message?
    ensures Step(cfg, w, e).d.tracker == Update(w.d.tracker, e.act.aircraft, e.act.epoch, cfg.range).state
    ensures Step(cfg, w, e).d.departs == w.d.departs[w.d.nextDepart := DepartTask(
              Update(w.d.tracker, e.act.aircraft, e.act.epoch, cfg.range).departed, None)]
  {
  }

  /** However its callbacks interleave, the daemon's tracker is that of the messages alone. */
  lemma {:induction false} TrackerIsReplay(cfg: Config, events: seq<Event>)
    ensures Run(cfg, events).d.tracker == H.Replay(Messages(events), cfg.range)
  {
    if events != [] {
      var n := |events| - 1;
      var front, e := events[..n], events[n];
      TrackerIsReplay(cfg, front);
      assert events == front + [e];
      OneMessageMore(front, e);
      if e.act.Message? {
        TrackerUpdates(cfg, Run(cfg, front), e);
        assert Messages(events)[..|Messages(front)|] == Messages(front);
      } else {
        TrackerStays(cfg, Run(cfg, front), e);
      }
    }
  }

  // ---- entries that have departed ----

  /** The entry is reported as departed at message n. */
  ghost predicate DepartsAt(messages: seq<H.Message>, n: nat, e: Entry, range: Range) {
    && n < |messages|
    && e in Update(H.Replay(messages[..n], range), messages[n].aircraft, messages[n].epoch, range).departed
  }

  ghost predicate HasDeparted(messages: seq<H.Message>, e: Entry, range: Range) {
    exists n: nat :: DepartsAt(messages, n, e, range)
  }

  lemma StillDeparted(messages: seq<H.Message>, more: seq<H.Message>, e: Entry, range: Range)
    requires HasDeparted(messages, e, range) && messages <= more
    ensures HasDeparted(more, e, range)
  {
    var n: nat :| DepartsAt(messages, n, e, range);
    assert more[..n] == messages[..n] && more[n] == messages[n];
    assert DepartsAt(more, n, e, range);
  }

  /** Whatever waits to depart, or was taken, has departed from the tracker. */
  ghost predicate AllDeparted(cfg: Config, w: World, messages: seq<H.Message>) {
    && (forall t, e :: t in w.d.departs && e in w.d.departs[t].waiting ==> HasDeparted(messages, e, cfg.range))
    && (forall k :: 0 <= k < |w.h.takings| ==> HasDeparted(messages, w.h.takings[k].entry, cfg.range))
  }

  /** A step by which nothing new waits, and what is taken was waiting. */
  ghost predicate NothingNewWaits(w: World, w': World) {
    && (forall t, e :: t in w'.d.departs && e in w'.d.departs[t].waiting ==>
          t in w.d.departs && e in w.d.departs[t].waiting)
    && w.h.takings <= w'.h.takings
    && (forall k :: |w.h.takings| <= k < |w'.h.takings| ==>
          exists t :: t in w.d.departs && w'.h.takings[k].entry in w.d.departs[t].waiting)
  }

  lemma DropIsNothingNew(cfg: Config, w: World, e: Event)
    requires e.act.DropDepartures?
    ensures NothingNewWaits(w, Step(cfg, w, e))
  {
  }

  lemma TakeIsNothingNew(cfg: Config, w: World, e: Event)
    requires e.act.TakeRefs? && Possible(cfg, w, e.act)
    ensures NothingNewWaits(w, Step(cfg, w, e))
  {
    TakeResult(cfg, w, e);
    var w', t := Step(cfg, w, e), e.act.task;
    assert w'.h.takings[|w.h.takings|].entry in w.d.departs[t].waiting;
    forall u, x | u in w'.d.departs && x in w'.d.departs[u].waiting
      ensures u in w.d.departs && x in w.d.departs[u].waiting
    {
    }
  }

  lemma DoneIsNothingNew(cfg: Config, w: World, e: Event)
    requires e.act.FlightDone? && Possible(cfg, w, e.act)
    ensures NothingNewWaits(w, Step(cfg, w, e))
  {
    DoneTouches(cfg, w, e);
    assert Step(cfg, w, e).d.departs == w.d.departs[e.act.done := w.d.departs[e.act.done].(hand := None)];
  }

  lemma OtherIsNothingNew(cfg: Config, w: World, e: Event)
    requires !e.act.Message? && Possible(cfg, w, e.act)
    ensures NothingNewWaits(w, Step(cfg, w, e))
  {
    match e.act
    case DropDepartures(_) => DropIsNothingNew(cfg, w, e);
    case TakeRefs(_) => TakeIsNothingNew(cfg, w, e);
    case FlightDone(_, _) => DoneIsNothingNew(cfg, w, e);
    case RawCaptured(_) => CapturedTouches(cfg, w, e);
    case FlushTick => TickTouches(cfg, w, e);
    case RawUploaded(_, _) => UploadTouches(cfg, w, e);
    case UploadFailed(_) => FailureTouches(cfg, w, e);
    case SightingPublished(_, _) => PublishTouches(cfg, w, e);
    case SightingRefused(_) => RefuseTouches(cfg, w, e);
    case Drain(_) => DrainTouches(cfg, w, e);
    case Resent(_, _) => ResendTouches(cfg, w, e);
  }

  lemma NothingNewIsDeparted(cfg: Config, w: World, w': World, messages: seq<H.Message>)
    requires AllDeparted(cfg, w, messages) && NothingNewWaits(w, w')
    ensures AllDeparted(cfg, w', messages)
  {
    forall k | 0 <= k < |w'.h.takings| ensures HasDeparted(messages, w'.h.takings[k].entry, cfg.range) {
      if k < |w.h.takings| {
        assert w'.h.takings[k] == w.h.takings[k];
      }
    }
  }

  lemma MessageIsDeparted(cfg: Config, w: World, e: Event, messages: seq<H.Message>)
    requires AllDeparted(cfg, w, messages) && e.act.Message? && w.d.tracker == H.Replay(messages, cfg.range)
    ensures AllDeparted(cfg, Step(cfg, w, e), messages + [H.Message(e.act.aircraft, e.act.epoch)])
  {
    var w', more := Step(cfg, w, e), messages + [H.Message(e.act.aircraft, e.act.epoch)];
    MessageTouches(cfg, w, e);
    TrackerUpdates(cfg, w, e);
    assert more[..|messages|] == messages;
    forall t, x | t in w'.d.departs && x in w'.d.departs[t].waiting ensures HasDeparted(more, x, cfg.range) {
      if t == w.d.nextDepart {
        assert DepartsAt(more, |messages|, x, cfg.range);
      } else {
        StillDeparted(messages, more, x, cfg.range);
      }
    }
    forall k | 0 <= k < |w'.h.takings| ensures HasDeparted(more, w'.h.takings[k].entry, cfg.range) {
      StillDeparted(messages, more, w.h.takings[k].entry, cfg.range);
    }
  }

  lemma {:induction false} RunDeparts(cfg: Config, events: seq<Event>)
    ensures AllDeparted(cfg, Run(cfg, events), Messages(events))
  {
    if events != [] {
      var n := |events| - 1;
      var front, e := events[..n], events[n];
      var w := Run(cfg, front);
      RunDeparts(cfg, front);
      assert events == front + [e];
      OneMessageMore(front, e);
      if Possible(cfg, w, e.act) {
        if e.act.Message? {
          TrackerIsReplay(cfg, front);
          MessageIsDeparted(cfg, w, e, Messages(front));
        } else {
          OtherIsNothingNew(cfg, w, e);
          NothingNewIsDeparted(cfg, w, Step(cfg, w, e), Messages(front));
        }
      }
    }
  }

  /** An entry that departs at message n sums up its session as it stood before. */
  lemma DepartedSumsUp(messages: seq<H.Message>, n: nat, e: Entry, range: Range)
    requires DepartsAt(messages, n, e, range)
    ensures H.Summarises(e, e.icaoHex, H.Session(messages[..n], e.icaoHex), range)
  {
    var st := H.Replay(messages[..n], range);
    H.ReplayWf(messages[..n], range);
    H.UpdateDeparted(st, messages[n].aircraft, messages[n].epoch, range);
    H.TrackerRefinesHistory(messages[..n], range, e.icaoHex);
  }

  // ---- every departure is reached in its turn ----

  /** The entries that depart at message n, in the order of the tracker. */
  function DepartedIn(messages: seq<H.Message>, n: nat, range: Range): seq<Entry>
    requires n < |messages|
  {
    Update(H.Replay(messages[..n], range), messages[n].aircraft, messages[n].epoch, range).departed
  }

  /** The entries that callback t has reached so far, in order. */
  ghost function Reached(cfg: Config, events: seq<Event>, t: nat): seq<Entry> {
    if events == [] then []
    else
      var front, e := events[..|events| - 1], events[|events| - 1];
      var w := Run(cfg, front);
      if e.act == TakeRefs(t) && Possible(cfg, w, e.act) then Reached(cfg, front, t) + [w.d.departs[t].waiting[0]]
      else Reached(cfg, front, t)
  }

  /** The departures of callback t were given up, because a frame could not be signed. */
  ghost predicate GivenUp(cfg: Config, events: seq<Event>, t: nat) {
    events != [] &&
      var front, e := events[..|events| - 1], events[|events| - 1];
      GivenUp(cfg, front, t) || (e.act == DropDepartures(t) && Possible(cfg, Run(cfg, front), e.act))
  }

  function Waiting(d: Core, t: nat): seq<Entry> {
    if t in d.departs then d.departs[t].waiting else []
  }

  /** What departed at message t has been reached by its callback, or waits there, unless it was given up. */
  ghost predicate InTurn(cfg: Config, events: seq<Event>, t: nat) {
    Turn(DepartedAt(Messages(events), t, cfg.range), Reached(cfg, events, t), Waiting(Run(cfg, events).d, t),
         GivenUp(cfg, events, t))
  }

  function DepartedAt(messages: seq<H.Message>, n: nat, range: Range): Option<seq<Entry>> {
    if n < |messages| then Some(DepartedIn(messages, n, range)) else None
  }

  predicate Turn(departed: Option<seq<Entry>>, reached: seq<Entry>, waiting: seq<Entry>, givenUp: bool) {
    match departed
    case None => reached == [] && waiting == [] && !givenUp
    case Some(all) => if givenUp then waiting == [] && reached <= all else all == reached + waiting
  }

  lemma TurnGoesOn(departed: Option<seq<Entry>>, reached: seq<Entry>, waiting: seq<Entry>, givenUp: bool)
    requires Turn(departed, reached, waiting, givenUp)
    ensures waiting != [] ==> Turn(departed, reached + [waiting[0]], waiting[1..], givenUp)
    ensures departed.Some? ==> Turn(departed, reached, [], true)
  {
    if waiting != [] {
      assert reached + waiting == (reached + [waiting[0]]) + waiting[1..];
    }
  }

  lemma OneMoreReached(cfg: Config, front: seq<Event>, e: Event, t: nat)
    ensures var w := Run(cfg, front);
      && Run(cfg, front + [e]) == Step(cfg, w, e)
      && Reached(cfg, front + [e], t)
           == (if e.act == TakeRefs(t) && Possible(cfg, w, e.act)
               then Reached(cfg, front, t) + [w.d.departs[t].waiting[0]] else Reached(cfg, front, t))
      && GivenUp(cfg, front + [e], t)
           == (GivenUp(cfg, front, t) || (e.act == DropDepartures(t) && Possible(cfg, w, e.act)))
  {
    assert (front + [e])[..|front|] == front;
  }

  /** Only its own steps change what waits at a callback. */
  lemma WaitingAfter(cfg: Config, w: World, e: Event, t: nat)
    requires Possible(cfg, w, e.act)
    ensures Step(cfg, w, e).d.nextDepart == w.d.nextDepart + (if e.act.Message? then 1 else 0)
    ensures Waiting(Step(cfg, w, e).d, t) ==
      if e.act.Message? && t == w.d.nextDepart then
        Update(w.d.tracker, e.act.aircraft, e.act.epoch, cfg.range).departed
      else if e.act == DropDepartures(t) then []
      else if e.act == TakeRefs(t) then Waiting(w.d, t)[1..]
      else Waiting(w.d, t)
  {
    match e.act
    case Message(_, _) =>
    case DropDepartures(_) =>
    case TakeRefs(_) => TakeResult(cfg, w, e);
    case FlightDone(u, _) =>
      DoneTouches(cfg, w, e);
      assert Step(cfg, w, e).d.departs == w.d.departs[u := w.d.departs[u].(hand := None)];
    case RawCaptured(_) => CapturedTouches(cfg, w, e);
    case FlushTick => TickTouches(cfg, w, e);
    case RawUploaded(_, _) => UploadTouches(cfg, w, e);
    case UploadFailed(_) => FailureTouches(cfg, w, e);
    case SightingPublished(_, _) => PublishTouches(cfg, w, e);
    case SightingRefused(_) => RefuseTouches(cfg, w, e);
    case Drain(_) => DrainTouches(cfg, w, e);
    case Resent(_, _) => ResendTouches(cfg, w, e);
  }

  ghost predicate AllInTurn(cfg: Config, events: seq<Event>) {
    Run(cfg, events).d.nextDepart == |Messages(events)| && forall t: nat :: InTurn(cfg, events, t)
  }

  lemma MoreMessages(messages: seq<H.Message>, m: H.Message, n: nat, range: Range)
    ensures n < |messages| ==> DepartedAt(messages + [m], n, range) == DepartedAt(messages, n, range)
    ensures DepartedAt(messages + [m], |messages|, range)
         == Some(Update(H.Replay(messages, range), m.aircraft, m.epoch, range).departed)
    ensures n > |messages| ==> DepartedAt(messages + [m], n, range) == DepartedAt(messages, n, range) == None
  {
    var more := messages + [m];
    assert more[..|messages|] == messages;
    if n < |messages| {
      assert more[..n] == messages[..n] && more[n] == messages[n];
    }
  }

  lemma EventKeepsTurn(cfg: Config, front: seq<Event>, e: Event, t: nat)
    requires AllInTurn(cfg, front) && Possible(cfg, Run(cfg, front), e.act)
    ensures InTurn(cfg, front + [e], t)
  {
    var w, messages := Run(cfg, front), Messages(front);
    assert InTurn(cfg, front, t);
    OneMoreReached(cfg, front, e, t);
    OneMessageMore(front, e);
    WaitingAfter(cfg, w, e, t);
    if e.act.Message? {
      TrackerIsReplay(cfg, front);
      MoreMessages(messages, H.Message(e.act.aircraft, e.act.epoch), t, cfg.range);
    } else {
      assert Reachable(cfg, w);
      ReachableProv(cfg, w);
      TurnGoesOn(DepartedAt(messages, t, cfg.range), Reached(cfg, front, t), Waiting(w.d, t), GivenUp(cfg, front, t));
    }
  }

  lemma {:induction false} RunReaches(cfg: Config, events: seq<Event>)
    ensures AllInTurn(cfg, events)
  {
    if events != [] {
      var n := |events| - 1;
      var front, e := events[..n], events[n];
      RunReaches(cfg, front);
      assert events == front + [e];
      OneMessageMore(front, e);
      OneMoreReached(cfg, front, e, 0);
      if Possible(cfg, Run(cfg, front), e.act) {
        WaitingAfter(cfg, Run(cfg, front), e, 0);
        forall t: nat ensures InTurn(cfg, events, t) {
          EventKeepsTurn(cfg, front, e, t);
        }
      } else {
        forall t: nat ensures InTurn(cfg, events, t) {
          assert InTurn(cfg, front, t);
          OneMoreReached(cfg, front, e, t);
        }
      }
    }
  }

  // ---- what a record says of the session ----

  /** The record sums up the observations of a session. */
  ghost predicate TellsSession(r: FlightRecord, s: seq<H.Seen>, range: Range) {
    && s != []
    && r.firstSeen == DateMs(s[0].epoch) && r.lastSeen == DateMs(s[|s| - 1].epoch)
    && r.positionCount == |H.Fixes(s)|
    && r.messageCount == MoreThan(s[|s| - 1].ac.messages, s[0].ac.messages)
    && H.LastGiven(s, H.CallsignGiven, r.callsign) && H.LastGiven(s, H.SquawkGiven, r.squawk)
    && H.FirstGiven(s, H.SnapshotGiven, H.DataOf(r.initial)) && H.LastGiven(s, H.SnapshotGiven, H.DataOf(r.final))
    && H.IsWidest(s, range, r.maxRangeNm)
  }

  function MoreThan(a: real, b: real): real {
    if a >= b then a - b else 0.0
  }

  lemma EntryTellsSession(r: FlightRecord, e: Entry, s: seq<H.Seen>, range: Range)
    requires TellsEntry(r, e) && H.Summarises(e, e.icaoHex, s, range)
    ensures TellsSession(r, s, range)
  {
  }
}
