/** What each step of the daemon leaves alone, in six groups of its state and history. */
module Frames {
  import opened Records
  import opened DaemonModel

  ghost predicate SameWindows(w: World, w': World) {
    && w'.d.window == w.d.window && w'.d.windowStart == w.d.windowStart
    && w'.d.flushes == w.d.flushes && w'.d.nextFlush == w.d.nextFlush
    && w'.h.log == w.h.log && w'.h.current == w.h.current && w'.h.closed == w.h.closed
  }

  ghost predicate SameAccepted(w: World, w': World) {
    && w'.h.sightings == w.h.sightings && w'.h.retried == w.h.retried
    && w'.h.refused == w.h.refused && w'.h.repository == w.h.repository
  }

  ghost predicate SameTracking(w: World, w': World) {
    w'.d.tracker == w.d.tracker && w'.h.clock == w.h.clock && w'.h.begun == w.h.begun
  }

  ghost predicate SameDepartures(w: World, w': World) {
    && w'.d.departs == w.d.departs && w'.d.nextDepart == w.d.nextDepart && w'.h.leaving == w.h.leaving
    && w'.h.takings == w.h.takings && w'.h.inHand == w.h.inHand && w'.h.flights == w.h.flights
  }

  ghost predicate SameCaptures(w: World, w': World) {
    w'.d.rawCapturePaths == w.d.rawCapturePaths && w'.h.captures == w.h.captures
  }

  ghost predicate SameMail(w: World, w': World) {
    w'.d.queue == w.d.queue && w'.h.mail == w.h.mail
  }

  ghost predicate SameIndex(w: World, w': World) {
    w'.d.index == w.d.index
  }

  lemma MessageTouches(cfg: Config, w: World, e: Event)
    requires e.act.Message?
    ensures var w' := Step(cfg, w, e);
      && SameAccepted(w, w') && SameCaptures(w, w') && SameMail(w, w') && SameIndex(w, w')
      && w'.h.closed == w.h.closed && w'.d.flushes == w.d.flushes && w'.d.nextFlush == w.d.nextFlush
      && w'.h.takings == w.h.takings && w'.h.inHand == w.h.inHand && w'.h.flights == w.h.flights
  {
  }

  lemma DropTouches(cfg: Config, w: World, e: Event)
    requires e.act.DropDepartures?
    ensures var w' := Step(cfg, w, e);
      && SameWindows(w, w') && SameAccepted(w, w') && SameTracking(w, w') && SameCaptures(w, w') && SameMail(w, w')
      && SameIndex(w, w')
  {
  }

  lemma TakeTouches(cfg: Config, w: World, e: Event)
    requires e.act.TakeRefs?
    ensures var w' := Step(cfg, w, e);
      SameWindows(w, w') && SameAccepted(w, w') && SameTracking(w, w') && SameCaptures(w, w') && SameMail(w, w')
  {
  }

  lemma DoneRecords(d: Core, h: History, at: int, t: nat, outcome: FlightOutcome)
    requires t in d.departs && d.departs[t].hand.Some?
    ensures var h' := RecordFlight(d, h, at, t, outcome);
      h' == h.(inHand := h'.inHand, flights := h'.flights, mail := h'.mail)
  {
  }

  lemma DoneChanges(d: Core, t: nat, outcome: FlightOutcome, now: int)
    requires t in d.departs && d.departs[t].hand.Some?
    ensures var d' := OnFlightDone(d, t, outcome, now);
      d' == d.(departs := d'.departs, queue := d'.queue)
  {
  }

  lemma DoneTouches(cfg: Config, w: World, e: Event)
    requires e.act.FlightDone?
    ensures var w' := Step(cfg, w, e);
      && SameWindows(w, w') && SameAccepted(w, w') && SameTracking(w, w') && SameCaptures(w, w') && SameIndex(w, w')
      && w'.h.takings == w.h.takings && w'.h.leaving == w.h.leaving && w'.d.nextDepart == w.d.nextDepart
  {
    if Possible(cfg, w, e.act) {
      DoneRecords(w.d, w.h, e.at, e.act.done, e.act.outcome);
      DoneChanges(w.d, e.act.done, e.act.outcome, e.at);
    }
  }

  lemma CapturedTouches(cfg: Config, w: World, e: Event)
    requires e.act.RawCaptured?
    ensures var w' := Step(cfg, w, e);
      && SameWindows(w, w') && SameAccepted(w, w') && SameTracking(w, w') && SameDepartures(w, w') && SameMail(w, w')
      && SameIndex(w, w')
  {
  }

  lemma TickChanges(cfg: Config, d: Core, now: int)
    ensures var d' := OnFlushTick(cfg, d, now);
      d' == d.(window := [], windowStart := now, rawCapturePaths := [],
               flushes := d'.flushes, nextFlush := d'.nextFlush)
  {
  }

  lemma TickTouches(cfg: Config, w: World, e: Event)
    requires e.act.FlushTick?
    ensures var w' := Step(cfg, w, e);
      && SameAccepted(w, w') && SameTracking(w, w') && SameDepartures(w, w') && SameMail(w, w') && SameIndex(w, w')
      && w'.h.log == w.h.log
  {
    TickChanges(cfg, w.d, e.at);
  }

  lemma UploadTouches(cfg: Config, w: World, e: Event)
    requires e.act.RawUploaded?
    ensures var w' := Step(cfg, w, e);
      && SameAccepted(w, w') && SameTracking(w, w') && SameDepartures(w, w') && SameMail(w, w') && SameIndex(w, w')
      && w'.d.window == w.d.window && w'.d.nextFlush == w.d.nextFlush
      && w'.h.log == w.h.log && w'.h.current == w.h.current && w'.h.closed == w.h.closed
  {
  }

  lemma FailureTouches(cfg: Config, w: World, e: Event)
    requires e.act.UploadFailed?
    ensures var w' := Step(cfg, w, e);
      && SameAccepted(w, w') && SameTracking(w, w') && SameDepartures(w, w') && SameMail(w, w') && SameIndex(w, w')
      && w'.d.window == w.d.window && w'.d.nextFlush == w.d.nextFlush
      && w'.h.log == w.h.log && w'.h.current == w.h.current
  {
  }

  lemma PublishTouches(cfg: Config, w: World, e: Event)
    requires e.act.SightingPublished?
    ensures var w' := Step(cfg, w, e);
      && SameTracking(w, w') && SameDepartures(w, w') && SameMail(w, w')
      && w'.d.window == w.d.window && w'.d.nextFlush == w.d.nextFlush
      && w'.h.log == w.h.log && w'.h.current == w.h.current
      && w'.h.retried == w.h.retried && w'.h.refused == w.h.refused
  {
  }

  lemma RefusalRecords(d: Core, h: History, at: int, f: nat)
    requires Flushing(d, f)
    ensures var h' := RecordRefusal(d, h, at, f);
      h' == h.(captures := h'.captures, closed := h'.closed, refused := h'.refused, mail := h'.mail)
  {
  }

  lemma RefusalChanges(d: Core, f: nat, now: int)
    requires Flushing(d, f)
    ensures var d' := OnSightingRefused(d, f, now);
      d' == d.(flushes := d'.flushes, queue := d'.queue)
  {
  }

  lemma RefuseTouches(cfg: Config, w: World, e: Event)
    requires e.act.SightingRefused?
    ensures var w' := Step(cfg, w, e);
      && SameTracking(w, w') && SameDepartures(w, w') && SameIndex(w, w')
      && w'.d.window == w.d.window && w'.d.nextFlush == w.d.nextFlush
      && w'.h.log == w.h.log && w'.h.current == w.h.current
      && w'.h.sightings == w.h.sightings && w'.h.retried == w.h.retried && w'.h.repository == w.h.repository
  {
    if Possible(cfg, w, e.act) {
      RefusalRecords(w.d, w.h, e.at, e.act.refused);
      RefusalChanges(w.d, e.act.refused, e.at);
    }
  }

  lemma DrainTouches(cfg: Config, w: World, e: Event)
    requires e.act.Drain?
    ensures var w' := Step(cfg, w, e);
      && SameWindows(w, w') && SameAccepted(w, w') && SameTracking(w, w') && SameDepartures(w, w')
      && SameCaptures(w, w') && SameIndex(w, w')
  {
  }

  lemma ResendRecords(d: Core, h: History, drain: nat, ref: StrongRef)
    requires drain in d.queue.drains && d.queue.drains[drain] != []
    ensures var h' := RecordResent(d, h, drain, ref);
      && h' == h.(mail := h'.mail, retried := h'.retried, repository := h'.repository)
  {
  }

  lemma ResendTouches(cfg: Config, w: World, e: Event)
    requires e.act.Resent?
    ensures var w' := Step(cfg, w, e);
      && SameWindows(w, w') && SameTracking(w, w') && SameDepartures(w, w') && SameCaptures(w, w') && SameIndex(w, w')
      && w'.h.sightings == w.h.sightings && w'.h.refused == w.h.refused
  {
    if Possible(cfg, w, e.act) {
      ResendRecords(w.d, w.h, e.act.drain, e.act.resentRef);
    }
  }

  /** The steps that belong to a departure, once its message has been read. */
  predicate IsDeparture(act: Action) {
    act.DropDepartures? || act.TakeRefs? || act.FlightDone?
  }

  predicate IsDrain(act: Action) {
    act.Drain? || act.Resent?
  }

  /** The attempts of a flush at its chunks. */
  predicate IsAttempt(act: Action) {
    act.UploadFailed? || act.SightingPublished? || act.SightingRefused?
  }

  /** Windows change with messages, ticks and flushes only. */
  lemma WindowsStay(cfg: Config, w: World, e: Event)
    requires IsDeparture(e.act) || IsDrain(e.act) || e.act.RawCaptured?
    ensures SameWindows(w, Step(cfg, w, e))
  {
    match e.act
    case DropDepartures(_) => DropTouches(cfg, w, e);
    case TakeRefs(_) => TakeTouches(cfg, w, e);
    case FlightDone(_, _) => DoneTouches(cfg, w, e);
    case RawCaptured(_) => CapturedTouches(cfg, w, e);
    case Drain(_) => DrainTouches(cfg, w, e);
    case Resent(_, _) => ResendTouches(cfg, w, e);
  }
}
