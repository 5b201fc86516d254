/**
 The retry queue inside the daemon: whatever else goes on, it runs as the queue of the records that were refused, put
 when they were refused, and of the drains.  So what is proved of the queue alone holds in the daemon.
 */
module DaemonQueue {
  import opened Wrappers
  import opened Records
  import opened DaemonModel
  import opened Frames
  import Queue

  /** What a step of the daemon is to its queue, if it is anything. */
  ghost function QueueStep(w: World, e: Event): Option<Queue.Step>
    requires e.act.FlightDone? ==> e.act.done in w.d.departs && w.d.departs[e.act.done].hand.Some?
    requires e.act.SightingRefused? ==> Flushing(w.d, e.act.refused)
  {
    match e.act
    case FlightDone(t, Refused(ref)) =>
      var hand := w.d.departs[t].hand.value;
      match BuildFlightRecord(hand.entry, ref, hand.refs) {
        case Some(record) => Some(Queue.Put(Flight(record), e.at))
        case None => None
      }
    case SightingRefused(f) =>
      match TaskRecord(w.d.flushes[f]) {
        case Some(record) => Some(Queue.Put(Sighting(record), e.at))
        case None => None
      }
    case Drain(step) => Some(step)
    case Resent(drain, _) => Some(Queue.Acked(drain))
    case _ => None
  }

  ghost function QueueSteps(cfg: Config, events: seq<Event>): seq<Queue.Step> {
    if events == [] then []
    else
      var front, e := events[..|events| - 1], events[|events| - 1];
      var w := Run(cfg, front);
      if Possible(cfg, w, e.act) && QueueStep(w, e).Some? then QueueSteps(cfg, front) + [QueueStep(w, e).value]
      else QueueSteps(cfg, front)
  }

  lemma MailStays(cfg: Config, w: World, e: Event)
    requires Possible(cfg, w, e.act) && !e.act.FlightDone? && !e.act.SightingRefused? && !IsDrain(e.act)
    ensures SameMail(w, Step(cfg, w, e))
  {
    match e.act
    case Message(_, _) => MessageTouches(cfg, w, e);
    case DropDepartures(_) => DropTouches(cfg, w, e);
    case TakeRefs(_) => TakeTouches(cfg, w, e);
    case RawCaptured(_) => CapturedTouches(cfg, w, e);
    case FlushTick => TickTouches(cfg, w, e);
    case RawUploaded(_, _) => UploadTouches(cfg, w, e);
    case UploadFailed(_) => FailureTouches(cfg, w, e);
    case SightingPublished(_, _) => PublishTouches(cfg, w, e);
  }

  ghost predicate StepsQueue(w: World, w': World, step: Option<Queue.Step>) {
    match step
    case Some(s) => w'.d.queue == Queue.Next(w.d.queue, s) && w'.h.mail == Queue.Record'(w.d.queue, w.h.mail, s)
    case None => SameMail(w, w')
  }

  lemma DoneStepsQueue(cfg: Config, w: World, e: Event)
    requires e.act.FlightDone? && Possible(cfg, w, e.act)
    ensures StepsQueue(w, Step(cfg, w, e), QueueStep(w, e))
  {
  }

  lemma RefusalStepsQueue(cfg: Config, w: World, e: Event)
    requires e.act.SightingRefused? && Possible(cfg, w, e.act)
    ensures StepsQueue(w, Step(cfg, w, e), QueueStep(w, e))
  {
  }

  lemma DrainStepsQueue(cfg: Config, w: World, e: Event)
    requires IsDrain(e.act) && Possible(cfg, w, e.act)
    ensures StepsQueue(w, Step(cfg, w, e), QueueStep(w, e))
  {
    if e.act.Resent? {
      ResendRecords(w.d, w.h, e.act.drain, e.act.resentRef);
    }
  }

  lemma EventStepsQueue(cfg: Config, w: World, e: Event)
    requires Possible(cfg, w, e.act)
    ensures StepsQueue(w, Step(cfg, w, e), QueueStep(w, e))
  {
    if e.act.FlightDone? {
      DoneStepsQueue(cfg, w, e);
    } else if e.act.SightingRefused? {
      RefusalStepsQueue(cfg, w, e);
    } else if IsDrain(e.act) {
      DrainStepsQueue(cfg, w, e);
    } else {
      MailStays(cfg, w, e);
    }
  }

  lemma {:induction false} QueueRuns(cfg: Config, events: seq<Event>)
    ensures (Run(cfg, events).d.queue, Run(cfg, events).h.mail) == Queue.Run(QueueSteps(cfg, events))
  {
    if events != [] {
      var front, e := events[..|events| - 1], events[|events| - 1];
      QueueRuns(cfg, front);
      var w := Run(cfg, front);
      if Possible(cfg, w, e.act) {
        EventStepsQueue(cfg, w, e);
        if QueueStep(w, e).Some? {
          assert QueueSteps(cfg, events)[..|QueueSteps(cfg, front)|] == QueueSteps(cfg, front);
        }
      }
    }
  }
}
