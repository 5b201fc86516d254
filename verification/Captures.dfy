/**
 What becomes of every raw capture the daemon is told of.  Each has one fate: on the list, with a flush that
 has not begun its chunks, in the blob of its flush, or given up.  The blob of a flush is the restamped files
 of the captures in it, in order; the record of the flush's first chunk carries it, in the repository or in
 the retry queue, unless that chunk was lost; and every section of it bears the stamp of that record.
 */
module Captures {
  import opened Wrappers
  import opened Beast
  import opened Atrx
  import opened AtrxSplit
  import opened RawCapture
  import opened Batch
  import opened Blobs
  import opened DaemonModel
  import opened Conservation
  import opened Frames
  import Queue

  /** The captures of one fate, in the order they were reported. */
  function PathsOf(captures: seq<Captured>, fate: CaptureFate): seq<string> {
    if captures == [] then []
    else
      var last := captures[|captures| - 1];
      PathsOf(captures[..|captures| - 1], fate) + (if last.fate == fate then [last.path] else [])
  }

  /** The restamped files of the captures in the blob of a flush, in order. */
  function Sections(captures: seq<Captured>, f: nat): seq<Bytes> {
    if captures == [] then []
    else
      var last := captures[|captures| - 1];
      Sections(captures[..|captures| - 1], f)
        + (if last.fate.InBlob? && last.fate.blob == f then [last.fate.section] else [])
  }

  function BlobOf(captures: seq<Captured>, f: nat): Option<Bytes> {
    if Sections(captures, f) == [] then None else Some(ConcatAtrxBlobs(Sections(captures, f)))
  }

  // ---- where captures are ----

  /** A flush holds its blob, and before that the captures for it. */
  ghost predicate FlushHolds(d: Core, captures: seq<Captured>, f: nat) {
    f in d.flushes ==>
      var task := d.flushes[f];
      && f < d.nextFlush && task.rawCapture == BlobOf(captures, f)
      && PathsOf(captures, WithFlush(f)) == if task.next == 0 && task.rawCapture.None? then task.paths else []
  }

  ghost predicate NotHeld(d: Core, captures: seq<Captured>, f: nat) {
    && (f !in d.flushes ==> PathsOf(captures, WithFlush(f)) == [])
    && (f >= d.nextFlush ==> Sections(captures, f) == [])
  }

  ghost predicate PlacesInv(d: Core, captures: seq<Captured>) {
    && PathsOf(captures, OnList) == d.rawCapturePaths
    && forall f: nat :: FlushHolds(d, captures, f) && NotHeld(d, captures, f)
  }

  lemma {:induction false} MeetPaths(
    captures: seq<Captured>, before: CaptureFate, after: CaptureFate, fate: CaptureFate)
    requires before != after && !before.InBlob? && !after.InBlob?
    ensures fate == before ==> PathsOf(Meet(captures, before, after), fate) == []
    ensures fate != before && fate != after ==> PathsOf(Meet(captures, before, after), fate) == PathsOf(captures, fate)
    ensures fate == after && PathsOf(captures, after) == [] ==>
              PathsOf(Meet(captures, before, after), fate) == PathsOf(captures, before)
  {
    if captures != [] {
      var n, met := |captures| - 1, Meet(captures, before, after);
      MeetPaths(captures[..n], before, after, fate);
      assert met[..n] == Meet(captures[..n], before, after);
      assert met[n] == if captures[n].fate == before then captures[n].(fate := after) else captures[n];
    }
  }

  lemma {:induction false} MeetSections(captures: seq<Captured>, before: CaptureFate, after: CaptureFate, f: nat)
    requires !before.InBlob? && !after.InBlob?
    ensures Sections(Meet(captures, before, after), f) == Sections(captures, f)
  {
    if captures != [] {
      var n := |captures| - 1;
      MeetSections(captures[..n], before, after, f);
      assert Meet(captures, before, after)[..n] == Meet(captures[..n], before, after);
    }
  }

  /** One capture and the rest before it. */
  lemma MeetFilesSnoc(front: seq<Captured>, last: Captured, f: nat, outcomes: seq<Option<Bytes>>)
    requires outcomes != []
    ensures var n := |outcomes| - 1;
      MeetFiles(front + [last], f, outcomes) ==
        if last.fate == WithFlush(f)
        then MeetFiles(front, f, outcomes[..n]) + [last.(fate := FileFate(f, outcomes[n]))]
        else MeetFiles(front, f, outcomes) + [last]
  {
    assert (front + [last])[..|front|] == front;
  }

  lemma PathsSnoc(front: seq<Captured>, last: Captured, fate: CaptureFate)
    ensures PathsOf(front + [last], fate)
         == if last.fate == fate then PathsOf(front, fate) + [last.path] else PathsOf(front, fate)
  {
    assert (front + [last])[..|front|] == front;
  }

  lemma SectionsSnoc(front: seq<Captured>, last: Captured, f: nat)
    ensures Sections(front + [last], f)
         == if last.fate.InBlob? && last.fate.blob == f then Sections(front, f) + [last.fate.section]
            else Sections(front, f)
  {
    assert (front + [last])[..|front|] == front;
  }

  lemma LastMeetsPaths(front: seq<Captured>, last: Captured, f: nat, outcomes: seq<Option<Bytes>>, fate: CaptureFate)
    requires outcomes != [] && (fate.OnList? || fate.WithFlush?)
    requires var before := if last.fate == WithFlush(f) then outcomes[..|outcomes| - 1] else outcomes;
      PathsOf(MeetFiles(front, f, before), fate) == if fate == WithFlush(f) then [] else PathsOf(front, fate)
    ensures PathsOf(MeetFiles(front + [last], f, outcomes), fate)
         == if fate == WithFlush(f) then [] else PathsOf(front + [last], fate)
  {
    var n := |outcomes| - 1;
    MeetFilesSnoc(front, last, f, outcomes);
    PathsSnoc(front, last, fate);
    if last.fate == WithFlush(f) {
      PathsSnoc(MeetFiles(front, f, outcomes[..n]), last.(fate := FileFate(f, outcomes[n])), fate);
    } else {
      PathsSnoc(MeetFiles(front, f, outcomes), last, fate);
    }
  }

  lemma NoFiles(captures: seq<Captured>, f: nat)
    ensures MeetFiles(captures, f, []) == captures
  {
  }

  /** The captures of a flush meet the fates of their files: they are all settled, and no others are touched. */
  lemma {:induction false} MeetFilesPaths(
    captures: seq<Captured>, f: nat, outcomes: seq<Option<Bytes>>, fate: CaptureFate)
    requires |outcomes| == |PathsOf(captures, WithFlush(f))| && (fate.OnList? || fate.WithFlush?)
    ensures PathsOf(MeetFiles(captures, f, outcomes), fate)
         == if fate == WithFlush(f) then [] else PathsOf(captures, fate)
  {
    if outcomes == [] {
      NoFiles(captures, f);
    } else {
      var front, last := captures[..|captures| - 1], captures[|captures| - 1];
      assert captures == front + [last];
      PathsSnoc(front, last, WithFlush(f));
      MeetFilesPaths(front, f, if last.fate == WithFlush(f) then outcomes[..|outcomes| - 1] else outcomes, fate);
      LastMeetsPaths(front, last, f, outcomes, fate);
    }
  }

  /** What could be restamped, in order. */
  function Somes(outcomes: seq<Option<Bytes>>): seq<Bytes> {
    if outcomes == [] then []
    else
      var last := outcomes[|outcomes| - 1];
      Somes(outcomes[..|outcomes| - 1]) + (if last.Some? then [last.value] else [])
  }

  lemma {:induction false} RestampedAreSomes(codec: Codec, stamp: Stamp, files: seq<Option<Bytes>>)
    ensures RestampAll(codec, stamp, files) == Somes(Outcomes(codec, stamp, files))
  {
    if files != [] {
      var n := |files| - 1;
      RestampedAreSomes(codec, stamp, files[..n]);
      assert Outcomes(codec, stamp, files)[..n] == Outcomes(codec, stamp, files[..n]);
    }
  }

  lemma LastMeetsSections(front: seq<Captured>, last: Captured, f: nat, outcomes: seq<Option<Bytes>>, g: nat)
    requires outcomes != [] && (g == f ==> Sections(front + [last], f) == [])
    requires var before := if last.fate == WithFlush(f) then outcomes[..|outcomes| - 1] else outcomes;
      Sections(MeetFiles(front, f, before), g) == if g == f then Somes(before) else Sections(front, g)
    ensures Sections(MeetFiles(front + [last], f, outcomes), g)
         == if g == f then Somes(outcomes) else Sections(front + [last], g)
  {
    var n := |outcomes| - 1;
    MeetFilesSnoc(front, last, f, outcomes);
    SectionsSnoc(front, last, g);
    if last.fate == WithFlush(f) {
      SectionsSnoc(MeetFiles(front, f, outcomes[..n]), last.(fate := FileFate(f, outcomes[n])), g);
    } else {
      SectionsSnoc(MeetFiles(front, f, outcomes), last, g);
    }
  }

  /** Those whose files can be restamped make up the blob, in order. */
  lemma {:induction false} MeetFilesSections(captures: seq<Captured>, f: nat, outcomes: seq<Option<Bytes>>, g: nat)
    requires |outcomes| == |PathsOf(captures, WithFlush(f))| && (g == f ==> Sections(captures, f) == [])
    ensures Sections(MeetFiles(captures, f, outcomes), g)
         == if g == f then Somes(outcomes) else Sections(captures, g)
  {
    if outcomes == [] {
      NoFiles(captures, f);
    } else {
      var front, last := captures[..|captures| - 1], captures[|captures| - 1];
      assert captures == front + [last];
      PathsSnoc(front, last, WithFlush(f));
      SectionsSnoc(front, last, g);
      MeetFilesSections(front, f, if last.fate == WithFlush(f) then outcomes[..|outcomes| - 1] else outcomes, g);
      LastMeetsSections(front, last, f, outcomes, g);
    }
  }

  // ---- each step keeps every capture in its place ----

  lemma CaughtKeepsPlaces(cfg: Config, w: World, e: Event)
    requires PlacesInv(w.d, w.h.captures) && e.act.RawCaptured?
    ensures PlacesInv(Step(cfg, w, e).d, Step(cfg, w, e).h.captures)
  {
    var w', c := Step(cfg, w, e), Captured(e.act.path, OnList);
    CapturedTouches(cfg, w, e);
    CaughtCapture(cfg, w, e);
    PathsSnoc(w.h.captures, c, OnList);
    forall f: nat ensures FlushHolds(w'.d, w'.h.captures, f) && NotHeld(w'.d, w'.h.captures, f) {
      assert FlushHolds(w.d, w.h.captures, f) && NotHeld(w.d, w.h.captures, f);
      PathsSnoc(w.h.captures, c, WithFlush(f));
      SectionsSnoc(w.h.captures, c, f);
    }
  }

  /** A tick takes the list, and starts a flush with it or without. */
  ghost predicate Swaps(cfg: Config, w: World, w': World) {
    && w'.d.rawCapturePaths == [] && w'.h.captures == Meet(w.h.captures, OnList, TickFate(cfg, w.d))
    && w.d.nextFlush <= w'.d.nextFlush
    && (if TickFlushes(cfg, w.d)
        then && w.d.nextFlush in w'.d.flushes && w'.d.nextFlush == w.d.nextFlush + 1
             && w'.d.flushes == w.d.flushes[w.d.nextFlush := w'.d.flushes[w.d.nextFlush]]
             && w'.d.flushes[w.d.nextFlush].next == 0 && w'.d.flushes[w.d.nextFlush].rawCapture.None?
             && w'.d.flushes[w.d.nextFlush].paths == (if cfg.rawCaptureEnabled then w.d.rawCapturePaths else [])
        else w'.d.flushes == w.d.flushes)
  }

  predicate TickFlushes(cfg: Config, d: Core) {
    d.window != [] && ChunkTelemetry(d.window, cfg.size, LEXICON_LIMITS).Ok?
  }

  lemma TickSwaps(cfg: Config, w: World, e: Event)
    requires e.act.FlushTick?
    ensures Swaps(cfg, w, Step(cfg, w, e))
  {
    TickResult(cfg, w, e);
  }

  lemma SwapKeepsPlaces(cfg: Config, w: World, w': World)
    requires PlacesInv(w.d, w.h.captures) && Swaps(cfg, w, w')
    ensures PlacesInv(w'.d, w'.h.captures)
  {
    var fate := TickFate(cfg, w.d);
    MeetPaths(w.h.captures, OnList, fate, OnList);
    forall f: nat ensures FlushHolds(w'.d, w'.h.captures, f) && NotHeld(w'.d, w'.h.captures, f) {
      assert FlushHolds(w.d, w.h.captures, f) && NotHeld(w.d, w.h.captures, f);
      MeetPaths(w.h.captures, OnList, fate, WithFlush(f));
      MeetSections(w.h.captures, OnList, fate, f);
    }
  }

  /** The files of a flush are processed: what can be restamped is its blob. */
  ghost predicate Uploads(cfg: Config, w: World, w': World, f: nat, files: seq<Option<Bytes>>) {
    && f in w.d.flushes && w.d.flushes[f].next == 0 && w.d.flushes[f].rawCapture.None?
    && |files| == |w.d.flushes[f].paths| && CaptureUpload(cfg, w.d.flushes[f], files).Some?
    && w'.d.rawCapturePaths == w.d.rawCapturePaths && w'.d.nextFlush == w.d.nextFlush
    && w'.d.flushes == w.d.flushes[f := w.d.flushes[f].(rawCapture := CaptureUpload(cfg, w.d.flushes[f], files))]
    && w'.h.captures == MeetFiles(w.h.captures, f, Outcomes(cfg.codec, StampOf(cfg, w.d.flushes[f]), files))
  }

  lemma UploadedAre(cfg: Config, w: World, e: Event)
    requires e.act.RawUploaded? && Possible(cfg, w, e.act)
    ensures Uploads(cfg, w, Step(cfg, w, e), e.act.raw, e.act.files)
  {
  }

  lemma UploadKeepsPlaces(cfg: Config, w: World, w': World, f: nat, files: seq<Option<Bytes>>)
    requires PlacesInv(w.d, w.h.captures) && Uploads(cfg, w, w', f, files)
    ensures PlacesInv(w'.d, w'.h.captures)
  {
    var outcomes := Outcomes(cfg.codec, StampOf(cfg, w.d.flushes[f]), files);
    RestampedAreSomes(cfg.codec, StampOf(cfg, w.d.flushes[f]), files);
    OutcomesKeepPlaces(w.d, w.h.captures, w'.d, w'.h.captures, f, outcomes);
  }

  lemma OutcomesKeepPlaces(
    d: Core, captures: seq<Captured>, d': Core, captures': seq<Captured>, f: nat, outcomes: seq<Option<Bytes>>)
    requires PlacesInv(d, captures) && f in d.flushes && d.flushes[f].next == 0 && d.flushes[f].rawCapture.None?
    requires |outcomes| == |d.flushes[f].paths| && Somes(outcomes) != []
    requires captures' == MeetFiles(captures, f, outcomes)
    requires d'.rawCapturePaths == d.rawCapturePaths && d'.nextFlush == d.nextFlush
    requires d'.flushes == d.flushes[f := d.flushes[f].(rawCapture := Some(ConcatAtrxBlobs(Somes(outcomes))))]
    ensures PlacesInv(d', captures')
  {
    assert FlushHolds(d, captures, f);
    MeetFilesPaths(captures, f, outcomes, OnList);
    forall g: nat ensures FlushHolds(d', captures', g) && NotHeld(d', captures', g) {
      assert FlushHolds(d, captures, g) && NotHeld(d, captures, g);
      MeetFilesPaths(captures, f, outcomes, WithFlush(g));
      MeetFilesSections(captures, f, outcomes, g);
    }
  }

  /** A flush attempts its next chunk, or gives all of them up; captures it still held are given up. */
  ghost predicate MovesOn(w: World, w': World, f: nat) {
    && Flushing(w.d, f) && (w'.d.flushes == Advance(w.d.flushes, f) || w'.d.flushes == w.d.flushes - {f})
    && w'.d.nextFlush == w.d.nextFlush && w'.d.rawCapturePaths == w.d.rawCapturePaths
    && w'.h.captures == GiveUpCaptures(w.d, w.h.captures, f)
  }

  function AttemptOf(act: Action): nat
    requires IsAttempt(act)
  {
    match act
    case UploadFailed(f) => f
    case SightingPublished(f, _) => f
    case SightingRefused(f) => f
  }

  lemma AttemptMovesOn(cfg: Config, w: World, e: Event)
    requires IsAttempt(e.act) && Possible(cfg, w, e.act)
    ensures MovesOn(w, Step(cfg, w, e), AttemptOf(e.act))
  {
  }

  lemma MoveKeepsPlaces(w: World, w': World, f: nat)
    requires PlacesInv(w.d, w.h.captures) && MovesOn(w, w', f)
    ensures PlacesInv(w'.d, w'.h.captures)
  {
    assert FlushHolds(w.d, w.h.captures, f);
    MeetPaths(w.h.captures, WithFlush(f), Dropped, OnList);
    forall g: nat ensures FlushHolds(w'.d, w'.h.captures, g) && NotHeld(w'.d, w'.h.captures, g) {
      MoveKeepsPlace(w, w', f, g);
    }
  }

  lemma MoveKeepsPlace(w: World, w': World, f: nat, g: nat)
    requires PlacesInv(w.d, w.h.captures) && MovesOn(w, w', f)
    ensures FlushHolds(w'.d, w'.h.captures, g) && NotHeld(w'.d, w'.h.captures, g)
  {
    assert FlushHolds(w.d, w.h.captures, g) && NotHeld(w.d, w.h.captures, g);
    MeetPaths(w.h.captures, WithFlush(f), Dropped, WithFlush(g));
    MeetSections(w.h.captures, WithFlush(f), Dropped, g);
    assert g != f ==> (g in w'.d.flushes <==> g in w.d.flushes);
    assert g != f && g in w.d.flushes ==> w'.d.flushes[g] == w.d.flushes[g];
  }

  lemma OtherKeepsPlaces(cfg: Config, w: World, e: Event)
    requires PlacesInv(w.d, w.h.captures) && (e.act.Message? || IsDeparture(e.act) || IsDrain(e.act))
    ensures PlacesInv(Step(cfg, w, e).d, Step(cfg, w, e).h.captures)
  {
    SameCaptureParts(cfg, w, e);
    var w' := Step(cfg, w, e);
    forall f: nat ensures FlushHolds(w'.d, w'.h.captures, f) && NotHeld(w'.d, w'.h.captures, f) {
      assert FlushHolds(w.d, w.h.captures, f) && NotHeld(w.d, w.h.captures, f);
    }
  }

  lemma SameCaptureParts(cfg: Config, w: World, e: Event)
    requires e.act.Message? || IsDeparture(e.act) || IsDrain(e.act)
    ensures var w' := Step(cfg, w, e);
      SameCaptures(w, w') && w'.d.flushes == w.d.flushes && w'.d.nextFlush == w.d.nextFlush
  {
    match e.act
    case Message(_, _) => MessageTouches(cfg, w, e);
    case DropDepartures(_) => DropTouches(cfg, w, e);
    case TakeRefs(_) => TakeTouches(cfg, w, e);
    case FlightDone(_, _) => DoneTouches(cfg, w, e);
    case Drain(_) => DrainTouches(cfg, w, e);
    case Resent(_, _) => ResendTouches(cfg, w, e);
  }

  lemma StepKeepsPlaces(cfg: Config, w: World, e: Event)
    requires PlacesInv(w.d, w.h.captures)
    ensures PlacesInv(Step(cfg, w, e).d, Step(cfg, w, e).h.captures)
  {
    if Possible(cfg, w, e.act) {
      match e.act
      case RawCaptured(_) => CaughtKeepsPlaces(cfg, w, e);
      case FlushTick => TickKeepsPlaces(cfg, w, e);
      case RawUploaded(_, _) => UploadStepKeepsPlaces(cfg, w, e);
      case UploadFailed(_) => AttemptKeepsPlaces(cfg, w, e);
      case SightingPublished(_, _) => AttemptKeepsPlaces(cfg, w, e);
      case SightingRefused(_) => AttemptKeepsPlaces(cfg, w, e);
      case _ => OtherKeepsPlaces(cfg, w, e);
    }
  }

  lemma TickKeepsPlaces(cfg: Config, w: World, e: Event)
    requires PlacesInv(w.d, w.h.captures) && e.act.FlushTick?
    ensures PlacesInv(Step(cfg, w, e).d, Step(cfg, w, e).h.captures)
  {
    TickSwaps(cfg, w, e);
    SwapKeepsPlaces(cfg, w, Step(cfg, w, e));
  }

  lemma UploadStepKeepsPlaces(cfg: Config, w: World, e: Event)
    requires PlacesInv(w.d, w.h.captures) && e.act.RawUploaded? && Possible(cfg, w, e.act)
    ensures PlacesInv(Step(cfg, w, e).d, Step(cfg, w, e).h.captures)
  {
    UploadedAre(cfg, w, e);
    UploadKeepsPlaces(cfg, w, Step(cfg, w, e), e.act.raw, e.act.files);
  }

  lemma AttemptKeepsPlaces(cfg: Config, w: World, e: Event)
    requires PlacesInv(w.d, w.h.captures) && IsAttempt(e.act) && Possible(cfg, w, e.act)
    ensures PlacesInv(Step(cfg, w, e).d, Step(cfg, w, e).h.captures)
  {
    AttemptMovesOn(cfg, w, e);
    MoveKeepsPlaces(w, Step(cfg, w, e), AttemptOf(e.act));
  }

  lemma {:induction false} RunPlaces(cfg: Config, events: seq<Event>)
    ensures PlacesInv(Run(cfg, events).d, Run(cfg, events).h.captures)
  {
    if events != [] {
      RunPlaces(cfg, events[..|events| - 1]);
      StepKeepsPlaces(cfg, Run(cfg, events[..|events| - 1]), events[|events| - 1]);
    }
  }

  lemma ReachablePlaces(cfg: Config, w: World)
    requires Reachable(cfg, w)
    ensures PlacesInv(w.d, w.h.captures)
  {
    var events :| Run(cfg, events) == w;
    RunPlaces(cfg, events);
  }

  // ---- what the records carry ----

  /** The record made of chunk k of window f, where its fate has put it. */
  function RecordOfChunk(h: History, f: nat, k: nat): Option<SightingRecord>
    requires f < |h.closed| && k < |h.closed[f].fates|
  {
    match h.closed[f].fates[k]
    case InSighting(ref) => if ref in h.repository then Some(h.repository[ref]) else None
    case InQueue(id) =>
      if id in h.mail.put && h.mail.put[id].Sighting? then Some(h.mail.put[id].sighting) else None
    case Lost => None
  }

  /** The record of a chunk that is not lost is there, and the first one carries the blob of its flush. */
  ghost predicate CarriesRight(h: History, f: nat, k: nat)
    requires f < |h.closed| && k < |h.closed[f].fates|
  {
    if h.closed[f].fates[k].Lost? then RecordOfChunk(h, f, k).None?
    else
      && RecordOfChunk(h, f, k).Some?
      && RecordOfChunk(h, f, k).value.rawCapture == (if k == 0 then BlobOf(h.captures, f) else None)
  }

  ghost predicate RecordsInv(h: History) {
    forall f, k :: 0 <= f < |h.closed| && 0 <= k < |h.closed[f].fates| ==> CarriesRight(h, f, k)
  }

  /** The refs and ids of fates are known to the repository and to the queue. */
  ghost predicate FateKnown(h: History, fate: Fate) {
    match fate
    case InSighting(ref) => !IsFreshRef(h, ref)
    case InQueue(id) => id in h.mail.put
    case Lost => true
  }

  lemma FatesAreKnown(h: History)
    requires FatesInv(h) && Bounded(h.closed)
    ensures forall f, k :: 0 <= f < |h.closed| && 0 <= k < |h.closed[f].fates| ==> FateKnown(h, h.closed[f].fates[k])
  {
    forall f, k | 0 <= f < |h.closed| && 0 <= k < |h.closed[f].fates| ensures FateKnown(h, h.closed[f].fates[k]) {
      assert FateHolds(h, h.closed[f], k);
    }
  }

  /** Records stay, and so do the blobs of windows that have one. */
  ghost predicate RecordsStay(h: History, h': History) {
    && (forall ref :: ref in h.repository && !IsFreshRef(h, ref) ==>
          ref in h'.repository && h'.repository[ref] == h.repository[ref])
    && (forall id :: id in h.mail.put ==> id in h'.mail.put && h'.mail.put[id] == h.mail.put[id])
    && (forall f: nat :: f < |h.closed| && h.closed[f].fates != [] ==> BlobOf(h'.captures, f) == BlobOf(h.captures, f))
  }

  lemma OldRecordsCarry(h: History, h': History, f: nat, k: nat)
    requires RecordsInv(h) && FatesInv(h) && Bounded(h.closed) && RecordsStay(h, h')
    requires f < |h.closed| && f < |h'.closed| && k < |h.closed[f].fates| && h.closed[f].fates <= h'.closed[f].fates
    ensures CarriesRight(h', f, k)
  {
    assert CarriesRight(h, f, k) && h'.closed[f].fates[k] == h.closed[f].fates[k];
    FatesAreKnown(h);
    assert FateKnown(h, h.closed[f].fates[k]);
  }

  lemma RecordsExtend(h: History, h': History)
    requires RecordsInv(h) && FatesInv(h) && Bounded(h.closed) && RecordsStay(h, h') && Extends(h.closed, h'.closed)
    requires forall f: nat, k: nat :: NewFate(h.closed, h'.closed, f, k) ==> CarriesRight(h', f, k)
    ensures RecordsInv(h')
  {
    forall f, k | 0 <= f < |h'.closed| && 0 <= k < |h'.closed[f].fates| ensures CarriesRight(h', f, k) {
      if f < |h.closed| && k < |h.closed[f].fates| {
        OldRecordsCarry(h, h', f, k);
      } else {
        assert NewFate(h.closed, h'.closed, f, k);
      }
    }
  }

  /** Blobs change only while their flush is in front of its first chunk. */
  lemma BlobsStay(cfg: Config, w: World, e: Event)
    requires Conservation.Inv(w) && PlacesInv(w.d, w.h.captures)
    ensures forall f: nat :: f < |w.h.closed| && w.h.closed[f].fates != [] ==>
              BlobOf(Step(cfg, w, e).h.captures, f) == BlobOf(w.h.captures, f)
  {
    if Possible(cfg, w, e.act) {
      var w' := Step(cfg, w, e);
      forall f: nat | f < |w.h.closed| && w.h.closed[f].fates != []
        ensures Sections(w'.h.captures, f) == Sections(w.h.captures, f)
      {
        SectionsStay(cfg, w, e, f);
      }
    }
  }

  lemma SectionsStay(cfg: Config, w: World, e: Event, f: nat)
    requires Conservation.Inv(w) && PlacesInv(w.d, w.h.captures) && Possible(cfg, w, e.act)
    requires f < |w.h.closed| && w.h.closed[f].fates != []
    ensures Sections(Step(cfg, w, e).h.captures, f) == Sections(w.h.captures, f)
  {
    match e.act
    case RawCaptured(path) =>
      CaughtCapture(cfg, w, e);
      SectionsSnoc(w.h.captures, Captured(path, OnList), f);
    case FlushTick =>
      TickSwaps(cfg, w, e);
      MeetSections(w.h.captures, OnList, TickFate(cfg, w.d), f);
    case RawUploaded(g, files) => UploadSections(cfg, w, e, f);
    case UploadFailed(_) => AttemptSections(cfg, w, e, f);
    case SightingPublished(_, _) => AttemptSections(cfg, w, e, f);
    case SightingRefused(_) => AttemptSections(cfg, w, e, f);
    case _ => SameCaptureParts(cfg, w, e);
  }

  lemma CaughtCapture(cfg: Config, w: World, e: Event)
    requires e.act.RawCaptured?
    ensures Step(cfg, w, e).h.captures == w.h.captures + [Captured(e.act.path, OnList)]
    ensures Step(cfg, w, e).d.rawCapturePaths == w.d.rawCapturePaths + [e.act.path]
  {
  }

  lemma UploadSections(cfg: Config, w: World, e: Event, f: nat)
    requires Conservation.Inv(w) && PlacesInv(w.d, w.h.captures) && Possible(cfg, w, e.act) && e.act.RawUploaded?
    requires f < |w.h.closed| && w.h.closed[f].fates != []
    ensures Sections(Step(cfg, w, e).h.captures, f) == Sections(w.h.captures, f)
  {
    UploadedAre(cfg, w, e);
    assert FlushHolds(w.d, w.h.captures, e.act.raw);
    assert Tracks(w.d, e.act.raw, w.h.closed[e.act.raw]);
    var stamp := StampOf(cfg, w.d.flushes[e.act.raw]);
    MeetFilesSections(w.h.captures, e.act.raw, Outcomes(cfg.codec, stamp, e.act.files), f);
  }

  lemma AttemptSections(cfg: Config, w: World, e: Event, f: nat)
    requires Possible(cfg, w, e.act) && IsAttempt(e.act)
    ensures Sections(Step(cfg, w, e).h.captures, f) == Sections(w.h.captures, f)
  {
    AttemptMovesOn(cfg, w, e);
    MeetSections(w.h.captures, WithFlush(AttemptOf(e.act)), Dropped, f);
  }

  // ---- each step keeps the records right ----

  lemma RepositoryStays(cfg: Config, w: World, e: Event)
    requires Queue.Inv(w.d.queue, w.h.mail)
    ensures forall ref :: ref in w.h.repository && !IsFreshRef(w.h, ref) ==>
              ref in Step(cfg, w, e).h.repository && Step(cfg, w, e).h.repository[ref] == w.h.repository[ref]
  {
    if Possible(cfg, w, e.act) {
      match e.act
      case SightingPublished(_, _) => PublishedRecord(cfg, w, e);
      case Resent(_, _) => ResentRecord(cfg, w, e);
      case _ => RepositorySame(cfg, w, e);
    }
  }

  lemma RepositorySame(cfg: Config, w: World, e: Event)
    requires !e.act.SightingPublished? && !e.act.Resent?
    ensures Step(cfg, w, e).h.repository == w.h.repository
  {
    match e.act
    case Message(_, _) => MessageTouches(cfg, w, e);
    case DropDepartures(_) => DropTouches(cfg, w, e);
    case TakeRefs(_) => TakeTouches(cfg, w, e);
    case FlightDone(_, _) => DoneTouches(cfg, w, e);
    case RawCaptured(_) => CapturedTouches(cfg, w, e);
    case FlushTick => TickTouches(cfg, w, e);
    case RawUploaded(_, _) => UploadTouches(cfg, w, e);
    case UploadFailed(_) => FailureTouches(cfg, w, e);
    case SightingRefused(_) => RefuseTouches(cfg, w, e);
    case Drain(_) => DrainTouches(cfg, w, e);
  }

  lemma PublishedRecord(cfg: Config, w: World, e: Event)
    requires e.act.SightingPublished? && Possible(cfg, w, e.act)
    ensures var h', record := Step(cfg, w, e).h, TaskRecord(w.d.flushes[e.act.flush]);
      h'.repository == if record.Some? then w.h.repository[e.act.ref := record.value] else w.h.repository
  {
  }

  lemma ResentRecord(cfg: Config, w: World, e: Event)
    requires e.act.Resent? && Possible(cfg, w, e.act)
    ensures var h', entry := Step(cfg, w, e).h, w.d.queue.drains[e.act.drain][0];
      h'.repository == if entry.record.Sighting? then w.h.repository[e.act.resentRef := entry.record.sighting]
                       else w.h.repository
  {
  }

  lemma RecordsDoStay(cfg: Config, w: World, e: Event)
    requires Conservation.Inv(w) && PlacesInv(w.d, w.h.captures)
    ensures RecordsStay(w.h, Step(cfg, w, e).h)
  {
    RepositoryStays(cfg, w, e);
    StepKeepsBooks(cfg, w, e);
    BlobsStay(cfg, w, e);
  }

  /** The first chunk's record has the blob of its flush, any later one has none. */
  lemma TaskCarries(w: World, f: nat)
    requires Conservation.Inv(w) && PlacesInv(w.d, w.h.captures) && Flushing(w.d, f)
    ensures var record := TaskRecord(w.d.flushes[f]);
      && f < |w.h.closed| && |w.h.closed[f].fates| == w.d.flushes[f].next < |w.h.closed[f].chunks|
      && record.Some?
      && record.value.rawCapture == if w.d.flushes[f].next == 0 then BlobOf(w.h.captures, f) else None
  {
    RefusedChunkHasRecord(w, f);
    assert Tracks(w.d, f, w.h.closed[f]) && FlushHolds(w.d, w.h.captures, f);
  }

  lemma PublishKeepsRecords(cfg: Config, w: World, e: Event)
    requires Conservation.Inv(w) && PlacesInv(w.d, w.h.captures) && RecordsInv(w.h)
    requires e.act.SightingPublished? && Possible(cfg, w, e.act)
    ensures RecordsInv(Step(cfg, w, e).h)
  {
    var f, h' := e.act.flush, Step(cfg, w, e).h;
    TaskCarries(w, f);
    PublishedRecord(cfg, w, e);
    StepCloses(cfg, w, e);
    AttemptSections(cfg, w, e, f);
    RecordsDoStay(cfg, w, e);
    WindowsBounded(w.d, w.h);
    StepExtends(cfg, w, e);
    assert CarriesRight(h', f, |w.h.closed[f].fates|);
    RecordsExtend(w.h, h');
  }

  lemma RefusalKeepsRecords(cfg: Config, w: World, e: Event)
    requires Conservation.Inv(w) && PlacesInv(w.d, w.h.captures) && RecordsInv(w.h)
    requires e.act.SightingRefused? && Possible(cfg, w, e.act)
    ensures RecordsInv(Step(cfg, w, e).h)
  {
    RefusedCarries(cfg, w, e);
    RecordsDoStay(cfg, w, e);
    WindowsBounded(w.d, w.h);
    StepExtends(cfg, w, e);
    RecordsExtend(w.h, Step(cfg, w, e).h);
  }

  lemma RefusedCarries(cfg: Config, w: World, e: Event)
    requires Conservation.Inv(w) && PlacesInv(w.d, w.h.captures)
    requires e.act.SightingRefused? && Possible(cfg, w, e.act)
    ensures var h' := Step(cfg, w, e).h;
      forall f: nat, k: nat :: NewFate(w.h.closed, h'.closed, f, k) ==> CarriesRight(h', f, k)
  {
    var f := e.act.refused;
    TaskCarries(w, f);
    RefusedSighting(cfg, w, e);
    StepCloses(cfg, w, e);
    RefusedFate(cfg, w, f);
    AttemptSections(cfg, w, e, f);
    OneMoreCarries(w.h, Step(cfg, w, e).h, f, InQueue(w.d.queue.table.nextId));
  }

  lemma OneMoreCarries(h: History, h': History, f: nat, fate: Fate)
    requires f < |h.closed| && h'.closed == AddFate(h.closed, f, fate)
    requires Sections(h'.captures, f) == Sections(h.captures, f)
    requires RecordOfChunk(h', f, |h.closed[f].fates|).Some? && !fate.Lost?
    requires RecordOfChunk(h', f, |h.closed[f].fates|).value.rawCapture
               == if |h.closed[f].fates| == 0 then BlobOf(h.captures, f) else None
    ensures forall g: nat, k: nat :: NewFate(h.closed, h'.closed, g, k) ==> CarriesRight(h', g, k)
  {
    assert CarriesRight(h', f, |h.closed[f].fates|);
  }

  lemma LossKeepsRecords(cfg: Config, w: World, e: Event)
    requires Conservation.Inv(w) && PlacesInv(w.d, w.h.captures) && RecordsInv(w.h)
    requires (e.act.UploadFailed? || e.act.FlushTick?) && Possible(cfg, w, e.act)
    ensures RecordsInv(Step(cfg, w, e).h)
  {
    StepCloses(cfg, w, e);
    LostAreLost(cfg, w, e.act);
    RecordsDoStay(cfg, w, e);
    WindowsBounded(w.d, w.h);
    StepExtends(cfg, w, e);
    RecordsExtend(w.h, Step(cfg, w, e).h);
  }

  /** All chunks that are settled now are lost. */
  ghost predicate NewAreLost(closed: seq<Closed>, closed': seq<Closed>) {
    forall f: nat, k: nat :: NewFate(closed, closed', f, k) ==> closed'[f].fates[k].Lost?
  }

  lemma RestIsLost(closed: seq<Closed>, f: nat)
    ensures NewAreLost(closed, LoseRest(closed, f))
  {
    if f < |closed| {
      AllLostLength(|closed[f].chunks| - |closed[f].fates|);
    }
  }

  lemma WindowIsLost(closed: seq<Closed>, c: Closed)
    requires c.fates == [] || c.fates == [Lost]
    ensures NewAreLost(closed, closed + [c])
  {
  }

  lemma LostAreLost(cfg: Config, w: World, act: Action)
    requires (act.UploadFailed? || act.FlushTick?) && Possible(cfg, w, act)
    ensures NewAreLost(w.h.closed, ClosedAfter(cfg, w, act))
  {
    if act.UploadFailed? {
      RestIsLost(w.h.closed, act.upload);
    } else {
      WindowIsLost(w.h.closed, CloseWindow(cfg, w.d, w.h));
    }
  }

  lemma OtherKeepsRecords(cfg: Config, w: World, e: Event)
    requires Conservation.Inv(w) && PlacesInv(w.d, w.h.captures) && RecordsInv(w.h)
    requires !e.act.FlushTick? && !IsAttempt(e.act)
    ensures RecordsInv(Step(cfg, w, e).h)
  {
    SettledNothing(cfg, w, e);
    RecordsDoStay(cfg, w, e);
    WindowsBounded(w.d, w.h);
    RecordsExtend(w.h, Step(cfg, w, e).h);
  }

  lemma StepKeepsRecords(cfg: Config, w: World, e: Event)
    requires Conservation.Inv(w) && PlacesInv(w.d, w.h.captures) && RecordsInv(w.h)
    ensures RecordsInv(Step(cfg, w, e).h)
  {
    if Possible(cfg, w, e.act) {
      match e.act
      case SightingPublished(_, _) => PublishKeepsRecords(cfg, w, e);
      case SightingRefused(_) => RefusalKeepsRecords(cfg, w, e);
      case UploadFailed(_) => LossKeepsRecords(cfg, w, e);
      case FlushTick => LossKeepsRecords(cfg, w, e);
      case _ => OtherKeepsRecords(cfg, w, e);
    }
  }

  lemma {:induction false} RunRecords(cfg: Config, events: seq<Event>)
    ensures RecordsInv(Run(cfg, events).h)
  {
    if events != [] {
      var n := |events| - 1;
      RunRecords(cfg, events[..n]);
      RunInv(cfg, events[..n]);
      RunPlaces(cfg, events[..n]);
      StepKeepsRecords(cfg, Run(cfg, events[..n]), events[n]);
    }
  }

  // ---- captures and records ----

  /** The section can be split out of the blob that the record carries. */
  predicate Carries(record: SightingRecord, section: Bytes) {
    && record.rawCapture.Some?
    && var split := Split(record.rawCapture.value, 0);
       split.Ok? && section in split.value
  }

  /** Some record of window f, published or queued, carries the section. */
  ghost predicate IsRecorded(h: History, f: nat, section: Bytes)
    requires f < |h.closed|
  {
    exists k :: 0 <= k < |h.closed[f].fates| && RecordOfChunk(h, f, k).Some?
                && Carries(RecordOfChunk(h, f, k).value, section)
  }

  ghost predicate AllFramed(captures: seq<Captured>) {
    forall c :: 0 <= c < |captures| && captures[c].fate.InBlob? ==> WellFramed(captures[c].fate.section)
  }

  lemma {:induction false} SectionsMeaning(captures: seq<Captured>, f: nat, section: Bytes)
    ensures section in Sections(captures, f) <==>
              exists c :: 0 <= c < |captures| && captures[c].fate == InBlob(f, section)
  {
    if captures != [] {
      var front, last := captures[..|captures| - 1], captures[|captures| - 1];
      SectionsMeaning(front, f, section);
      assert captures == front + [last];
      if c :| 0 <= c < |captures| && captures[c].fate == InBlob(f, section) {
        assert c < |front| ==> front[c] == captures[c];
      }
      if c :| 0 <= c < |front| && front[c].fate == InBlob(f, section) {
        assert captures[c] == front[c];
      }
      assert captures[|front|] == last;
    }
  }

  lemma {:induction false} MeetFilesFramed(captures: seq<Captured>, f: nat, outcomes: seq<Option<Bytes>>)
    requires AllFramed(captures)
    requires forall i :: 0 <= i < |outcomes| && outcomes[i].Some? ==> WellFramed(outcomes[i].value)
    ensures AllFramed(MeetFiles(captures, f, outcomes))
  {
    if captures != [] && outcomes != [] {
      var front, n := captures[..|captures| - 1], |outcomes| - 1;
      MeetFilesFramed(front, f, outcomes[..n]);
      MeetFilesFramed(front, f, outcomes);
    }
  }

  lemma OutcomesFramed(codec: Codec, stamp: Stamp, files: seq<Option<Bytes>>)
    requires codec.Inverts()
    ensures var outcomes := Outcomes(codec, stamp, files);
      forall i :: 0 <= i < |outcomes| && outcomes[i].Some? ==> WellFramed(outcomes[i].value)
  {
    forall i | 0 <= i < |files| && Restamp(codec, stamp, files[i]).Some?
      ensures WellFramed(Restamp(codec, stamp, files[i]).value)
    {
      RestampedParses(codec, stamp, files[i].value);
    }
  }

  lemma StepKeepsFramed(cfg: Config, w: World, e: Event)
    requires cfg.codec.Inverts() && AllFramed(w.h.captures)
    ensures AllFramed(Step(cfg, w, e).h.captures)
  {
    if Possible(cfg, w, e.act) {
      match e.act
      case RawCaptured(_) => CaughtCapture(cfg, w, e);
      case FlushTick => TickSwaps(cfg, w, e);
      case RawUploaded(_, _) => UploadKeepsFramed(cfg, w, e);
      case UploadFailed(_) => AttemptMovesOn(cfg, w, e);
      case SightingPublished(_, _) => AttemptMovesOn(cfg, w, e);
      case SightingRefused(_) => AttemptMovesOn(cfg, w, e);
      case _ => SameCaptureParts(cfg, w, e);
    }
  }

  lemma UploadKeepsFramed(cfg: Config, w: World, e: Event)
    requires cfg.codec.Inverts() && AllFramed(w.h.captures) && e.act.RawUploaded? && Possible(cfg, w, e.act)
    ensures AllFramed(Step(cfg, w, e).h.captures)
  {
    UploadedAre(cfg, w, e);
    OutcomesFramed(cfg.codec, StampOf(cfg, w.d.flushes[e.act.raw]), e.act.files);
    MeetFilesFramed(w.h.captures, e.act.raw, Outcomes(cfg.codec, StampOf(cfg, w.d.flushes[e.act.raw]), e.act.files));
  }

  lemma {:induction false} RunFramed(cfg: Config, events: seq<Event>)
    requires cfg.codec.Inverts()
    ensures AllFramed(Run(cfg, events).h.captures)
  {
    if events != [] {
      RunFramed(cfg, events[..|events| - 1]);
      StepKeepsFramed(cfg, Run(cfg, events[..|events| - 1]), events[|events| - 1]);
    }
  }

  /** The blob of a flush splits into the sections of the captures in it. */
  lemma BlobSplits(captures: seq<Captured>, f: nat)
    requires AllFramed(captures)
    ensures BlobOf(captures, f).Some? ==> Split(BlobOf(captures, f).value, 0) == Ok(Sections(captures, f))
  {
    var sections := Sections(captures, f);
    forall i | 0 <= i < |sections| ensures WellFramed(sections[i]) {
      SectionsMeaning(captures, f, sections[i]);
    }
    SplitConcat(sections, 0);
  }

  lemma FirstCarries(h: History, f: nat, section: Bytes)
    requires AllFramed(h.captures) && f < |h.closed| && h.closed[f].fates != [] && CarriesRight(h, f, 0)
    requires !h.closed[f].fates[0].Lost? && section in Sections(h.captures, f)
    ensures IsRecorded(h, f, section)
  {
    BlobSplits(h.captures, f);
  }

  lemma OnlyFirstCarries(h: History, f: nat, section: Bytes)
    requires f < |h.closed| && IsRecorded(h, f, section)
    requires forall k :: 0 <= k < |h.closed[f].fates| ==> CarriesRight(h, f, k)
    ensures h.closed[f].fates != [] && !h.closed[f].fates[0].Lost?
  {
    var k :| 0 <= k < |h.closed[f].fates| && RecordOfChunk(h, f, k).Some?
             && Carries(RecordOfChunk(h, f, k).value, section);
    assert CarriesRight(h, f, k);
  }

  // ---- stamps ----

  /** The section parses, and bears the stamp. */
  predicate IsStamped(codec: Codec, section: Bytes, stamp: Stamp) {
    && Parse(codec, section).Ok?
    && SaysOfWindow(Parse(codec, section).value.metadata, stamp.receiverDid, stamp.windowStart, stamp.windowEnd)
  }

  /** The blob splits into at least one section, and every one bears the stamp. */
  ghost predicate AllStamped(codec: Codec, blob: Bytes, stamp: Stamp) {
    var split := Split(blob, 0);
    split.Ok? && split.value != [] && forall i :: 0 <= i < |split.value| ==> IsStamped(codec, split.value[i], stamp)
  }

  ghost predicate RecordStamped(cfg: Config, r: SightingRecord) {
    r.rawCapture.Some? ==>
      AllStamped(cfg.codec, r.rawCapture.value, Stamp(cfg.receiverDid, cfg.iso(r.windowStart), cfg.iso(r.windowEnd)))
  }

  ghost predicate TaskStamped(cfg: Config, task: FlushTask) {
    task.rawCapture.Some? ==> AllStamped(cfg.codec, task.rawCapture.value, StampOf(cfg, task))
  }

  lemma {:induction false} RestampedAreStamped(codec: Codec, stamp: Stamp, files: seq<Option<Bytes>>)
    requires codec.Inverts()
    ensures forall section :: section in RestampAll(codec, stamp, files) ==> IsStamped(codec, section, stamp)
  {
    if files != [] {
      var n := |files| - 1;
      RestampedAreStamped(codec, stamp, files[..n]);
      if Restamp(codec, stamp, files[n]).Some? {
        RestampedParses(codec, stamp, files[n].value);
      }
    }
  }

  lemma UploadIsStamped(cfg: Config, task: FlushTask, files: seq<Option<Bytes>>)
    requires cfg.codec.Inverts() && CaptureUpload(cfg, task, files).Some?
    ensures TaskStamped(cfg, task.(rawCapture := CaptureUpload(cfg, task, files)))
  {
    UploadAlwaysReadable(cfg.codec, StampOf(cfg, task), files);
    RestampedAreStamped(cfg.codec, StampOf(cfg, task), files);
  }

  lemma TaskRecordStamped(cfg: Config, task: FlushTask)
    requires task.next < |task.chunks| && TaskStamped(cfg, task)
    ensures TaskRecord(task).Some? ==> RecordStamped(cfg, TaskRecord(task).value)
  {
  }

  ghost predicate TasksStamped(cfg: Config, d: Core) {
    forall f :: f in d.flushes ==> TaskStamped(cfg, d.flushes[f])
  }

  lemma StepKeepsTasks(cfg: Config, w: World, e: Event)
    requires cfg.codec.Inverts() && TasksStamped(cfg, w.d)
    ensures TasksStamped(cfg, Step(cfg, w, e).d)
  {
    if Possible(cfg, w, e.act) {
      match e.act
      case RawCaptured(_) => CapturedTouches(cfg, w, e);
      case FlushTick => TickTasks(cfg, w, e);
      case RawUploaded(_, _) => UploadTasks(cfg, w, e);
      case UploadFailed(_) => AttemptTasks(cfg, w, e);
      case SightingPublished(_, _) => AttemptTasks(cfg, w, e);
      case SightingRefused(_) => AttemptTasks(cfg, w, e);
      case _ => SameCaptureParts(cfg, w, e);
    }
  }

  lemma TickTasks(cfg: Config, w: World, e: Event)
    requires TasksStamped(cfg, w.d) && e.act.FlushTick?
    ensures TasksStamped(cfg, Step(cfg, w, e).d)
  {
    TickSwaps(cfg, w, e);
  }

  lemma UploadTasks(cfg: Config, w: World, e: Event)
    requires cfg.codec.Inverts() && TasksStamped(cfg, w.d) && e.act.RawUploaded? && Possible(cfg, w, e.act)
    ensures TasksStamped(cfg, Step(cfg, w, e).d)
  {
    UploadedAre(cfg, w, e);
    UploadIsStamped(cfg, w.d.flushes[e.act.raw], e.act.files);
  }

  lemma AttemptTasks(cfg: Config, w: World, e: Event)
    requires TasksStamped(cfg, w.d) && IsAttempt(e.act) && Possible(cfg, w, e.act)
    ensures TasksStamped(cfg, Step(cfg, w, e).d)
  {
    AttemptMovesOn(cfg, w, e);
    assert TaskStamped(cfg, w.d.flushes[AttemptOf(e.act)]);
  }

  ghost predicate RepositoryStamped(cfg: Config, h: History) {
    forall ref :: ref in h.repository ==> RecordStamped(cfg, h.repository[ref])
  }

  ghost predicate MailStamped(cfg: Config, h: History) {
    forall id :: id in h.mail.put && h.mail.put[id].Sighting? ==> RecordStamped(cfg, h.mail.put[id].sighting)
  }

  lemma StepKeepsRepository(cfg: Config, w: World, e: Event)
    requires Queue.Inv(w.d.queue, w.h.mail)
    requires TasksStamped(cfg, w.d) && RepositoryStamped(cfg, w.h) && MailStamped(cfg, w.h)
    ensures RepositoryStamped(cfg, Step(cfg, w, e).h)
  {
    if Possible(cfg, w, e.act) {
      if e.act.SightingPublished? {
        PublishedRecord(cfg, w, e);
        TaskRecordStamped(cfg, w.d.flushes[e.act.flush]);
      } else if e.act.Resent? {
        ResentRecord(cfg, w, e);
        assert w.d.queue.drains[e.act.drain][0].id in w.h.mail.put;
      } else {
        RepositorySame(cfg, w, e);
      }
    }
  }

  lemma StepKeepsMail(cfg: Config, w: World, e: Event)
    requires Conservation.Inv(w) && TasksStamped(cfg, w.d) && MailStamped(cfg, w.h)
    ensures MailStamped(cfg, Step(cfg, w, e).h)
  {
    if Possible(cfg, w, e.act) {
      match e.act
      case FlightDone(_, _) => FlightMail(cfg, w, e);
      case SightingRefused(f) =>
        RefusedSighting(cfg, w, e);
        TaskRecordStamped(cfg, w.d.flushes[f]);
      case Drain(_) => DrainMail(cfg, w, e);
      case Resent(_, _) => ResentSighting(cfg, w, e);
      case _ => OtherKeepsBooks(cfg, w, e);
    }
  }

  lemma DrainMail(cfg: Config, w: World, e: Event)
    requires e.act.Drain? && Possible(cfg, w, e.act)
    ensures Step(cfg, w, e).h.mail.put == w.h.mail.put
  {
  }

  lemma FlightMail(cfg: Config, w: World, e: Event)
    requires e.act.FlightDone? && Possible(cfg, w, e.act)
    ensures forall id :: id in Step(cfg, w, e).h.mail.put && Step(cfg, w, e).h.mail.put[id].Sighting? ==>
              id in w.h.mail.put && w.h.mail.put[id] == Step(cfg, w, e).h.mail.put[id]
  {
  }

  lemma {:induction false} RunStamps(cfg: Config, events: seq<Event>)
    requires cfg.codec.Inverts()
    ensures var w := Run(cfg, events);
      TasksStamped(cfg, w.d) && RepositoryStamped(cfg, w.h) && MailStamped(cfg, w.h)
  {
    if events != [] {
      var n := |events| - 1;
      RunStamps(cfg, events[..n]);
      RunInv(cfg, events[..n]);
      StepKeepsTasks(cfg, Run(cfg, events[..n]), events[n]);
      StepKeepsRepository(cfg, Run(cfg, events[..n]), events[n]);
      StepKeepsMail(cfg, Run(cfg, events[..n]), events[n]);
    }
  }

  // ---- how captures are lost ----

  /** The place of capture c among those of its flush. */
  function Rank(captures: seq<Captured>, f: nat, c: nat): nat
    requires c <= |captures|
  {
    |PathsOf(captures[..c], WithFlush(f))|
  }

  lemma {:induction false} RankIsPath(captures: seq<Captured>, f: nat, c: nat)
    requires c < |captures| && captures[c].fate == WithFlush(f)
    ensures Rank(captures, f, c) < |PathsOf(captures, WithFlush(f))|
    ensures PathsOf(captures, WithFlush(f))[Rank(captures, f, c)] == captures[c].path
  {
    var front := captures[..|captures| - 1];
    if c < |front| {
      RankIsPath(front, f, c);
      assert front[..c] == captures[..c];
    }
  }

  /** Capture c meets the fate of its own file, or keeps the fate it has. */
  ghost predicate MeetsOwn(captures: seq<Captured>, f: nat, outcomes: seq<Option<Bytes>>, c: nat)
    requires c < |captures|
  {
    && |MeetFiles(captures, f, outcomes)| == |captures|
    && (captures[c].fate == WithFlush(f) ==> Rank(captures, f, c) < |outcomes|)
    && MeetFiles(captures, f, outcomes)[c].fate ==
         if captures[c].fate == WithFlush(f) then FileFate(f, outcomes[Rank(captures, f, c)]) else captures[c].fate
  }

  lemma LastMeetsOwn(front: seq<Captured>, last: Captured, f: nat, outcomes: seq<Option<Bytes>>)
    requires |outcomes| == |PathsOf(front + [last], WithFlush(f))|
    ensures MeetsOwn(front + [last], f, outcomes, |front|)
  {
    MeetFilesLength(front + [last], f, outcomes);
    assert (front + [last])[..|front|] == front;
    PathsSnoc(front, last, WithFlush(f));
    if outcomes != [] {
      MeetFilesSnoc(front, last, f, outcomes);
      MeetFilesLength(front, f, outcomes);
      MeetFilesLength(front, f, outcomes[..|outcomes| - 1]);
    }
  }

  lemma FrontMeetsOwn(
    front: seq<Captured>, last: Captured, f: nat, before: seq<Option<Bytes>>, outcomes: seq<Option<Bytes>>, c: nat)
    requires outcomes != [] && before == if last.fate == WithFlush(f) then outcomes[..|outcomes| - 1] else outcomes
    requires c < |front| && MeetsOwn(front, f, before, c)
    ensures MeetsOwn(front + [last], f, outcomes, c)
  {
    MeetFilesSnoc(front, last, f, outcomes);
    assert (front + [last])[..c] == front[..c];
  }

  lemma {:induction false} MeetFilesAt(captures: seq<Captured>, f: nat, outcomes: seq<Option<Bytes>>, c: nat)
    requires |outcomes| == |PathsOf(captures, WithFlush(f))| && c < |captures|
    ensures MeetsOwn(captures, f, outcomes, c)
  {
    var front, last := captures[..|captures| - 1], captures[|captures| - 1];
    assert captures == front + [last];
    if c == |front| {
      LastMeetsOwn(front, last, f, outcomes);
    } else {
      PathsSnoc(front, last, WithFlush(f));
      if outcomes == [] {
        NoneMeet(captures, f, c);
      } else {
        var before := if last.fate == WithFlush(f) then outcomes[..|outcomes| - 1] else outcomes;
        MeetFilesAt(front, f, before, c);
        FrontMeetsOwn(front, last, f, before, outcomes, c);
      }
    }
  }

  lemma NoneMeet(captures: seq<Captured>, f: nat, c: nat)
    requires PathsOf(captures, WithFlush(f)) == [] && c < |captures|
    ensures MeetsOwn(captures, f, [], c)
  {
    if captures[c].fate == WithFlush(f) {
      RankIsPath(captures, f, c);
    }
  }

  lemma {:induction false} MeetFilesLength(captures: seq<Captured>, f: nat, outcomes: seq<Option<Bytes>>)
    ensures |MeetFiles(captures, f, outcomes)| == |captures|
  {
    if captures != [] && outcomes != [] {
      MeetFilesLength(captures[..|captures| - 1], f, outcomes[..|outcomes| - 1]);
      MeetFilesLength(captures[..|captures| - 1], f, outcomes);
    }
  }

  ghost predicate Drops(captures: seq<Captured>, captures': seq<Captured>, c: nat) {
    c < |captures'| && captures'[c].fate.Dropped? && (c < |captures| ==> !captures[c].fate.Dropped?)
  }

  /** The file of capture c is among these, and cannot be read, parsed or rebuilt. */
  predicate FileFails(cfg: Config, w: World, f: nat, files: seq<Option<Bytes>>, c: nat)
    requires c < |w.h.captures| && f in w.d.flushes
  {
    var i := Rank(w.h.captures, f, c);
    i < |files| && Restamp(cfg.codec, StampOf(cfg, w.d.flushes[f]), files[i]).None?
  }

  predicate DropCause(cfg: Config, w: World, act: Action, c: nat)
    requires c < |w.h.captures|
  {
    match w.h.captures[c].fate
    case OnList => act.FlushTick? && !(cfg.rawCaptureEnabled && TickFlushes(cfg, w.d))
    case WithFlush(f) =>
      || (IsAttempt(act) && AttemptOf(act) == f)
      || (act.RawUploaded? && act.raw == f && f in w.d.flushes && FileFails(cfg, w, f, act.files, c))
    case _ => false
  }

  lemma UploadDrops(cfg: Config, w: World, e: Event, c: nat)
    requires PlacesInv(w.d, w.h.captures) && e.act.RawUploaded? && Possible(cfg, w, e.act) && c < |w.h.captures|
    ensures Drops(w.h.captures, Step(cfg, w, e).h.captures, c) <==> DropCause(cfg, w, e.act, c)
  {
    var f := e.act.raw;
    UploadedAre(cfg, w, e);
    assert FlushHolds(w.d, w.h.captures, f);
    MeetFilesAt(w.h.captures, f, Outcomes(cfg.codec, StampOf(cfg, w.d.flushes[f]), e.act.files), c);
  }

  lemma AttemptDrops(cfg: Config, w: World, e: Event, c: nat)
    requires PlacesInv(w.d, w.h.captures) && IsAttempt(e.act) && Possible(cfg, w, e.act) && c < |w.h.captures|
    ensures Drops(w.h.captures, Step(cfg, w, e).h.captures, c) <==> DropCause(cfg, w, e.act, c)
  {
    var f := AttemptOf(e.act);
    AttemptMovesOn(cfg, w, e);
    assert FlushHolds(w.d, w.h.captures, f);
    if w.h.captures[c].fate == WithFlush(f) {
      RankIsPath(w.h.captures, f, c);
    }
  }

  /** No capture is forgotten, and only a report adds one. */
  lemma CapturesStay(cfg: Config, w: World, e: Event)
    requires Possible(cfg, w, e.act)
    ensures |Step(cfg, w, e).h.captures| == |w.h.captures| + (if e.act.RawCaptured? then 1 else 0)
    ensures e.act.RawCaptured? ==> Step(cfg, w, e).h.captures[|w.h.captures|].fate == OnList
  {
    if e.act.RawUploaded? {
      UploadedAre(cfg, w, e);
      MeetFilesLength(w.h.captures, e.act.raw, Outcomes(cfg.codec, StampOf(cfg, w.d.flushes[e.act.raw]), e.act.files));
    } else if IsAttempt(e.act) {
      AttemptMovesOn(cfg, w, e);
    } else if e.act.FlushTick? {
      TickSwaps(cfg, w, e);
    } else if e.act.RawCaptured? {
      CaughtCapture(cfg, w, e);
    } else {
      SameCaptureParts(cfg, w, e);
    }
  }

  // ---- every report is kept ----

  function AllPaths(captures: seq<Captured>): seq<string> {
    seq(|captures|, i requires 0 <= i < |captures| => captures[i].path)
  }

  /** The paths that the adapters reported, in order. */
  function ReportedPaths(events: seq<Event>): seq<string> {
    if events == [] then []
    else
      var last := events[|events| - 1].act;
      ReportedPaths(events[..|events| - 1]) + (if last.RawCaptured? then [last.path] else [])
  }

  lemma MeetKeepsPaths(captures: seq<Captured>, before: CaptureFate, after: CaptureFate)
    ensures AllPaths(Meet(captures, before, after)) == AllPaths(captures)
  {
  }

  lemma {:induction false} MeetFilesKeepsPaths(captures: seq<Captured>, f: nat, outcomes: seq<Option<Bytes>>)
    ensures AllPaths(MeetFiles(captures, f, outcomes)) == AllPaths(captures)
  {
    if captures != [] && outcomes != [] {
      var front, last := captures[..|captures| - 1], captures[|captures| - 1];
      var before := if last.fate == WithFlush(f) then outcomes[..|outcomes| - 1] else outcomes;
      MeetFilesKeepsPaths(front, f, before);
      MeetFilesSnoc(front, last, f, outcomes);
      assert captures == front + [last];
      assert AllPaths(captures) == AllPaths(front) + [last.path];
    }
  }

  lemma StepKeepsPaths(cfg: Config, w: World, e: Event)
    requires Possible(cfg, w, e.act)
    ensures AllPaths(Step(cfg, w, e).h.captures)
         == if e.act.RawCaptured? then AllPaths(w.h.captures) + [e.act.path] else AllPaths(w.h.captures)
  {
    if e.act.RawUploaded? {
      UploadedAre(cfg, w, e);
      var outcomes := Outcomes(cfg.codec, StampOf(cfg, w.d.flushes[e.act.raw]), e.act.files);
      MeetFilesKeepsPaths(w.h.captures, e.act.raw, outcomes);
    } else if IsAttempt(e.act) {
      AttemptMovesOn(cfg, w, e);
      MeetKeepsPaths(w.h.captures, WithFlush(AttemptOf(e.act)), Dropped);
    } else if e.act.FlushTick? {
      TickSwaps(cfg, w, e);
      MeetKeepsPaths(w.h.captures, OnList, TickFate(cfg, w.d));
    } else if e.act.RawCaptured? {
      CaughtCapture(cfg, w, e);
    } else {
      SameCaptureParts(cfg, w, e);
    }
  }

  lemma {:induction false} RunPaths(cfg: Config, events: seq<Event>)
    ensures AllPaths(Run(cfg, events).h.captures) == ReportedPaths(events)
  {
    if events != [] {
      var n := |events| - 1;
      RunPaths(cfg, events[..n]);
      if Possible(cfg, Run(cfg, events[..n]), events[n].act) {
        StepKeepsPaths(cfg, Run(cfg, events[..n]), events[n]);
      }
    }
  }
}
