/**
 The daemon as the object its callbacks and timers share.  Each method runs without an await, and
 does to the state exactly what the corresponding step of the transition system does.
 */
module DaemonClass {
  import opened Wrappers
  import opened Tracker
  import opened Batch
  import opened Blobs
  import opened Records
  import opened Beast
  import opened RawCapture
  import Queue
  import DaemonModel
  import TrackerClass
  import QueueClass

  type FlushTask = DaemonModel.FlushTask
  type DepartTask = DaemonModel.DepartTask
  type Hand = DaemonModel.Hand

  class Daemon {
    const cfg: DaemonModel.Config
    const tracker: TrackerClass.AircraftTracker
    const queue: QueueClass.PublishQueue
    var telemetry: Telemetry
    var windowStart: int
    var rawCapturePaths: seq<string>
    var batchIndex: map<Hex, seq<StrongRef>>
    // Callbacks and timers suspended at an await, and where they go on.
    var flushes: map<nat, FlushTask>
    var nextFlush: nat
    var departs: map<nat, DepartTask>
    var nextDepart: nat
    var drains: map<nat, seq<Queue.QueueEntry>>
    var nextDrain: nat

    ghost predicate Valid()
      reads this, tracker, tracker.tracked.Values, queue
    {
      tracker.Valid() && tracker.range == cfg.range && queue.Valid()
    }

    ghost function QueueView(): Queue.State
      reads this, queue
    {
      Queue.State(queue.View(), drains, nextDrain)
    }

    ghost function View(): DaemonModel.Core
      reads this, tracker, queue
    {
      DaemonModel.Core(tracker.View(), telemetry, windowStart, rawCapturePaths, batchIndex,
                       flushes, nextFlush, departs, nextDepart, QueueView())
    }

    constructor (cfg: DaemonModel.Config)
      ensures Valid() && View() == DaemonModel.INITIAL && this.cfg == cfg
    {
      this.cfg := cfg;
      tracker := new TrackerClass.AircraftTracker(cfg.range);
      queue := new QueueClass.PublishQueue();
      telemetry, windowStart, rawCapturePaths, batchIndex := [], 0, [], map[];
      flushes, nextFlush, departs, nextDepart, drains, nextDrain := map[], 0, map[], 0, map[], 0;
    }

    // ---- an aircraft message ----

    method OnAircraft(aircraft: seq<Observation>, timestamp: real)
      requires Valid()
      modifies this, tracker, tracker.tracked.Values
      ensures Valid() && fresh(tracker.tracked.Values - old(tracker.tracked.Values))
      ensures View() == DaemonModel.OnMessage(cfg, old(View()), aircraft, timestamp)
    {
      var departed, positions := tracker.Update(aircraft, timestamp);
      assert queue.Valid() && QueueView() == old(QueueView());
      FeedWindow(positions);
      assert tracker.Valid() && queue.Valid();
      departs := departs[nextDepart := DaemonModel.DepartTask(departed, None)];
      nextDepart := nextDepart + 1;
    }

    /** Feeds the positions of one cycle into the batch window, aircraft by aircraft. */
    method FeedWindow(positions: seq<Row>)
      modifies this`telemetry
      ensures telemetry == DaemonModel.AddArrivals(old(telemetry), Arrivals(positions))
    {
      ghost var before := telemetry;
      for i := 0 to |positions|
        invariant telemetry == DaemonModel.AddArrivals(before, Arrivals(positions[..i]))
      {
        var hex, reports := positions[i].hex, positions[i].reports;
        ghost var fed := Arrivals(positions[..i]);
        assert fed + RowArrivals(positions[i])[..0] == fed;
        for j := 0 to |reports|
          invariant telemetry == DaemonModel.AddArrivals(before, fed + RowArrivals(positions[i])[..j])
        {
          telemetry := AddPosition(telemetry, hex, reports[j]);
          AddOneMore(before, fed, RowArrivals(positions[i]), j);
        }
        assert RowArrivals(positions[i])[..|reports|] == RowArrivals(positions[i]);
        assert positions[..i + 1][..i] == positions[..i];
      }
      assert positions[..|positions|] == positions;
    }

    // ---- a departure ----

    method TakeRefs(t: nat)
      requires Valid() && t in departs && departs[t].waiting != [] && departs[t].hand.None?
      modifies this`batchIndex, this`departs
      ensures Valid() && View() == DaemonModel.OnTake(old(View()), t)
    {
      var ac := departs[t].waiting[0];
      departs := departs[t := departs[t].(waiting := departs[t].waiting[1..])];
      var batchRefs := if ac.icaoHex in batchIndex then batchIndex[ac.icaoHex] else [];
      batchIndex := batchIndex - {ac.icaoHex};
      if ac.positionCount != 0 {
        departs := departs[t := departs[t].(hand := Some(DaemonModel.Hand(ac, batchRefs)))];
      }
    }

    /** The end of one departure: the record that was handed to the repository, and enqueued if that refused it. */
    method FlightDone(t: nat, outcome: DaemonModel.FlightOutcome, now: int)
      returns (flightRecord: Option<FlightRecord>)
      requires Valid() && t in departs && departs[t].hand.Some?
      modifies this`departs, queue
      ensures Valid() && View() == DaemonModel.OnFlightDone(old(View()), t, outcome, now)
      ensures var hand := old(departs)[t].hand.value;
        && (flightRecord.Some? <==> IsProvable(hand.entry, hand.refs) && !outcome.NoIdentity?)
        && (flightRecord.Some? ==>
              TellsEntry(flightRecord.value, hand.entry) && flightRecord.value.batches == hand.refs)
    {
      var hand := departs[t].hand.value;
      departs := departs[t := departs[t].(hand := None)];
      if outcome.NoIdentity? {
        return None;
      }
      var ref := if outcome.Published? then outcome.aircraftRef else outcome.refusedRef;
      flightRecord := BuildFlightRecord(hand.entry, ref, hand.refs);
      BuildsExactlyWhen(hand.entry, ref, hand.refs);
      if flightRecord.Some? && outcome.Refused? {
        queue.Enqueue(Flight(flightRecord.value), now);
      }
    }

    // ---- a flush ----

    method OnRawCapture(path: string)
      requires Valid()
      modifies this`rawCapturePaths
      ensures Valid() && View() == old(View()).(rawCapturePaths := old(rawCapturePaths) + [path])
    {
      rawCapturePaths := rawCapturePaths + [path];
    }

    /** Swaps the window and the captures out, then splits what the window held. */
    method FlushTick(now: int)
      requires Valid()
      modifies this`telemetry, this`windowStart, this`rawCapturePaths, this`flushes, this`nextFlush
      ensures Valid() && View() == DaemonModel.OnFlushTick(cfg, old(View()), now)
    {
      var from, swapped, captured := windowStart, telemetry, rawCapturePaths;
      telemetry, windowStart := [], now;
      rawCapturePaths := [];
      if swapped == [] {
        return;
      }
      var chunks := ChunkTelemetry(swapped, cfg.size, LEXICON_LIMITS);
      if chunks.Ok? {
        var paths := if cfg.rawCaptureEnabled then captured else [];
        flushes := flushes[nextFlush := DaemonModel.FlushTask(from, now, chunks.value, 0, paths, None)];
      }
      nextFlush := nextFlush + 1;
    }

    /** The captures of a flush are read, restamped, joined and uploaded; without a blob nothing changes. */
    method RawUploaded(f: nat, files: seq<Option<Bytes>>, uploadOk: bool)
      requires Valid() && f in flushes && flushes[f].next == 0 && |files| == |flushes[f].paths|
      modifies this`flushes
      ensures var upload := DaemonModel.CaptureUpload(cfg, old(flushes[f]), files);
        && Valid()
        && View() == if upload.None? || !uploadOk then old(View())
                     else old(View()).(flushes := old(flushes)[f := old(flushes[f]).(rawCapture := upload)])
    {
      var concatenated := ProcessCaptures(cfg.codec, DaemonModel.StampOf(cfg, flushes[f]), files);
      if concatenated.Some? && uploadOk {
        flushes := flushes[f := flushes[f].(rawCapture := concatenated)];
      }
    }

    method UploadFailed(f: nat)
      requires Valid()
      modifies this`flushes
      ensures Valid() && View() == old(View()).(flushes := old(flushes) - {f})
    {
      flushes := flushes - {f};
    }

    /** Enters the new ref for every aircraft of the manifest, then goes on to the next chunk. */
    method SightingPublished(f: nat, ref: StrongRef)
      requires Valid() && f in flushes && flushes[f].next < |flushes[f].chunks|
      modifies this`batchIndex, this`flushes
      ensures Valid() && View() == DaemonModel.OnSightingPublished(old(View()), f, ref)
    {
      var hexes := Keys(flushes[f].chunks[flushes[f].next]);
      for i := 0 to |hexes|
        invariant batchIndex == DaemonModel.IndexAll(old(batchIndex), hexes[..i], ref)
        invariant unchanged(`flushes)
      {
        assert hexes[..i + 1][..i] == hexes[..i] && [] + [ref] == [ref];
        if hexes[i] in batchIndex {
          batchIndex := batchIndex[hexes[i] := batchIndex[hexes[i]] + [ref]];
        } else {
          batchIndex := batchIndex[hexes[i] := [ref]];
        }
      }
      assert hexes[..|hexes|] == hexes;
      NextChunk(f);
    }

    method SightingRefused(f: nat, now: int)
      requires Valid() && f in flushes && flushes[f].next < |flushes[f].chunks|
      modifies this`flushes, queue
      ensures Valid() && View() == DaemonModel.OnSightingRefused(old(View()), f, now)
    {
      var task := flushes[f];
      var chunk := task.chunks[task.next];
      var sources := CollectSources(chunk);
      var record := BuildBatchRecord(
        task.windowStart, task.windowEnd, chunk, sources, if task.next == 0 then task.rawCapture else None);
      if record.Some? {
        queue.Enqueue(Sighting(record.value), now);
      }
      NextChunk(f);
    }

    method NextChunk(f: nat)
      requires f in flushes
      modifies this`flushes
      ensures flushes == DaemonModel.Advance(old(flushes), f)
    {
      var task := flushes[f];
      task := task.(next := task.next + 1);
      if task.next < |task.chunks| {
        flushes := flushes[f := task];
      } else {
        flushes := flushes - {f};
      }
    }

    // ---- a drain ----

    method BeginDrain(now: int)
      requires Valid()
      modifies this`drains, this`nextDrain
      ensures Valid() && nextDrain == old(nextDrain) + 1 && old(nextDrain) in drains
      ensures View() == old(View()).(queue :=
                Queue.Next(old(QueueView()), Queue.Begin(drains[old(nextDrain)], now)))
    {
      var ready := queue.GetReady(now);
      drains := drains[nextDrain := ready];
      nextDrain := nextDrain + 1;
    }

    method DrainAcked(d: nat)
      requires Valid() && d in drains && drains[d] != []
      modifies this`drains, queue
      ensures Valid() && View() == old(View()).(queue := Queue.Next(old(QueueView()), Queue.Acked(d)))
    {
      queue.MarkDone(drains[d][0].id);
      drains := drains[d := drains[d][1..]];
    }

    /** An unusable retry time throws out of the loop, and the rest of the drain is given up. */
    method DrainRejected(d: nat, error: string, retryAfter: Queue.RetryAfter, now: int)
      requires Valid() && d in drains && drains[d] != []
      modifies this`drains, queue
      ensures Valid()
      ensures View() == old(View()).(queue := Queue.Next(old(QueueView()), Queue.Rejected(d, error, retryAfter, now)))
    {
      match retryAfter
      case Unusable =>
        drains := drains[d := []];
      case Absent =>
        queue.MarkFailed(drains[d][0].id, error, None, now);
        drains := drains[d := drains[d][1..]];
      case Seconds(s) =>
        queue.MarkFailed(drains[d][0].id, error, Some(s * 1000), now);
        drains := drains[d := drains[d][1..]];
    }
  }

  lemma AddArrivalsSnoc(window: Telemetry, fed: seq<Arrival>, a: Arrival)
    ensures DaemonModel.AddArrivals(window, fed + [a])
              == AddPosition(DaemonModel.AddArrivals(window, fed), a.hex, a.report)
  {
    assert (fed + [a])[..|fed|] == fed;
  }

  lemma AddOneMore(window: Telemetry, fed: seq<Arrival>, more: seq<Arrival>, j: nat)
    requires j < |more|
    ensures DaemonModel.AddArrivals(window, fed + more[..j + 1])
              == AddPosition(DaemonModel.AddArrivals(window, fed + more[..j]), more[j].hex, more[j].report)
  {
    assert fed + more[..j + 1] == (fed + more[..j]) + [more[j]];
    AddArrivalsSnoc(window, fed + more[..j], more[j]);
  }
}
