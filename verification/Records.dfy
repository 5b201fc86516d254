/** The records the daemon publishes, and the conditions under which it builds none. */
module Records {
  import opened Wrappers
  import opened Tracker
  import opened Batch

  datatype StrongRef = StrongRef(uri: string, cid: string)

  datatype FlightRecord = FlightRecord(
    aircraft: StrongRef, firstSeen: int, lastSeen: int, batches: seq<StrongRef>,
    positionCount: nat, messageCount: real, callsign: Option<string>, squawk: Option<string>,
    initial: Snapshot, final: Snapshot, maxRangeNm: Option<real>)

  datatype Signal = Signal(meanDbfs: real, noiseDbfs: real, strongCount: real)

  datatype BreakdownEntry = BreakdownEntry(
    protocol: string, messagesReceived: real, positionsDecoded: real, signal: Option<Signal>)

  /** An empty breakdown stands for an absent one.  The daemon never samples what signalStats would hold. */
  datatype StatsRecord = StatsRecord(
    aircraftSeen: nat, messagesReceived: real, positionsReported: Option<nat>, maxRangeNm: Option<real>,
    breakdown: seq<BreakdownEntry>)

  datatype Record = Sighting(sighting: SightingRecord) | Flight(flight: FlightRecord) | Stats(stats: StatsRecord)

  /** No record without positions, and none without a batch to prove them. */
  function BuildFlightRecord(ac: Entry, aircraftRef: StrongRef, batches: seq<StrongRef>): Option<FlightRecord> {
    if ac.positionCount == 0 || batches == [] then None
    else
      var delta := ac.currentMessages - ac.initialMessages;
      Some(FlightRecord(aircraftRef, ac.firstSeen, ac.lastSeen, batches, ac.positionCount,
                        if delta > 0.0 then delta else 0.0, ac.callsign, ac.squawk,
                        ac.initial, ac.final, ac.maxRangeNm))
  }

  // ---- what a record says ----

  /** The record says of the aircraft what its entry does; its messages are those counted since it appeared. */
  predicate TellsEntry(r: FlightRecord, e: Entry) {
    && r.firstSeen == e.firstSeen && r.lastSeen == e.lastSeen && r.positionCount == e.positionCount
    && (if e.currentMessages >= e.initialMessages then r.messageCount == e.currentMessages - e.initialMessages
        else r.messageCount == 0.0)
    && r.callsign == e.callsign && r.squawk == e.squawk
    && r.initial == e.initial && r.final == e.final && r.maxRangeNm == e.maxRangeNm
  }

  /** A departure that has positions and refs to prove them. */
  predicate IsProvable(e: Entry, refs: seq<StrongRef>) {
    e.positionCount > 0 && refs != []
  }

  lemma BuildsExactlyWhen(e: Entry, aircraftRef: StrongRef, refs: seq<StrongRef>)
    ensures var r := BuildFlightRecord(e, aircraftRef, refs);
      && (r.Some? <==> IsProvable(e, refs))
      && (r.Some? ==> TellsEntry(r.value, e) && r.value.aircraft == aircraftRef && r.value.batches == refs)
  {
  }
}
