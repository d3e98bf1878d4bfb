// The external anchor over runs of the gateway (gateway/audit.py): where its
// records point, that a verified chain can then lose no row unnoticed, and that a
// broken chain is never anchored.
module AnchorRuns {
  import opened Wrappers
  import opened AuditChain

  /** The newest record counts; torn, blank and foreign lines after it do not hide it. */
  lemma {:induction false} NewestAnchorCounts(sink: seq<SinkLine>, head: string, rows: nat, rest: seq<SinkLine>)
    requires forall i :: 0 <= i < |rest| ==> !rest[i].Anchor?
    ensures LastAnchor(sink + [Anchor(head, rows)] + rest) == Some(head)
  {
    var all := sink + [Anchor(head, rows)] + rest;
    if rest == [] {
      assert all[|all| - 1] == Anchor(head, rows);
    } else {
      var n := |rest| - 1;
      assert all[|all| - 1] == rest[n];
      assert all[..|all| - 1] == sink + [Anchor(head, rows)] + rest[..n];
      NewestAnchorCounts(sink, head, rows, rest[..n]);
    }
  }

  // ----- what the records say -----

  /** The record was right: so many hashed rows there were, and the last of them carried the head. */
  ghost predicate PointsInto(line: SinkLine, rows: seq<HashedRow>) {
    line.Anchor? ==> 0 < line.rowCount <= |rows| && rows[line.rowCount - 1].entryHash == Some(line.head)
  }

  ghost predicate AllPoint(log: Log) {
    forall i :: 0 <= i < |log.sink| ==> PointsInto(log.sink[i], HashedRows(log.rows))
  }

  /** Rows that chain, all of them. */
  predicate Chained(rows: seq<Row>) {
    forall i :: 0 <= i < |rows| ==> rows[i].entryHash.Some?
  }

  lemma {:induction false} ChainedRows(rows: seq<Row>)
    requires Chained(rows)
    ensures HashedRows(rows) == rows
  {
    if rows == [] {
    } else {
      var n := |rows| - 1;
      ChainedRows(rows[..n]);
      assert rows == rows[..n] + [rows[n]];
    }
  }

  lemma StepPoints(d: Digest, log: Log, e: Event)
    requires AllPoint(log) && Chained(log.rows)
    ensures AllPoint(Step(d, log, e)) && Chained(Step(d, log, e).rows)
  {
    hide Intact, ChainHead;
    var after := Step(d, log, e);
    match e {
      case Insert(fields) =>
        HashedRowsAppend(log.rows, NextRow(d, log.rows, log.nextId, fields));
        forall i | 0 <= i < |after.sink| ensures PointsInto(after.sink[i], HashedRows(after.rows)) {
          assert PointsInto(log.sink[i], HashedRows(log.rows));
        }
      case Verification =>
        ChainHeadIsLast(log.rows);
        forall i | 0 <= i < |after.sink| ensures PointsInto(after.sink[i], HashedRows(after.rows)) {
          assert i < |log.sink| ==> PointsInto(log.sink[i], HashedRows(log.rows));
        }
      case TornWrite =>
        forall i | 0 <= i < |after.sink| ensures PointsInto(after.sink[i], HashedRows(after.rows)) {
          assert i < |log.sink| ==> PointsInto(log.sink[i], HashedRows(log.rows));
        }
    }
  }

  lemma {:induction false} RunPoints(d: Digest, log: Log, events: seq<Event>)
    requires AllPoint(log) && Chained(log.rows)
    ensures AllPoint(RunLog(d, log, events)) && Chained(RunLog(d, log, events).rows)
    decreases |events|
  {
    hide AllPoint, Chained, Step;
    if events == [] {
    } else {
      StepPoints(d, log, events[0]);
      RunPoints(d, Step(d, log, events[0]), events[1..]);
    }
  }

  /** Over every run, every record of the sink names the number of rows there were and the hash of the last of them. */
  lemma AnchorsPointIntoChain(d: Digest, events: seq<Event>, i: nat)
    requires i < |RunLog(d, EMPTY_LOG, events).sink|
    ensures PointsInto(RunLog(d, EMPTY_LOG, events).sink[i], HashedRows(RunLog(d, EMPTY_LOG, events).rows))
  {
    hide RunLog, PointsInto;
    RunPoints(d, EMPTY_LOG, events);
    ChainedRows(RunLog(d, EMPTY_LOG, events).rows);
  }

  // ----- after a pass -----

  /**
   * After any run and one more pass of the verification loop, with any lines torn since: a table that has
   * lost the last row, or any number of its last rows, fails the anchor check.
   */
  lemma AfterPassCutsAreSeen(d: Digest, events: seq<Event>, rest: seq<SinkLine>, keep: nat)
    requires Binding(d) && AllSeparatorFree(RunLog(d, EMPTY_LOG, events).rows) && keep < |RunLog(d, EMPTY_LOG, events).rows|
    requires forall i :: 0 <= i < |rest| ==> !rest[i].Anchor?
    ensures var log := RunLog(d, EMPTY_LOG, events);
            !AnchorOk(log.rows[..keep], Step(d, log, Verification).sink + rest)
  {
    hide RunLog, Binding, AllSeparatorFree, LastAnchor;
    var log := RunLog(d, EMPTY_LOG, events);
    assert Honest(d, log) by {
      EmptyIsHonest(d);
      HonestRunPasses(d, EMPTY_LOG, events);
    }
    RunPoints(d, EMPTY_LOG, events);
    ChainedRows(log.rows);
    ChainHeadIsLast(log.rows);
    var rows := HashedRows(log.rows);
    var head := rows[|rows| - 1].entryHash.value;
    var sink := Step(d, log, Verification).sink + rest;
    assert Step(d, log, Verification).sink == log.sink + [Anchor(head, |rows|)];
    NewestAnchorCounts(log.sink, head, |rows|, rest);
    TruncationNoticed(d, rows, keep, sink);
  }

  /** A table that fails the walk or the anchor check is never anchored: however many passes run, the record to compare with stays. */
  lemma {:induction false} BrokenNeverAnchored(d: Digest, log: Log, events: seq<Event>)
    requires !Intact(d, HashedRows(log.rows)) || !AnchorOk(log.rows, log.sink)
    requires forall i :: 0 <= i < |events| ==> !events[i].Insert?
    ensures var after := RunLog(d, log, events);
            && after.rows == log.rows && LastAnchor(after.sink) == LastAnchor(log.sink)
            && (forall i :: 0 <= i < |after.sink| && after.sink[i].Anchor? ==> after.sink[i] in log.sink)
            && (!Intact(d, HashedRows(after.rows)) || !AnchorOk(after.rows, after.sink))
    decreases |events|
  {
    hide Intact, HashedRows, ContainsHead;
    if events == [] {
    } else {
      if events[0].TornWrite? {
        assert (log.sink + [Malformed])[..|log.sink|] == log.sink;
      }
      var next := Step(d, log, events[0]);
      assert LastAnchor(next.sink) == LastAnchor(log.sink);
      BrokenNeverAnchored(d, next, events[1..]);
      forall i | 0 <= i < |RunLog(d, log, events).sink| && RunLog(d, log, events).sink[i].Anchor?
        ensures RunLog(d, log, events).sink[i] in log.sink
      {
        assert RunLog(d, log, events).sink[i] in next.sink;
      }
    }
  }
}
