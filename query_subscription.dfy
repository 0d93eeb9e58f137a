/**
 * NaiveQuerySubscription: reads a whole query result into memory on the first
 * request and then serves it record by record as the subscriber asks for
 * more. The subscriber's callbacks are calls on a QuerySubscriber object that
 * records them in order; which callbacks throw is fixed when the subscriber
 * is made.
 *
 * The steps are specified as functions on a snapshot of the state (the
 * subscription's fields and the subscriber's log of callbacks); the methods
 * of the class are proved to perform exactly those steps, and the lemmas
 * after the class state what the steps promise.
 */
module QuerySubscriptions {
  import opened Wrappers
  import opened Exceptions

  /** A field value of a result record (AnyValue); a few kinds stand for all of them. */
  datatype AnyValue = NoValue | TextValue(text: string) | IntegralValue(number: int) | BooleanValue(truth: bool)

  /** A result record: its field values, in field order. */
  type Record = seq<AnyValue>

  const LongMax: int := 0x7fff_ffff_ffff_ffff
  const LongMin: int := -0x8000_0000_0000_0000
  const LongRange: int := 0x1_0000_0000_0000_0000

  predicate IsLong(x: int) {
    LongMin <= x <= LongMax
  }

  /** Two's-complement wrap-around of a Java long addition result. */
  function WrapLong(x: int): (r: int)
    ensures IsLong(r)
    ensures IsLong(x) ==> r == x
    ensures LongMax < x <= 2 * LongMax ==> r == x - LongRange
  {
    (x - LongMin) % LongRange + LongMin
  }

  /** checkForOverflow: a negative demand is taken to be an overflow and saturates at Long.MAX_VALUE. */
  function CheckForOverflow(value: int): (r: int)
    ensures value >= 0 ==> r == value
    ensures value < 0 ==> r == LongMax
  {
    if value < 0 then LongMax else value
  }

  /** The demand after request(numberOfRecords): the long sum, passed through checkForOverflow. */
  function RequestedAfter(requestedRecords: int, numberOfRecords: int): int {
    CheckForOverflow(WrapLong(requestedRecords + numberOfRecords))
  }

  function Min(a: int, b: int): int {
    if a <= b then a else b
  }

  /** The subscriber callbacks, in the order they were called. */
  datatype Event =
    | OnResult(numberOfFields: int)
    | OnRecord
    | OnField(value: AnyValue)
    | OnRecordCompleted
    | OnError(error: Throwable)
    | OnResultCompleted

  /** What the callback at position p of the subscriber's log throws, if anything. */
  function ThrownAt(failures: map<nat, Throwable>, p: nat): (r: Option<Throwable>)
    ensures r.Some? <==> p in failures
  {
    if p in failures then Some(failures[p]) else None
  }

  /** QuerySubscriber: the callback made at position p of its log throws failures[p], if p is a key. */
  class QuerySubscriber {
    var events: seq<Event>
    const failures: map<nat, Throwable>

    constructor (failures: map<nat, Throwable>)
      ensures events == [] && this.failures == failures
    {
      events := [];
      this.failures := failures;
    }

    method Notify(e: Event) returns (thrown: Option<Throwable>)
      modifies this
      ensures events == old(events) + [e]
      ensures thrown == ThrownAt(failures, |old(events)|)
    {
      thrown := ThrownAt(failures, |events|);
      events := events + [e];
    }
  }

  /**
   * Make the callbacks `calls` in order after the log `events`, stopping
   * after the first one that throws: the resulting log and the throwable.
   */
  function Deliver(events: seq<Event>, calls: seq<Event>, failures: map<nat, Throwable>)
    : (r: (seq<Event>, Option<Throwable>))
    decreases |calls|
  {
    if calls == [] then (events, None)
    else if |events| in failures then (events + [calls[0]], Some(failures[|events|]))
    else Deliver(events + [calls[0]], calls[1..], failures)
  }

  /** The callbacks for a sequence of field values, in field order. */
  function FieldEvents(fields: seq<AnyValue>): (r: seq<Event>)
    ensures |r| == |fields|
  {
    if fields == [] then [] else [OnField(fields[0])] + FieldEvents(fields[1..])
  }

  /** The callbacks for serving one record. */
  function RecordEvents(record: Record): seq<Event> {
    [OnRecord] + FieldEvents(record) + [OnRecordCompleted]
  }

  /** The callbacks for serving buffer[lo..hi], record after record. */
  function ServeEvents(buffer: seq<Record>, lo: nat, hi: nat): seq<Event>
    requires lo <= hi <= |buffer|
    decreases hi - lo
  {
    if lo == hi then [] else RecordEvents(buffer[lo]) + ServeEvents(buffer, lo + 1, hi)
  }

  /** What the subscription sees of the code it cannot see. */
  datatype Upstream = Upstream(
    records: seq<Record>,                // the records accept() visits, in order
    acceptFailure: Option<Throwable>,    // what accept() throws after visiting them, if anything
    fieldCount: nat,                     // fieldNames().length
    failures: map<nat, Throwable>)       // the subscriber's throwing callbacks, by log position

  /** The subscription's fields together with the subscriber's log. */
  datatype Snapshot = Snapshot(
    requestedRecords: int,
    servedRecords: int,
    materializedResult: Option<seq<Record>>,
    error: Option<Throwable>,
    cancelled: bool,
    events: seq<Event>)

  /**
   * The demand is a non-negative long; nothing is served before the result is
   * materialised, and never more than it holds.
   */
  predicate ValidState(st: Snapshot) {
    && 0 <= st.requestedRecords <= LongMax
    && 0 <= st.servedRecords
    && (st.materializedResult.None? ==> st.servedRecords == 0)
    && (st.materializedResult.Some? ==> st.servedRecords <= |st.materializedResult.value|)
  }

  /** How far serveResults goes when no callback throws. */
  function ServeTarget(st: Snapshot): int
    requires st.materializedResult.Some?
  {
    var limit := Min(st.requestedRecords, |st.materializedResult.value|);
    if st.servedRecords < limit then limit else st.servedRecords
  }

  /**
   * serveResults: the callbacks for the records from servedRecords up to the
   * target; a throwing callback ends the serving, becomes the error and marks
   * the whole buffer as served.
   */
  function AfterServe(st: Snapshot, failures: map<nat, Throwable>): (r: Snapshot)
    requires ValidState(st) && st.materializedResult.Some?
    ensures ValidState(r)
  {
    var buffer := st.materializedResult.value;
    var (events, thrown) := Deliver(st.events, ServeEvents(buffer, st.servedRecords, ServeTarget(st)), failures);
    if thrown.None? then st.(servedRecords := ServeTarget(st), events := events)
    else st.(servedRecords := |buffer|, error := thrown, events := events)
  }

  /**
   * materializeIfNecessary: on the first call, buffer every record accept()
   * visits; an Exception from accept() becomes the error (the records read
   * before it stay), any other throwable propagates before onResult; then
   * onResult(fieldCount), which may itself throw.
   */
  function AfterMaterialize(st: Snapshot, inputs: Upstream): (r: (Snapshot, Option<Throwable>))
    requires ValidState(st)
    ensures ValidState(r.0) && r.0.materializedResult.Some?
  {
    if st.materializedResult.Some? then (st, None)
    else
      var read := st.(materializedResult := Some(inputs.records));
      match inputs.acceptFailure
      case Some(t) =>
        if InstanceOf(t, ExceptionClass) then
          var (events, thrown) := Deliver(read.events, [OnResult(inputs.fieldCount)], inputs.failures);
          (read.(error := Some(t), events := events), thrown)
        else
          (read, Some(t))
      case None =>
        var (events, thrown) := Deliver(read.events, [OnResult(inputs.fieldCount)], inputs.failures);
        (read.(events := events), thrown)
  }

  /** request(numberOfRecords): raise the demand, materialise if needed, serve. */
  function AfterRequest(st: Snapshot, numberOfRecords: int, inputs: Upstream): (r: (Snapshot, Option<Throwable>))
    requires ValidState(st) && IsLong(numberOfRecords)
    ensures ValidState(r.0)
  {
    var demanded := st.(requestedRecords := RequestedAfter(st.requestedRecords, numberOfRecords));
    var (materialized, thrown) := AfterMaterialize(demanded, inputs);
    if thrown.Some? then (materialized, thrown)
    else (AfterServe(materialized, inputs.failures), None)
  }

  /**
   * await(): whether records remain unserved and the subscription is not
   * cancelled; when none remain, onError(error) or onResultCompleted first.
   * Before any request the result list is null: NullPointerException.
   */
  function AfterAwait(st: Snapshot, inputs: Upstream): (r: (Snapshot, Result<bool, Raised>))
    ensures r.0 == st.(events := r.0.events) && st.events <= r.0.events
    ensures ValidState(st) ==> ValidState(r.0)
  {
    if st.materializedResult.None? then (st, Failure(NullPointer))
    else if st.servedRecords < |st.materializedResult.value| then (st, Success(!st.cancelled))
    else
      var terminal := if st.error.Some? then OnError(st.error.value) else OnResultCompleted;
      DeliverSingle(st.events, terminal, inputs.failures);
      var (events, thrown) := Deliver(st.events, [terminal], inputs.failures);
      if thrown.Some? then (st.(events := events), Failure(Thrown(thrown.value)))
      else (st.(events := events), Success(false))
  }

  /** Delivering a concatenation: the first part, then, unless it threw, the second. */
  lemma {:induction false} DeliverConcatenation(events: seq<Event>, first: seq<Event>, second: seq<Event>,
                                                failures: map<nat, Throwable>)
    ensures var (log, thrown) := Deliver(events, first, failures);
            Deliver(events, first + second, failures) ==
              if thrown.Some? then (log, thrown) else Deliver(log, second, failures)
    decreases |first|
  {
    if first != [] {
      assert (first + second)[0] == first[0];
      assert (first + second)[1..] == first[1..] + second;
      DeliverConcatenation(events + [first[0]], first[1..], second, failures);
    } else {
      assert first + second == second;
    }
  }

  /** Delivering one callback is one step of Deliver. */
  lemma DeliverOne(events: seq<Event>, e: Event, rest: seq<Event>, failures: map<nat, Throwable>)
    ensures Deliver(events, [e] + rest, failures) ==
      if |events| in failures then (events + [e], Some(failures[|events|]))
      else Deliver(events + [e], rest, failures)
  {
    assert ([e] + rest)[1..] == rest;
  }

  /** A single callback: it is logged, and it throws what the subscriber throws at that position. */
  lemma DeliverSingle(events: seq<Event>, e: Event, failures: map<nat, Throwable>)
    ensures Deliver(events, [e], failures) == (events + [e], ThrownAt(failures, |events|))
  {
    DeliverOne(events, e, [], failures);
    assert [e] + [] == [e];
  }

  class NaiveQuerySubscription {
    var requestedRecords: int
    var servedRecords: int
    var materializedResult: Option<seq<Record>>
    var error: Option<Throwable>
    var cancelled: bool
    const subscriber: QuerySubscriber
    const records: seq<Record>
    const acceptFailure: Option<Throwable>
    const fieldCount: nat

    ghost function State(): Snapshot
      reads this, subscriber
    {
      Snapshot(requestedRecords, servedRecords, materializedResult, error, cancelled, subscriber.events)
    }

    function Inputs(): Upstream {
      Upstream(records, acceptFailure, fieldCount, subscriber.failures)
    }

    ghost predicate Valid()
      reads this, subscriber
    {
      ValidState(State())
    }

    constructor (subscriber: QuerySubscriber, records: seq<Record>, acceptFailure: Option<Throwable>, fieldCount: nat)
      ensures Valid() && this.subscriber == subscriber
      ensures Inputs() == Upstream(records, acceptFailure, fieldCount, subscriber.failures)
      ensures State() == Snapshot(0, 0, None, None, false, subscriber.events)
    {
      this.subscriber := subscriber;
      this.records := records;
      this.acceptFailure := acceptFailure;
      this.fieldCount := fieldCount;
      requestedRecords := 0;
      servedRecords := 0;
      materializedResult := None;
      error := None;
      cancelled := false;
    }

    method Request(numberOfRecords: int) returns (thrown: Option<Throwable>)
      requires Valid() && IsLong(numberOfRecords)
      modifies this, subscriber
      ensures Valid()
      ensures (State(), thrown) == AfterRequest(old(State()), numberOfRecords, Inputs())
    {
      requestedRecords := CheckForOverflow(WrapLong(requestedRecords + numberOfRecords));
      thrown := MaterializeIfNecessary();
      if thrown.Some? {
        return;
      }
      ServeResults();
    }

    method Cancel()
      modifies this
      ensures State() == old(State()).(cancelled := true)
    {
      cancelled := true;
    }

    method Await() returns (r: Result<bool, Raised>)
      requires Valid()
      modifies subscriber
      ensures Valid()
      ensures (State(), r) == AfterAwait(old(State()), Inputs())
    {
      if materializedResult.None? {
        return Failure(NullPointer);
      }
      var hasMore := servedRecords < |materializedResult.value|;
      if !hasMore {
        var thrown;
        if error.Some? {
          DeliverSingle(subscriber.events, OnError(error.value), subscriber.failures);
          thrown := subscriber.Notify(OnError(error.value));
        } else {
          DeliverSingle(subscriber.events, OnResultCompleted, subscriber.failures);
          thrown := subscriber.Notify(OnResultCompleted);
        }
        if thrown.Some? {
          return Failure(Thrown(thrown.value));
        }
      }
      r := Success(hasMore && !cancelled);
    }

    method MaterializeIfNecessary() returns (thrown: Option<Throwable>)
      requires Valid()
      modifies this, subscriber
      ensures Valid()
      ensures (State(), thrown) == AfterMaterialize(old(State()), Inputs())
    {
      if materializedResult.Some? {
        return None;
      }
      materializedResult := Some([]);
      // accept(visitor): the visitor appends each visited record to the buffer
      var i := 0;
      while i < |records|
        invariant 0 <= i <= |records|
        invariant materializedResult == Some(records[..i])
        invariant servedRecords == old(servedRecords) && error == old(error)
        invariant requestedRecords == old(requestedRecords) && cancelled == old(cancelled)
        invariant subscriber.events == old(subscriber.events)
      {
        assert records[..i + 1] == records[..i] + [records[i]];
        materializedResult := Some(materializedResult.value + [records[i]]);
        i := i + 1;
      }
      assert records[..i] == records;
      if acceptFailure.Some? {
        if !InstanceOf(acceptFailure.value, ExceptionClass) {
          return acceptFailure;
        }
        error := acceptFailure;
      }
      DeliverSingle(subscriber.events, OnResult(fieldCount), subscriber.failures);
      thrown := subscriber.Notify(OnResult(fieldCount));
    }

    /**
     * serveResults: the loop over the records; a throwable from any callback
     * ends it (the catch around the loop), becomes the error and marks the
     * whole buffer as served.
     */
    method ServeResults()
      requires Valid() && materializedResult.Some?
      modifies this, subscriber
      ensures State() == AfterServe(old(State()), subscriber.failures)
    {
      var buffer := materializedResult.value;
      ghost var st0 := State();
      ghost var failures := subscriber.failures;
      ghost var target := ServeTarget(st0);
      ghost var outcome := Deliver(st0.events, ServeEvents(buffer, st0.servedRecords, target), failures);
      while servedRecords < requestedRecords && servedRecords < |buffer|
        invariant st0.servedRecords <= servedRecords <= target
        invariant Deliver(subscriber.events, ServeEvents(buffer, servedRecords, target), failures) == outcome
        invariant materializedResult == Some(buffer) && error == st0.error
        invariant requestedRecords == st0.requestedRecords && cancelled == st0.cancelled
        decreases |buffer| - servedRecords
      {
        ghost var rest := ServeEvents(buffer, servedRecords + 1, target);
        DeliverConcatenation(subscriber.events, RecordEvents(buffer[servedRecords]), rest, failures);
        var thrown := ServeRecord(buffer[servedRecords]);
        if thrown.Some? {
          // the catch block
          error := thrown;
          servedRecords := |buffer|;
          return;
        }
        servedRecords := servedRecords + 1;
      }
    }

    /**
     * One pass of the serving loop's body: onRecord, onField for each field,
     * onRecordCompleted, stopping at the first callback that throws.
     */
    method ServeRecord(record: Record) returns (thrown: Option<Throwable>)
      modifies subscriber
      ensures (subscriber.events, thrown) == Deliver(old(subscriber.events), RecordEvents(record), subscriber.failures)
    {
      ghost var outcome := Deliver(subscriber.events, RecordEvents(record), subscriber.failures);
      assert RecordEvents(record) == [OnRecord] + (FieldEvents(record) + [OnRecordCompleted]);
      assert record[0..] == record;
      DeliverOne(subscriber.events, OnRecord, FieldEvents(record) + [OnRecordCompleted], subscriber.failures);
      thrown := subscriber.Notify(OnRecord);
      var j := 0;
      while thrown.None? && j < |record|
        invariant j <= |record|
        invariant thrown.None? ==>
          Deliver(subscriber.events, FieldEvents(record[j..]) + [OnRecordCompleted], subscriber.failures) == outcome
        invariant thrown.Some? ==> (subscriber.events, thrown) == outcome
      {
        assert record[j..][1..] == record[j + 1..];
        assert FieldEvents(record[j..]) + [OnRecordCompleted] ==
               [OnField(record[j])] + (FieldEvents(record[j + 1..]) + [OnRecordCompleted]);
        DeliverOne(subscriber.events, OnField(record[j]), FieldEvents(record[j + 1..]) + [OnRecordCompleted],
                   subscriber.failures);
        thrown := subscriber.Notify(OnField(record[j]));
        j := j + 1;
      }
      if thrown.None? {
        assert record[j..] == [];
        DeliverOne(subscriber.events, OnRecordCompleted, [], subscriber.failures);
        thrown := subscriber.Notify(OnRecordCompleted);
      }
    }
  }

  /**
   * The demand never decreases below zero or exceeds Long.MAX_VALUE: a sum
   * that leaves the range of non-negative longs, upwards or downwards,
   * saturates at Long.MAX_VALUE, and a non-negative request never lowers it.
   */
  lemma DemandSaturates(requestedRecords: int, numberOfRecords: int)
    requires 0 <= requestedRecords <= LongMax && IsLong(numberOfRecords)
    ensures RequestedAfter(requestedRecords, numberOfRecords) ==
      if 0 <= requestedRecords + numberOfRecords <= LongMax then requestedRecords + numberOfRecords else LongMax
    ensures numberOfRecords >= 0 ==> RequestedAfter(requestedRecords, numberOfRecords) >= requestedRecords
  {
  }

  /** The first position in [lo, hi) at which the subscriber throws, or hi when none does. */
  function FirstFailure(failures: map<nat, Throwable>, lo: nat, hi: nat): (k: nat)
    requires lo <= hi
    ensures lo <= k <= hi
    ensures forall p :: lo <= p < k ==> p !in failures
    ensures k < hi ==> k in failures
    decreases hi - lo
  {
    if lo == hi then hi
    else if lo in failures then lo
    else FirstFailure(failures, lo + 1, hi)
  }

  /**
   * Deliver against a direct description: every planned callback is made up
   * to and including the first one that throws, and that one's throwable is
   * the outcome; with none throwing, all are made and nothing is thrown.
   */
  lemma {:induction false} DeliverStopsAtFirstFailure(events: seq<Event>, calls: seq<Event>,
                                                      failures: map<nat, Throwable>)
    ensures var k := FirstFailure(failures, |events|, |events| + |calls|);
            Deliver(events, calls, failures) ==
              if k == |events| + |calls| then (events + calls, None)
              else (events + calls[..k - |events| + 1], Some(failures[k]))
    decreases |calls|
  {
    if calls != [] && |events| !in failures {
      DeliverStopsAtFirstFailure(events + [calls[0]], calls[1..], failures);
      var k := FirstFailure(failures, |events| + 1, |events| + |calls|);
      assert FirstFailure(failures, |events|, |events| + |calls|) == k;
      assert events + [calls[0]] + calls[1..] == events + calls;
      if k < |events| + |calls| {
        assert events + [calls[0]] + calls[1..][..k - |events|] == events + calls[..k - |events| + 1];
      }
    } else if calls == [] {
      assert events + calls == events;
    } else {
      assert calls[..1] == [calls[0]];
    }
  }

  /** How many records a log of callbacks opens. */
  function OpenedRecords(events: seq<Event>): nat {
    if events == [] then 0 else (if events[0].OnRecord? then 1 else 0) + OpenedRecords(events[1..])
  }

  lemma {:induction false} OpenedRecordsConcatenation(a: seq<Event>, b: seq<Event>)
    ensures OpenedRecords(a + b) == OpenedRecords(a) + OpenedRecords(b)
    decreases |a|
  {
    if a != [] {
      assert (a + b)[1..] == a[1..] + b;
      OpenedRecordsConcatenation(a[1..], b);
    } else {
      assert a + b == b;
    }
  }

  /** The field callbacks open no record and announce no result. */
  lemma {:induction false} FieldEventsAreFields(fields: seq<AnyValue>)
    ensures OpenedRecords(FieldEvents(fields)) == 0
    ensures forall i :: 0 <= i < |FieldEvents(fields)| ==> FieldEvents(fields)[i].OnField?
    decreases |fields|
  {
    if fields != [] {
      FieldEventsAreFields(fields[1..]);
      OpenedRecordsConcatenation([OnField(fields[0])], FieldEvents(fields[1..]));
    }
  }

  /** Serving buffer[lo..hi] opens exactly hi - lo records, and announces no result. */
  lemma {:induction false} ServeEventsShape(buffer: seq<Record>, lo: nat, hi: nat)
    requires lo <= hi <= |buffer|
    ensures OpenedRecords(ServeEvents(buffer, lo, hi)) == hi - lo
    ensures forall i :: 0 <= i < |ServeEvents(buffer, lo, hi)| ==> !ServeEvents(buffer, lo, hi)[i].OnResult?
    decreases hi - lo
  {
    if lo < hi {
      var record := buffer[lo];
      ServeEventsShape(buffer, lo + 1, hi);
      FieldEventsAreFields(record);
      OpenedRecordsConcatenation([OnRecord], FieldEvents(record));
      OpenedRecordsConcatenation([OnRecord] + FieldEvents(record), [OnRecordCompleted]);
      OpenedRecordsConcatenation(RecordEvents(record), ServeEvents(buffer, lo + 1, hi));
      var r := RecordEvents(record);
      assert forall i :: 0 <= i < |r| ==> r[i] == OnRecord || r[i] == OnRecordCompleted || r[i].OnField?
        by {
          forall i | 0 <= i < |r|
            ensures r[i] == OnRecord || r[i] == OnRecordCompleted || r[i].OnField?
          {
            if 0 < i < |r| - 1 {
              assert r[i] == FieldEvents(record)[i - 1];
            }
          }
        }
    }
  }

  /** Deliver only appends, and what it appends is a prefix of the planned callbacks. */
  lemma {:induction false} DeliverAppendsPlanned(events: seq<Event>, calls: seq<Event>, failures: map<nat, Throwable>)
    ensures var log := Deliver(events, calls, failures).0;
            |events| <= |log| <= |events| + |calls| && log == events + calls[..|log| - |events|]
    decreases |calls|
  {
    if calls != [] && |events| !in failures {
      DeliverAppendsPlanned(events + [calls[0]], calls[1..], failures);
      var log := Deliver(events, calls, failures).0;
      assert events + [calls[0]] + calls[1..][..|log| - |events| - 1] == events + calls[..|log| - |events|];
    }
  }

  /**
   * serveResults with no throwing callback serves up to the demand (or the end
   * of the buffer) and makes every callback for those records; with one, it
   * stops right after that callback, records the throwable and marks every
   * record as served.
   */
  lemma ServeOutcome(st: Snapshot, failures: map<nat, Throwable>)
    requires ValidState(st) && st.materializedResult.Some?
    ensures var buffer := st.materializedResult.value;
            var planned := ServeEvents(buffer, st.servedRecords, ServeTarget(st));
            var k := FirstFailure(failures, |st.events|, |st.events| + |planned|);
            var r := AfterServe(st, failures);
            && r.requestedRecords == st.requestedRecords && r.cancelled == st.cancelled
            && r.materializedResult == st.materializedResult
            && (k == |st.events| + |planned| ==>
                  && r.servedRecords == (if st.servedRecords <= Min(st.requestedRecords, |buffer|)
                                         then Min(st.requestedRecords, |buffer|) else st.servedRecords)
                  && r.events == st.events + planned && r.error == st.error)
            && (k < |st.events| + |planned| ==>
                  && r.servedRecords == |buffer| && r.error == Some(failures[k])
                  && r.events == st.events + planned[..k - |st.events| + 1])
  {
    var buffer := st.materializedResult.value;
    DeliverStopsAtFirstFailure(st.events, ServeEvents(buffer, st.servedRecords, ServeTarget(st)), failures);
  }

  /**
   * materializeIfNecessary announces onResult(fieldCount) on the first call,
   * unless accept() throws something other than an Exception, and makes no
   * callback on later calls.
   */
  lemma MaterializeAnnouncesOnce(st: Snapshot, inputs: Upstream)
    requires ValidState(st)
    ensures var propagated := inputs.acceptFailure.Some? && !InstanceOf(inputs.acceptFailure.value, ExceptionClass);
            AfterMaterialize(st, inputs).0.events ==
              st.events + (if st.materializedResult.None? && !propagated then [OnResult(inputs.fieldCount)] else [])
  {
    DeliverSingle(st.events, OnResult(inputs.fieldCount), inputs.failures);
  }

  /**
   * materializeIfNecessary buffers every record accept() visits, also those
   * visited before accept() throws; an Exception (a RuntimeException among
   * them) becomes the error, any other throwable propagates. Later calls
   * change nothing.
   */
  lemma MaterializeKeepsRecordsAndError(st: Snapshot, inputs: Upstream)
    requires ValidState(st)
    ensures var (r, thrown) := AfterMaterialize(st, inputs);
            var failure := inputs.acceptFailure;
            && (st.materializedResult.Some? ==> r == st && thrown.None?)
            && (st.materializedResult.None? ==>
                  && r.materializedResult == Some(inputs.records)
                  && r.servedRecords == st.servedRecords && r.requestedRecords == st.requestedRecords
                  && r.error == (if failure.Some? && InstanceOf(failure.value, ExceptionClass) then failure else st.error)
                  && (failure.Some? && !InstanceOf(failure.value, ExceptionClass) ==> thrown == failure))
  {
  }

  /** serveResults only appends callbacks, and none of them is onResult. */
  lemma ServeAnnouncesNoResult(st: Snapshot, failures: map<nat, Throwable>)
    requires ValidState(st) && st.materializedResult.Some?
    ensures var r := AfterServe(st, failures);
            && st.events <= r.events
            && forall i :: |st.events| <= i < |r.events| ==> !r.events[i].OnResult?
  {
    var buffer := st.materializedResult.value;
    var planned := ServeEvents(buffer, st.servedRecords, ServeTarget(st));
    DeliverAppendsPlanned(st.events, planned, failures);
    ServeEventsShape(buffer, st.servedRecords, ServeTarget(st));
    var r := AfterServe(st, failures);
    forall i | |st.events| <= i < |r.events|
      ensures !r.events[i].OnResult?
    {
      assert r.events[i] == planned[i - |st.events|];
    }
  }

  /**
   * onResult is announced once, on the first request: of the callbacks a
   * request makes, only the first can be onResult, and it is exactly when the
   * result had not been materialised before. Earlier callbacks stay as they were.
   */
  lemma OnResultOnlyOnFirstRequest(st: Snapshot, numberOfRecords: int, inputs: Upstream)
    requires ValidState(st) && IsLong(numberOfRecords)
    ensures var r := AfterRequest(st, numberOfRecords, inputs).0;
            && st.events <= r.events
            && forall i :: |st.events| <= i < |r.events| ==>
                 (r.events[i].OnResult? <==> i == |st.events| && st.materializedResult.None?)
  {
    var demanded := st.(requestedRecords := RequestedAfter(st.requestedRecords, numberOfRecords));
    var (materialized, thrown) := AfterMaterialize(demanded, inputs);
    MaterializeAnnouncesOnce(demanded, inputs);
    if thrown.None? {
      ServeAnnouncesNoResult(materialized, inputs.failures);
    }
  }

  /** Serving that throws nothing opens one record per record it serves. */
  lemma OneRecordOpenedPerRecordServed(st: Snapshot, failures: map<nat, Throwable>)
    requires ValidState(st) && st.materializedResult.Some?
    requires Deliver(st.events, ServeEvents(st.materializedResult.value, st.servedRecords, ServeTarget(st)),
                     failures).1.None?
    ensures var r := AfterServe(st, failures);
            OpenedRecords(r.events) == OpenedRecords(st.events) + (r.servedRecords - st.servedRecords)
  {
    var buffer := st.materializedResult.value;
    var planned := ServeEvents(buffer, st.servedRecords, ServeTarget(st));
    DeliverStopsAtFirstFailure(st.events, planned, failures);
    ServeEventsShape(buffer, st.servedRecords, ServeTarget(st));
    OpenedRecordsConcatenation(st.events, planned);
  }

  /**
   * Once every buffered record has been served (also after a callback threw),
   * a request only changes the demand: no callback is made and nothing is thrown.
   */
  lemma NothingMoreAfterEverythingServed(st: Snapshot, numberOfRecords: int, inputs: Upstream)
    requires ValidState(st) && IsLong(numberOfRecords)
    requires st.materializedResult.Some? && st.servedRecords == |st.materializedResult.value|
    ensures AfterRequest(st, numberOfRecords, inputs) ==
      (st.(requestedRecords := RequestedAfter(st.requestedRecords, numberOfRecords)), None)
  {
  }

  /**
   * await() reports more only while records remain and the subscription is
   * not cancelled, and calls onError or onResultCompleted, once per call, only
   * when none remain.
   */
  lemma AwaitReportsRemaining(st: Snapshot, inputs: Upstream)
    requires ValidState(st) && st.materializedResult.Some?
    ensures var (r, outcome) := AfterAwait(st, inputs);
            var remaining := st.servedRecords < |st.materializedResult.value|;
            && (outcome == Success(true) <==> remaining && !st.cancelled)
            && (remaining ==> r == st)
            && (!remaining ==> r.events == st.events + [if st.error.Some? then OnError(st.error.value) else OnResultCompleted])
  {
    DeliverSingle(st.events, if st.error.Some? then OnError(st.error.value) else OnResultCompleted, inputs.failures);
  }
}
