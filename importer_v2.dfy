/**
 * The new importer (`main.go`): each hour's archive is decoded value by
 * value into one batch, which is sorted by timestamp and handed over a
 * channel to a separate stream loop that sends each batch to the table in
 * one `Stream` session. A bad archive only costs its own hour: it is
 * reported and the range goes on.
 */
module ImporterV2 {
  import opened Wrappers
  import opened Json
  import opened Clock
  import opened ArchiveUrl
  import opened Records
  import opened Seqs
  import opened Sky
  import opened Provisioning
  import opened Cli
  import opened Outcomes
  import opened BatchSort

  /**
   * What `http.Get`, gzip and `json.Decoder` yield for a URL: no response,
   * a body that is not gzip, or the values the decoder returns one after
   * another and how the stream ends after them (`io.EOF`, or a decoding
   * or read error).
   */
  datatype Archive = Unreachable | NotGzip | Body(values: seq<Value>, end: StreamEnd)

  /** The calls into code outside the model: the download and RFC 3339 parsing. */
  datatype World = World(fetch: string -> Archive, parse: string -> Option<Time>)

  /** `decoder.Decode(&data)` fails on a value that is neither an object nor null. */
  function NotRecord(): Value -> bool {
    v => AsRecord(v).None?
  }

  /** The event a decoded value maps to, if it is a record that maps to one. */
  function EventOf(v: Value, parse: string -> Option<Time>): (r: Option<UserEvent>)
    ensures r.Some? <==> AsRecord(v).Some? && MapV2(AsRecord(v).value, parse).Ok?
    ensures r.Some? ==> MapV2(AsRecord(v).value, parse) == Ok(r.value)
    ensures r.Some? ==> (r.value.username, r.value.event.timestamp) == Admit(AsRecord(v).value, parse).value
  {
    match AsRecord(v)
    case Some(fields) => if MapV2(fields, parse).Ok? then Some(MapV2(fields, parse).value) else None
    case None => None
  }

  /** Why a decoded value is dropped, if it is a record that does not map to an event. */
  function DropOf(v: Value, parse: string -> Option<Time>): (r: Option<DropReason>)
    ensures r.Some? <==> AsRecord(v).Some? && MapV2(AsRecord(v).value, parse).Err?
    ensures r.Some? ==> MapV2(AsRecord(v).value, parse) == Err(r.value)
  {
    match AsRecord(v)
    case Some(fields) => if MapV2(fields, parse).Err? then Some(MapV2(fields, parse).error) else None
    case None => None
  }

  /** The events of the given values, in decoding order. */
  function Accepted(values: seq<Value>, parse: string -> Option<Time>): seq<UserEvent>
    decreases |values|
  {
    if values == [] then []
    else
      var v := values[|values| - 1];
      Accepted(values[..|values| - 1], parse) + if EventOf(v, parse).Some? then [EventOf(v, parse).value] else []
  }

  /** The warnings for the dropped values, numbered from 1. */
  function Skips(values: seq<Value>, parse: string -> Option<Time>): seq<Warning>
    decreases |values|
  {
    if values == [] then []
    else
      var v := values[|values| - 1];
      Skips(values[..|values| - 1], parse) + if DropOf(v, parse).Some? then [Skipped(|values|, DropOf(v, parse).value)] else []
  }

  lemma ValueStep(values: seq<Value>, i: nat, parse: string -> Option<Time>)
    requires i < |values|
    ensures Accepted(values[..i + 1], parse) ==
      Accepted(values[..i], parse) + if EventOf(values[i], parse).Some? then [EventOf(values[i], parse).value] else []
    ensures Skips(values[..i + 1], parse) ==
      Skips(values[..i], parse) + if DropOf(values[i], parse).Some? then [Skipped(i + 1, DropOf(values[i], parse).value)] else []
  {
    assert values[..i + 1][..i] == values[..i];
  }

  /**
   * One hour: the batch of events in decoding order when the whole archive
   * decoded, the warnings written, and the error that ended the hour.
   */
  datatype HourRun = HourRun(batch: Option<seq<UserEvent>>, warnings: seq<Warning>, error: Option<HourError>)

  /**
   * The decoding loop of `getRawData`: values up to the first one that is
   * not a record are handled; that one, or a broken end of stream, fails
   * the hour with the count of the value it was reading. Dropped records
   * are only reported when verbose.
   */
  function DecodeBody(values: seq<Value>, end: StreamEnd, parse: string -> Option<Time>, verbose: bool): HourRun {
    var k := FirstWhere(values, NotRecord());
    var warnings := if verbose then Skips(values[..k], parse) else [];
    if k < |values| then HourRun(None, warnings, Some(DecodeFailed(k + 1)))
    else if end == Broken then HourRun(None, warnings, Some(DecodeFailed(|values| + 1)))
    else HourRun(Some(Accepted(values, parse)), warnings, None)
  }

  /** `getRawData`: the URL is written to standard error before the download. */
  function RawData(date: Time, w: World, verbose: bool): HourRun {
    var url := UrlOf(date);
    match w.fetch(url)
    case Unreachable => HourRun(None, [Fetching(url)], Some(HttpFailed))
    case NotGzip => HourRun(None, [Fetching(url)], Some(GzipInvalid))
    case Body(values, end) =>
      var body := DecodeBody(values, end, w.parse, verbose);
      HourRun(body.batch, [Fetching(url)] + body.warnings, body.error)
  }

  /** The `chan UserEvents` between the hour loop and the stream loop. */
  class Channel {
    /** Batches sent and not yet received, oldest first. */
    var buffered: seq<seq<UserEvent>>

    constructor ()
      ensures buffered == []
    {
      buffered := [];
    }

    /** `c <- events`. */
    method Send(batch: seq<UserEvent>)
      modifies this
      ensures buffered == old(buffered) + [batch]
    {
      buffered := buffered + [batch];
    }

    /** `<-c`: the oldest batch not yet received. */
    method Receive() returns (batch: seq<UserEvent>)
      requires buffered != []
      modifies this
      ensures batch == old(buffered)[0] && buffered == old(buffered)[1..]
    {
      batch := buffered[0];
      buffered := buffered[1..];
    }
  }

  /**
   * The decoding loop of `getRawData`, one `decoder.Decode` per iteration:
   * it collects the events and changes nothing else.
   */
  method DecodeValues(values: seq<Value>, end: StreamEnd, parse: string -> Option<Time>, verbose: bool)
    returns (error: Option<HourError>, warnings: seq<Warning>, events: seq<UserEvent>)
    ensures var run := DecodeBody(values, end, parse, verbose);
      error == run.error && warnings == run.warnings && (error.None? ==> Some(events) == run.batch)
  {
    ghost var k := FirstWhere(values, NotRecord());
    ghost var reported := if verbose then Skips(values[..k], parse) else [];
    assert DecodeBody(values, end, parse, verbose) ==
      if k < |values| then HourRun(None, reported, Some(DecodeFailed(k + 1)))
      else if end == Broken then HourRun(None, reported, Some(DecodeFailed(|values| + 1)))
      else HourRun(Some(Accepted(values, parse)), reported, None);
    var decoded := 0;
    events, warnings := [], [];
    while true
      invariant decoded <= k <= |values|
      invariant events == Accepted(values[..decoded], parse)
      invariant warnings == if verbose then Skips(values[..decoded], parse) else []
      decreases |values| - decoded
    {
      var lineNumber := decoded + 1;
      if decoded == |values| {
        assert values[..decoded] == values;
        if end == Broken {
          return Some(DecodeFailed(lineNumber)), warnings, events;
        }
        return None, warnings, events;
      }
      ValueStep(values, decoded, parse);
      FirstWhereStep(values, NotRecord(), decoded);
      var malformed, event, skipped := HandleValue(values[decoded], lineNumber, parse);
      if malformed {
        return Some(DecodeFailed(lineNumber)), warnings, events;
      }
      events := events + event;
      if verbose {
        warnings := warnings + skipped;
      }
      decoded := decoded + 1;
    }
  }

  /** The body of the decoding loop for one decoded value. */
  method HandleValue(v: Value, lineNumber: nat, parse: string -> Option<Time>)
    returns (malformed: bool, events: seq<UserEvent>, warnings: seq<Warning>)
    ensures malformed == NotRecord()(v)
    ensures events == if EventOf(v, parse).Some? then [EventOf(v, parse).value] else []
    ensures warnings == if DropOf(v, parse).Some? then [Skipped(lineNumber, DropOf(v, parse).value)] else []
  {
    var data := AsRecord(v);
    if data.None? {
      return true, [], [];
    }
    var mapped := MapV2(data.value, parse);
    if mapped.Ok? {
      return false, [mapped.value], [];
    }
    return false, [], [Skipped(lineNumber, mapped.error)];
  }

  /**
   * `getRawData`: a successful hour sends exactly one batch, its events
   * sorted by timestamp; a failed hour sends nothing.
   */
  method GetRawData(date: Time, c: Channel, w: World, verbose: bool) returns (error: Option<HourError>, warnings: seq<Warning>)
    modifies c
    ensures var run := RawData(date, w, verbose);
      error == run.error && warnings == run.warnings &&
      (error.Some? ==> c.buffered == old(c.buffered)) &&
      (error.None? ==>
         run.batch.Some? && |c.buffered| == |old(c.buffered)| + 1 &&
         c.buffered[..|old(c.buffered)|] == old(c.buffered) && SortsTo(run.batch.value, c.buffered[|old(c.buffered)|]))
  {
    var url := UrlOf(date);
    var archive := w.fetch(url);
    if archive.Unreachable? {
      return Some(HttpFailed), [Fetching(url)];
    }
    if archive.NotGzip? {
      return Some(GzipInvalid), [Fetching(url)];
    }
    var decoded, events;
    error, decoded, events := DecodeValues(archive.values, archive.end, w.parse, verbose);
    warnings := [Fetching(url)] + decoded;
    if error.Some? {
      return;
    }
    var a := new UserEvent[|events|](i requires 0 <= i < |events| => events[i]);
    assert a[..] == events;
    SortByTime(a);
    c.Send(a[..]);
  }

  /** The requests of one `Stream` session: every event of the batch, in order. */
  function BatchRequests(table: string, batch: seq<UserEvent>): (rs: seq<Request>)
    ensures forall q :: q in rs ==> q.StreamEvent? && q.table == table
    decreases |batch|
  {
    if batch == [] then []
    else
      var e := batch[|batch| - 1];
      BatchRequests(table, batch[..|batch| - 1]) + [StreamEvent(table, e.username, e.event)]
  }

  /** "[L i] Unable to add event" for each refused event, i counted from 1 within the batch. */
  function BatchWarnings(table: string, batch: seq<UserEvent>, refuses: Request -> bool): seq<Warning>
    decreases |batch|
  {
    if batch == [] then []
    else
      var e := batch[|batch| - 1];
      BatchWarnings(table, batch[..|batch| - 1], refuses) +
      (if refuses(StreamEvent(table, e.username, e.event)) then [Unaddable(|batch|)] else [])
  }

  lemma EventStep(table: string, batch: seq<UserEvent>, i: nat, refuses: Request -> bool)
    requires i < |batch|
    ensures BatchRequests(table, batch[..i + 1]) ==
      BatchRequests(table, batch[..i]) + [StreamEvent(table, batch[i].username, batch[i].event)]
    ensures BatchWarnings(table, batch[..i + 1], refuses) == BatchWarnings(table, batch[..i], refuses) +
      (if refuses(StreamEvent(table, batch[i].username, batch[i].event)) then [Unaddable(i + 1)] else [])
  {
    assert batch[..i + 1][..i] == batch[..i];
  }

  /** The requests of the stream loop over the batches, in the order received. */
  function StreamRequests(table: string, batches: seq<seq<UserEvent>>): (rs: seq<Request>)
    ensures forall q :: q in rs ==> q.StreamEvent? && q.table == table
    decreases |batches|
  {
    if batches == [] then []
    else StreamRequests(table, batches[..|batches| - 1]) + BatchRequests(table, batches[|batches| - 1])
  }

  function StreamWarnings(table: string, batches: seq<seq<UserEvent>>, refuses: Request -> bool): seq<Warning>
    decreases |batches|
  {
    if batches == [] then []
    else StreamWarnings(table, batches[..|batches| - 1], refuses) + BatchWarnings(table, batches[|batches| - 1], refuses)
  }

  lemma BatchStep(table: string, batches: seq<seq<UserEvent>>, i: nat, refuses: Request -> bool)
    requires i < |batches|
    ensures StreamRequests(table, batches[..i + 1]) == StreamRequests(table, batches[..i]) + BatchRequests(table, batches[i])
    ensures StreamWarnings(table, batches[..i + 1], refuses) ==
      StreamWarnings(table, batches[..i], refuses) + BatchWarnings(table, batches[i], refuses)
  {
    assert batches[..i + 1][..i] == batches[..i];
  }

  /** The function passed to `t.Stream`: a failed event is reported and the batch goes on. */
  method StreamBatch(server: Server, table: string, events: seq<UserEvent>) returns (warnings: seq<Warning>)
    modifies server
    ensures server.calls == old(server.calls) + BatchRequests(table, events)
    ensures warnings == BatchWarnings(table, events, server.refuses)
    ensures server.tables == old(server.tables)
  {
    ghost var calls0 := server.calls;
    warnings := [];
    for i := 0 to |events|
      invariant server.calls == calls0 + BatchRequests(table, events[..i])
      invariant warnings == BatchWarnings(table, events[..i], server.refuses)
      invariant server.tables == old(server.tables)
    {
      EventStep(table, events, i, server.refuses);
      AppendAssoc(calls0, BatchRequests(table, events[..i]), [StreamEvent(table, events[i].username, events[i].event)]);
      var ok := server.StreamEvent(table, events[i].username, events[i].event);
      if !ok {
        warnings := warnings + [Unaddable(i + 1)];
      }
    }
    assert events[..|events|] == events;
  }

  /**
   * `stream`: receives the batches in the order they were sent and streams
   * each of them. The source loops forever waiting for more; the model
   * stops when the channel is empty.
   */
  method Stream(server: Server, table: string, c: Channel) returns (warnings: seq<Warning>)
    modifies server, c
    ensures c.buffered == []
    ensures server.calls == old(server.calls) + StreamRequests(table, old(c.buffered))
    ensures warnings == StreamWarnings(table, old(c.buffered), server.refuses)
    ensures server.tables == old(server.tables)
  {
    ghost var queued := c.buffered;
    ghost var calls0 := server.calls;
    ghost var received := 0;
    warnings := [];
    while c.buffered != []
      invariant received <= |queued| && c.buffered == queued[received..]
      invariant server.calls == calls0 + StreamRequests(table, queued[..received])
      invariant warnings == StreamWarnings(table, queued[..received], server.refuses)
      invariant server.tables == old(server.tables)
      decreases |c.buffered|
    {
      BatchStep(table, queued, received, server.refuses);
      AppendAssoc(calls0, StreamRequests(table, queued[..received]), BatchRequests(table, queued[received]));
      var events := c.Receive();
      var batchWarnings := StreamBatch(server, table, events);
      warnings := warnings + batchWarnings;
      received := received + 1;
    }
    assert queued[..received] == queued;
  }

  /** `getRawData` for every hour, as a function of the hour. */
  function HourStep(w: World, verbose: bool): Time -> HourRun {
    date => RawData(date, w, verbose)
  }

  /** The batches the hour loop sends, in decoding order, and the warnings it writes. */
  datatype RangeRun = RangeRun(batches: seq<seq<UserEvent>>, warnings: seq<Warning>)

  function BatchOf(run: HourRun): seq<seq<UserEvent>> {
    if run.batch.Some? then [run.batch.value] else []
  }

  /**
   * The loop of `main` over the hours: every hour is tried; a failed one
   * is reported as an invalid file and sends no batch.
   */
  function ImportHours(hours: seq<Time>, hour: Time -> HourRun): RangeRun
    decreases |hours|
  {
    if hours == [] then RangeRun([], [])
    else
      var done := ImportHours(hours[..|hours| - 1], hour);
      var last := hour(hours[|hours| - 1]);
      if last.error.Some? then RangeRun(done.batches, done.warnings + last.warnings + [InvalidFile(last.error.value)])
      else RangeRun(done.batches + BatchOf(last), done.warnings + last.warnings)
  }

  lemma HourStepLemma(hours: seq<Time>, hour: Time -> HourRun, i: nat)
    requires i < |hours|
    ensures var done, last := ImportHours(hours[..i], hour), hour(hours[i]);
      ImportHours(hours[..i + 1], hour) ==
        if last.error.Some? then RangeRun(done.batches, done.warnings + last.warnings + [InvalidFile(last.error.value)])
        else RangeRun(done.batches + BatchOf(last), done.warnings + last.warnings)
  {
    assert hours[..i + 1][..i] == hours[..i];
  }

  /** Each batch sent is a sorted permutation of the corresponding batch in decoding order. */
  predicate SortedCopies(batches: seq<seq<UserEvent>>, sent: seq<seq<UserEvent>>) {
    |sent| == |batches| && forall i :: 0 <= i < |batches| ==> SortsTo(batches[i], sent[i])
  }

  /**
   * The channel holds what it held before, followed by a sorted copy of
   * each of the batches, in order.
   */
  predicate SentAfter(queued: seq<seq<UserEvent>>, buffered: seq<seq<UserEvent>>, batches: seq<seq<UserEvent>>) {
    |buffered| >= |queued| && buffered[..|queued|] == queued && SortedCopies(batches, buffered[|queued|..])
  }

  /** Sending the sorted copy of one more batch keeps the channel in step. */
  lemma SentOneMore(queued: seq<seq<UserEvent>>, before: seq<seq<UserEvent>>, after: seq<seq<UserEvent>>,
                    batches: seq<seq<UserEvent>>, batch: seq<UserEvent>)
    requires SentAfter(queued, before, batches)
    requires |after| == |before| + 1 && after[..|before|] == before && SortsTo(batch, after[|before|])
    ensures SentAfter(queued, after, batches + [batch])
  {
    assert after[|queued|..] == before[|queued|..] + [after[|before|]];
  }

  /** One more hour keeps the channel in step with the batches of the hour loop. */
  lemma RangeStep(hs: seq<Time>, step: Time -> HourRun, i: nat, queued: seq<seq<UserEvent>>,
                  before: seq<seq<UserEvent>>, after: seq<seq<UserEvent>>)
    requires i < |hs|
    requires SentAfter(queued, before, ImportHours(hs[..i], step).batches)
    requires step(hs[i]).error.Some? ==> after == before
    requires step(hs[i]).error.None? ==>
      step(hs[i]).batch.Some? && |after| == |before| + 1 && after[..|before|] == before &&
      SortsTo(step(hs[i]).batch.value, after[|before|])
    ensures SentAfter(queued, after, ImportHours(hs[..i + 1], step).batches)
  {
    HourStepLemma(hs, step, i);
    var last := step(hs[i]);
    if last.error.None? {
      SentOneMore(queued, before, after, ImportHours(hs[..i], step).batches, last.batch.value);
    }
  }

  /** The loop of `main` over the hours of the range. */
  method ImportRange(c: Channel, start: Time, end: Time, w: World, verbose: bool) returns (warnings: seq<Warning>)
    modifies c
    ensures var run := ImportHours(Hours(start, end), HourStep(w, verbose));
      warnings == run.warnings && SentAfter(old(c.buffered), c.buffered, run.batches)
  {
    ghost var hs := Hours(start, end);
    ghost var step := HourStep(w, verbose);
    ghost var queued := c.buffered;
    var hours := HourCount(start, end);
    warnings := [];
    var i := 0;
    assert queued[..|queued|] == queued && queued[|queued|..] == [];
    while i < hours
      invariant i <= |hs|
      invariant hours <= 0 ==> i == 0
      invariant warnings == ImportHours(hs[..i], step).warnings
      invariant SentAfter(queued, c.buffered, ImportHours(hs[..i], step).batches)
    {
      var date := HourAt(start, i);
      assert date == hs[i];
      HourStepLemma(hs, step, i);
      ghost var next := ImportHours(hs[..i + 1], step);
      ghost var last := step(date);
      ghost var before := c.buffered;
      var error, hourWarnings := GetRawData(date, c, w, verbose);
      assert last == RawData(date, w, verbose);
      RangeStep(hs, step, i, queued, before, c.buffered);
      warnings := warnings + hourWarnings;
      if error.Some? {
        warnings := warnings + [InvalidFile(error.value)];
      }
      assert warnings == next.warnings;
      i := i + 1;
    }
    assert hs[..i] == hs;
  }

  /**
   * `main`: parse the dates, set up the table, start the stream loop and
   * import hour by hour. Returns the exit status, the warnings of the hour
   * loop, the batches as sent (each sorted) and the warnings of the stream
   * loop.
   */
  method Run(server: Server, args: seq<string>, tableName: string, overwrite: bool, verbose: bool, w: World)
    returns (status: int, warnings: seq<Warning>, sent: seq<seq<UserEvent>>, streamWarnings: seq<Warning>)
    modifies server
    ensures match ParseRange(args, w.parse)
      case Err(e) =>
        status == 1 && warnings == [BadArguments(e)] && sent == [] && streamWarnings == [] &&
        server.calls == old(server.calls) && server.tables == old(server.tables)
      case Ok(range) =>
        var setup := SetupSpec(old(server.tables), tableName, overwrite, server.refuses);
        server.tables == setup.tables &&
        if setup.err.Some? then
          status == 1 && warnings == [SetupFailed(setup.err.value)] && sent == [] && streamWarnings == [] &&
          server.calls == old(server.calls) + setup.calls
        else
          var run := ImportHours(Hours(range.start, range.end), HourStep(w, verbose));
          status == 0 && warnings == run.warnings && SortedCopies(run.batches, sent) &&
          server.calls == old(server.calls) + setup.calls + StreamRequests(tableName, sent) &&
          streamWarnings == StreamWarnings(tableName, sent, server.refuses)
  {
    var parsed := ParseRange(args, w.parse);
    if parsed.Err? {
      return 1, [BadArguments(parsed.error)], [], [];
    }
    var range := parsed.value;
    var setupError := Setup(server, tableName, overwrite);
    if setupError.Some? {
      return 1, [SetupFailed(setupError.value)], [], [];
    }
    var c := new Channel();
    warnings := ImportRange(c, range.start, range.end, w, verbose);
    sent := c.buffered;
    streamWarnings := Stream(server, tableName, c);
    status := 0;
  }

  /**
   * A failed hour does not stop the range: the run over two stretches of
   * hours is the run over the first followed by the run over the second.
   */
  lemma {:induction false} RangeComposes(a: seq<Time>, b: seq<Time>, hour: Time -> HourRun)
    ensures ImportHours(a + b, hour) ==
      RangeRun(ImportHours(a, hour).batches + ImportHours(b, hour).batches,
               ImportHours(a, hour).warnings + ImportHours(b, hour).warnings)
    decreases |b|
  {
    if b == [] {
      assert a + b == a;
    } else {
      var shorter := b[..|b| - 1];
      assert (a + b)[..|a + b| - 1] == a + shorter;
      assert (a + b)[|a + b| - 1] == b[|b| - 1];
      RangeComposes(a, shorter, hour);
      var A, B := ImportHours(a, hour), ImportHours(shorter, hour);
      var last := hour(b[|b| - 1]);
      AppendAssoc(A.batches, B.batches, BatchOf(last));
      AppendAssoc(A.warnings, B.warnings, last.warnings);
      if last.error.Some? {
        AppendAssoc(A.warnings, B.warnings + last.warnings, [InvalidFile(last.error.value)]);
      }
    }
  }

  /** When every hour succeeds, there is one batch per hour, in the order of the hours. */
  lemma {:induction false} OneBatchPerHour(hours: seq<Time>, hour: Time -> HourRun)
    requires forall i :: 0 <= i < |hours| ==> hour(hours[i]).error.None? && hour(hours[i]).batch.Some?
    ensures |ImportHours(hours, hour).batches| == |hours|
    ensures forall i :: 0 <= i < |hours| ==> ImportHours(hours, hour).batches[i] == hour(hours[i]).batch.value
    decreases |hours|
  {
    if hours != [] {
      var prefix := hours[..|hours| - 1];
      assert forall i :: 0 <= i < |prefix| ==> prefix[i] == hours[i];
      OneBatchPerHour(prefix, hour);
    }
  }

  /**
   * An hour sends a batch exactly when it succeeds; its first warning is
   * its URL; it fails the download or the decompression exactly when
   * `http.Get` or `gzip.NewReader` does.
   */
  lemma BatchIffSuccess(date: Time, w: World, verbose: bool)
    ensures RawData(date, w, verbose).batch.Some? <==> RawData(date, w, verbose).error.None?
    ensures RawData(date, w, verbose).warnings[0] == Fetching(UrlOf(date))
    ensures RawData(date, w, verbose).error == Some(HttpFailed) <==> w.fetch(UrlOf(date)).Unreachable?
    ensures RawData(date, w, verbose).error == Some(GzipInvalid) <==> w.fetch(UrlOf(date)).NotGzip?
  {
  }

  /**
   * An hour's body decodes exactly when every value is a record and the
   * stream ends cleanly; the batch is then the accepted events of all of it.
   */
  lemma DecodeSucceedsIff(values: seq<Value>, end: StreamEnd, parse: string -> Option<Time>, verbose: bool)
    ensures DecodeBody(values, end, parse, verbose).error.None? <==>
      end == Eof && forall i :: 0 <= i < |values| ==> AsRecord(values[i]).Some?
    ensures DecodeBody(values, end, parse, verbose).error.None? ==>
      DecodeBody(values, end, parse, verbose).batch == Some(Accepted(values, parse))
  {
    var k := FirstWhere(values, NotRecord());
    assert forall i :: 0 <= i < k ==> !NotRecord()(values[i]) && AsRecord(values[i]).Some?;
    assert k < |values| ==> NotRecord()(values[k]) && AsRecord(values[k]).None?;
    assert end != Broken ==> end == Eof;
  }

  /**
   * A decoding failure names the value it happened at, counted from 1:
   * every value before it was a record, and it is either a value that is
   * not one or the broken end of the stream.
   */
  lemma DecodeFailureNamesValue(values: seq<Value>, end: StreamEnd, parse: string -> Option<Time>, verbose: bool)
    requires DecodeBody(values, end, parse, verbose).error.Some?
    ensures var e := DecodeBody(values, end, parse, verbose).error.value;
      e.DecodeFailed? && 1 <= e.line <= |values| + 1 &&
      (forall i :: 0 <= i < e.line - 1 ==> AsRecord(values[i]).Some?) &&
      (e.line <= |values| ==> AsRecord(values[e.line - 1]).None?) &&
      (e.line == |values| + 1 ==> end == Broken)
  {
    var k := FirstWhere(values, NotRecord());
    assert forall i :: 0 <= i < k ==> !NotRecord()(values[i]);
  }

  /** Dropped records are reported only in verbose mode. */
  lemma QuietUnlessVerbose(values: seq<Value>, end: StreamEnd, parse: string -> Option<Time>)
    ensures DecodeBody(values, end, parse, false).warnings == []
  {
  }

  /**
   * Every event of a batch comes from a record with a non-empty actor and
   * carries the record's `type` as `action`; and every record yields
   * either an event or a warning.
   */
  lemma {:induction false} AcceptedAreEvents(values: seq<Value>, parse: string -> Option<Time>)
    ensures forall e :: e in Accepted(values, parse) ==> |e.username| > 0 && "action" in e.event.data
    ensures (forall i :: 0 <= i < |values| ==> AsRecord(values[i]).Some?) ==>
      |Accepted(values, parse)| + |Skips(values, parse)| == |values|
    decreases |values|
  {
    if values != [] {
      var prefix := values[..|values| - 1];
      assert forall i :: 0 <= i < |prefix| ==> prefix[i] == values[i];
      AcceptedAreEvents(prefix, parse);
    }
  }

  /**
   * The warnings are exactly the dropped records, in order: each names a
   * value (counted from 1) that was dropped for that reason, and every
   * dropped record has its warning.
   */
  lemma {:induction false} SkipsAreDroppedValues(values: seq<Value>, parse: string -> Option<Time>)
    ensures forall j :: 0 <= j < |Skips(values, parse)| ==>
      var s := Skips(values, parse)[j];
      s.Skipped? && 1 <= s.line <= |values| && DropOf(values[s.line - 1], parse) == Some(s.reason)
    ensures forall j1, j2 :: 0 <= j1 < j2 < |Skips(values, parse)| ==> Skips(values, parse)[j1].line < Skips(values, parse)[j2].line
    ensures forall i :: 0 <= i < |values| && DropOf(values[i], parse).Some? ==>
      Skipped(i + 1, DropOf(values[i], parse).value) in Skips(values, parse)
    decreases |values|
  {
    if values != [] {
      var n := |values| - 1;
      var prefix := values[..n];
      SkipsAreDroppedValues(prefix, parse);
      assert forall i :: 0 <= i < n ==> prefix[i] == values[i];
      var before, after := Skips(prefix, parse), Skips(values, parse);
      if DropOf(values[n], parse).Some? {
        assert after == before + [Skipped(n + 1, DropOf(values[n], parse).value)];
      } else {
        assert after == before;
      }
    }
  }

  function Admits(parse: string -> Option<Time>): Value -> bool {
    v => EventOf(v, parse).Some?
  }

  /**
   * The accepted events are exactly the admitted records, in order: the
   * j-th is the event (`EventOf`) of the j-th admitted value, whose index
   * among all values is the j-th of `Positions`.
   */
  lemma {:induction false} AcceptedAreAdmittedValues(values: seq<Value>, parse: string -> Option<Time>)
    ensures |Accepted(values, parse)| == |Positions(values, Admits(parse))|
    ensures forall j :: 0 <= j < |Positions(values, Admits(parse))| ==>
      EventOf(values[Positions(values, Admits(parse))[j]], parse) == Some(Accepted(values, parse)[j])
    decreases |values|
  {
    if values != [] {
      var n := |values| - 1;
      var prefix := values[..n];
      AcceptedAreAdmittedValues(prefix, parse);
      var pos, acc := Positions(prefix, Admits(parse)), Accepted(prefix, parse);
      var all, batch := Positions(values, Admits(parse)), Accepted(values, parse);
      assert |pos| == |acc|;
      if EventOf(values[n], parse).Some? {
        assert Admits(parse)(values[n]);
        assert all == pos + [n] && batch == acc + [EventOf(values[n], parse).value];
      } else {
        assert !Admits(parse)(values[n]);
        assert all == pos && batch == acc;
      }
      forall j | 0 <= j < |all|
        ensures EventOf(values[all[j]], parse) == Some(batch[j])
      {
        if j < |pos| {
          assert all[j] == pos[j] < n && batch[j] == acc[j];
          assert values[pos[j]] == prefix[pos[j]];
        }
      }
    }
  }

  /** A `Stream` session tries every event of the batch, in order, whatever fails. */
  lemma {:induction false} EveryEventStreamed(table: string, batch: seq<UserEvent>)
    ensures |BatchRequests(table, batch)| == |batch|
    ensures forall i :: 0 <= i < |batch| ==>
      BatchRequests(table, batch)[i] == StreamEvent(table, batch[i].username, batch[i].event)
    decreases |batch|
  {
    if batch != [] {
      var prefix := batch[..|batch| - 1];
      assert forall i :: 0 <= i < |prefix| ==> prefix[i] == batch[i];
      EveryEventStreamed(table, prefix);
    }
  }

  /**
   * The stream warnings of a batch are exactly its refused events, each
   * named by its position in the batch counted from 1, in order.
   */
  lemma {:induction false} WarningsAreRefusals(table: string, batch: seq<UserEvent>, refuses: Request -> bool)
    ensures forall j :: 0 <= j < |BatchWarnings(table, batch, refuses)| ==>
      var u := BatchWarnings(table, batch, refuses)[j];
      u.Unaddable? && 1 <= u.index <= |batch| &&
      refuses(StreamEvent(table, batch[u.index - 1].username, batch[u.index - 1].event))
    ensures forall j1, j2 :: 0 <= j1 < j2 < |BatchWarnings(table, batch, refuses)| ==>
      BatchWarnings(table, batch, refuses)[j1].index < BatchWarnings(table, batch, refuses)[j2].index
    ensures forall i :: 0 <= i < |batch| && refuses(StreamEvent(table, batch[i].username, batch[i].event)) ==>
      Unaddable(i + 1) in BatchWarnings(table, batch, refuses)
    decreases |batch|
  {
    if batch != [] {
      var prefix := batch[..|batch| - 1];
      WarningsAreRefusals(table, prefix, refuses);
      assert forall i :: 0 <= i < |prefix| ==> prefix[i] == batch[i];
    }
  }

  /** Batches are streamed first in, first out: streaming a + b is streaming a, then b. */
  lemma {:induction false} StreamInOrder(table: string, a: seq<seq<UserEvent>>, b: seq<seq<UserEvent>>)
    ensures StreamRequests(table, a + b) == StreamRequests(table, a) + StreamRequests(table, b)
    decreases |b|
  {
    if b == [] {
      assert a + b == a;
    } else {
      var shorter := b[..|b| - 1];
      assert (a + b)[..|a + b| - 1] == a + shorter;
      assert (a + b)[|a + b| - 1] == b[|b| - 1];
      StreamInOrder(table, a, shorter);
      AppendAssoc(StreamRequests(table, a), StreamRequests(table, shorter), BatchRequests(table, b[|b| - 1]));
    }
  }
}
