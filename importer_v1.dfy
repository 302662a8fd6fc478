/**
 * The old importer (`sky_gharchive_importer.go`): for each hour it
 * downloads the archive, reads the decompressed body line by line, and
 * sends every acceptable record to the table with `AddEvent` as soon as it
 * is read. The first line that is neither a JSON object nor null, a read
 * error, or a failed download stops the hour and with it the whole program.
 */
module ImporterV1 {
  import opened Wrappers
  import opened Json
  import opened Clock
  import opened ArchiveUrl
  import opened Records
  import opened Seqs
  import opened Lines
  import opened Sky
  import opened Provisioning
  import opened Cli
  import opened Outcomes

  /**
   * What `http.Get` followed by gzip decompression yields for a URL: no
   * response at all, or the decompressed bytes and how the stream ends.
   */
  datatype Archive = Unreachable | Body(content: seq<byte>, end: StreamEnd)

  /**
   * The calls into code outside the model: the download, `json.Unmarshal`
   * of one line (its JSON value, or None on a syntax error) and RFC 3339
   * parsing.
   */
  datatype World = World(fetch: string -> Archive, unmarshal: seq<byte> -> Option<Value>, parse: string -> Option<Time>)

  /** What becomes of one line. */
  datatype LineOutcome = Admitted(username: string, event: Event) | Dropped(reason: DropReason) | Malformed

  /**
   * Unmarshalling into `map[string]interface{}` fails on bad syntax and on
   * any JSON value other than an object or null; otherwise the record is
   * mapped to an event or dropped.
   */
  function Classify(line: seq<byte>, w: World): (o: LineOutcome)
    ensures o.Malformed? <==> w.unmarshal(line).None? || AsRecord(w.unmarshal(line).value).None?
    ensures o.Admitted? ==>
      MapV1(AsRecord(w.unmarshal(line).value).value, w.parse) == Ok(UserEvent(o.username, o.event))
    ensures o.Admitted? ==>
      (o.username, o.event.timestamp) == Admit(AsRecord(w.unmarshal(line).value).value, w.parse).value
    ensures o.Dropped? ==> MapV1(AsRecord(w.unmarshal(line).value).value, w.parse) == Err(o.reason)
  {
    match w.unmarshal(line)
    case None => Malformed
    case Some(v) =>
      match AsRecord(v)
      case None => Malformed
      case Some(fields) =>
        match MapV1(fields, w.parse)
        case Ok(e) => Admitted(e.username, e.event)
        case Err(reason) => Dropped(reason)
  }

  function IsMalformed(w: World): seq<byte> -> bool {
    line => Classify(line, w).Malformed?
  }

  /** The request one line leads to: an `AddEvent` when it was admitted. */
  function LineRequests(table: string, o: LineOutcome): seq<Request> {
    if o.Admitted? then [AddEvent(table, o.username, o.event, Merge)] else []
  }

  /** The warning one line leads to: "[L n] ..." when it was dropped. */
  function LineSkips(lineNumber: nat, o: LineOutcome): seq<Warning> {
    if o.Dropped? then [Skipped(lineNumber, o.reason)] else []
  }

  /** The `AddEvent` requests sent for the given lines, in order. */
  function Requests(table: string, lines: seq<seq<byte>>, w: World): seq<Request>
    decreases |lines|
  {
    if lines == [] then []
    else Requests(table, lines[..|lines| - 1], w) + LineRequests(table, Classify(lines[|lines| - 1], w))
  }

  /** The warnings for the dropped lines among the given ones, numbered from 1. */
  function Skips(lines: seq<seq<byte>>, w: World): seq<Warning>
    decreases |lines|
  {
    if lines == [] then []
    else Skips(lines[..|lines| - 1], w) + LineSkips(|lines|, Classify(lines[|lines| - 1], w))
  }

  /** Handling one more line extends both logs by what that line leads to. */
  lemma LineStep(table: string, lines: seq<seq<byte>>, i: nat, w: World)
    requires i < |lines|
    ensures Requests(table, lines[..i + 1], w) == Requests(table, lines[..i], w) + LineRequests(table, Classify(lines[i], w))
    ensures Skips(lines[..i + 1], w) == Skips(lines[..i], w) + LineSkips(i + 1, Classify(lines[i], w))
  {
    assert lines[..i + 1][..i] == lines[..i];
  }

  /** What one hour (or a run of hours) sends, writes and ends with. */
  datatype HourRun = HourRun(requests: seq<Request>, warnings: seq<Warning>, error: Option<HourError>)

  /**
   * The reading loop of `importDate` over a decompressed body: the complete
   * lines up to the first malformed one are handled; a final line without
   * its newline is never handled.
   */
  function ImportBody(table: string, content: seq<byte>, end: StreamEnd, w: World): HourRun {
    var lines := Chunks(content).0;
    var k := FirstWhere(lines, IsMalformed(w));
    HourRun(Requests(table, lines[..k], w), Skips(lines[..k], w),
      if k < |lines| then Some(JsonInvalid) else if end == Broken then Some(ReadFailed) else None)
  }

  /** `importDate`: the URL is written to standard error before the download. */
  function ImportHour(table: string, date: Time, w: World): HourRun {
    var url := UrlOf(date);
    match w.fetch(url)
    case Unreachable => HourRun([], [Fetching(url)], Some(HttpFailed))
    case Body(content, end) =>
      var body := ImportBody(table, content, end, w);
      HourRun(body.requests, [Fetching(url)] + body.warnings, body.error)
  }

  /** `importDate`, step by step. */
  method ImportDate(server: Server, table: string, date: Time, w: World) returns (error: Option<HourError>, warnings: seq<Warning>)
    modifies server
    ensures var run := ImportHour(table, date, w);
      error == run.error && warnings == run.warnings &&
      server.calls == old(server.calls) + run.requests && server.tables == old(server.tables)
  {
    var url := UrlOf(date);
    var archive := w.fetch(url);
    if archive.Unreachable? {
      return Some(HttpFailed), [Fetching(url)];
    }
    var skipped;
    error, skipped := ReadLines(server, table, archive.content, archive.end, w);
    warnings := [Fetching(url)] + skipped;
  }

  /** The reading loop of `importDate`: one `ReadBytes` per iteration. */
  method ReadLines(server: Server, table: string, content: seq<byte>, end: StreamEnd, w: World)
    returns (error: Option<HourError>, warnings: seq<Warning>)
    modifies server
    ensures var run := ImportBody(table, content, end, w);
      error == run.error && warnings == run.warnings &&
      server.calls == old(server.calls) + run.requests && server.tables == old(server.tables)
  {
    ghost var lines := Chunks(content).0;
    ghost var k := FirstWhere(lines, IsMalformed(w));
    ghost var calls0 := server.calls;
    assert ImportBody(table, content, end, w) == HourRun(Requests(table, lines[..k], w), Skips(lines[..k], w),
      if k < |lines| then Some(JsonInvalid) else if end == Broken then Some(ReadFailed) else None);
    warnings := [];
    var pos, lineNumber := 0, 0;
    while true
      invariant pos <= |content| && lineNumber <= k <= |lines|
      invariant Chunks(content[pos..]).0 == lines[lineNumber..]
      invariant server.calls == calls0 + Requests(table, lines[..lineNumber], w)
      invariant warnings == Skips(lines[..lineNumber], w)
      invariant server.tables == old(server.tables)
      decreases |content| - pos
    {
      ReadNext(content, pos, lineNumber);
      var (line, next, complete) := ReadBytes(content, pos);
      if !complete {
        assert lines[..lineNumber] == lines;
        if end == Broken {
          return Some(ReadFailed), warnings;
        }
        return None, warnings;
      }
      LineStep(table, lines, lineNumber, w);
      FirstWhereStep(lines, IsMalformed(w), lineNumber);
      assert IsMalformed(w)(lines[lineNumber]) == Classify(line, w).Malformed?;
      AppendAssoc(calls0, Requests(table, lines[..lineNumber], w), LineRequests(table, Classify(line, w)));
      lineNumber := lineNumber + 1;
      var malformed, skipped := HandleLine(server, table, line, lineNumber, w);
      if malformed {
        return Some(JsonInvalid), warnings;
      }
      warnings := warnings + skipped;
      pos := next;
    }
  }

  /**
   * The body of the reading loop for one complete line: unmarshal it, then
   * either send its event or write why it was dropped.
   */
  method HandleLine(server: Server, table: string, line: seq<byte>, lineNumber: nat, w: World)
    returns (malformed: bool, warnings: seq<Warning>)
    modifies server
    ensures var o := Classify(line, w);
      malformed == o.Malformed? && warnings == LineSkips(lineNumber, o) &&
      server.calls == old(server.calls) + LineRequests(table, o) && server.tables == old(server.tables)
  {
    var data := w.unmarshal(line);
    if data.None? {
      return true, [];
    }
    var fields := AsRecord(data.value);
    if fields.None? {
      return true, [];
    }
    var mapped := MapV1(fields.value, w.parse);
    if mapped.Ok? {
      var added := server.AddEvent(table, mapped.value.username, mapped.value.event);
      return false, [];
    }
    return false, [Skipped(lineNumber, mapped.error)];
  }

  /** Every request is an `AddEvent` in merge mode for the table, by a non-empty actor. */
  lemma {:induction false} RequestsAreEvents(table: string, lines: seq<seq<byte>>, w: World)
    ensures forall r :: r in Requests(table, lines, w) ==>
      r.AddEvent? && r.table == table && r.mode == Merge && |r.username| > 0
    decreases |lines|
  {
    if lines != [] {
      RequestsAreEvents(table, lines[..|lines| - 1], w);
    }
  }

  function IsAdmitted(w: World): seq<byte> -> bool {
    line => Classify(line, w).Admitted?
  }

  /**
   * The requests are exactly the admitted lines, in order: the j-th is the
   * `AddEvent` of the j-th admitted line, whose index among all lines is
   * the j-th of `Positions`.
   */
  lemma {:induction false} RequestsAreAdmittedLines(table: string, lines: seq<seq<byte>>, w: World)
    ensures |Requests(table, lines, w)| == |Positions(lines, IsAdmitted(w))|
    ensures forall j :: 0 <= j < |Positions(lines, IsAdmitted(w))| ==>
      var o := Classify(lines[Positions(lines, IsAdmitted(w))[j]], w);
      o.Admitted? && Requests(table, lines, w)[j] == AddEvent(table, o.username, o.event, Merge)
    decreases |lines|
  {
    if lines != [] {
      var n := |lines| - 1;
      var prefix := lines[..n];
      RequestsAreAdmittedLines(table, prefix, w);
      assert forall i :: 0 <= i < n ==> prefix[i] == lines[i];
      assert IsAdmitted(w)(lines[n]) == Classify(lines[n], w).Admitted?;
    }
  }

  /** Without a malformed line, every line yields exactly one request or one warning. */
  lemma {:induction false} EveryLineAccountedFor(table: string, lines: seq<seq<byte>>, w: World)
    requires forall i :: 0 <= i < |lines| ==> !Classify(lines[i], w).Malformed?
    ensures |Requests(table, lines, w)| + |Skips(lines, w)| == |lines|
    decreases |lines|
  {
    if lines != [] {
      var prefix := lines[..|lines| - 1];
      assert forall i :: 0 <= i < |prefix| ==> prefix[i] == lines[i];
      EveryLineAccountedFor(table, prefix, w);
    }
  }

  /**
   * The warnings are exactly the dropped lines, in order: each names a
   * line (counted from 1) that was dropped for that reason, and every
   * dropped line has its warning.
   */
  lemma {:induction false} SkipsAreDroppedLines(lines: seq<seq<byte>>, w: World)
    ensures forall j :: 0 <= j < |Skips(lines, w)| ==>
      var s := Skips(lines, w)[j];
      s.Skipped? && 1 <= s.line <= |lines| && Classify(lines[s.line - 1], w) == Dropped(s.reason)
    ensures forall j1, j2 :: 0 <= j1 < j2 < |Skips(lines, w)| ==> Skips(lines, w)[j1].line < Skips(lines, w)[j2].line
    ensures forall i :: 0 <= i < |lines| && Classify(lines[i], w).Dropped? ==>
      Skipped(i + 1, Classify(lines[i], w).reason) in Skips(lines, w)
    decreases |lines|
  {
    if lines != [] {
      var prefix := lines[..|lines| - 1];
      SkipsAreDroppedLines(prefix, w);
      assert forall i :: 0 <= i < |prefix| ==> prefix[i] == lines[i];
    }
  }

  /**
   * An hour's body is read without error exactly when the stream ends
   * cleanly and no complete line is malformed.
   */
  lemma BodySucceedsIff(table: string, content: seq<byte>, end: StreamEnd, w: World)
    ensures ImportBody(table, content, end, w).error != Some(HttpFailed)
    ensures ImportBody(table, content, end, w).error.None? ==>
      end == Eof && forall i :: 0 <= i < |Chunks(content).0| ==> !Classify(Chunks(content).0[i], w).Malformed?
    ensures end == Eof && (forall i :: 0 <= i < |Chunks(content).0| ==> !Classify(Chunks(content).0[i], w).Malformed?) ==>
      ImportBody(table, content, end, w).error.None?
  {
    var lines := Chunks(content).0;
    var k := FirstWhere(lines, IsMalformed(w));
    assert k < |lines| ==> IsMalformed(w)(lines[k]) && Classify(lines[k], w).Malformed?;
    assert forall i :: 0 <= i < k ==> !IsMalformed(w)(lines[i]) && !Classify(lines[i], w).Malformed?;
    assert end != Broken ==> end == Eof;
  }

  /**
   * An hour's first warning is its URL, and it fails with `HttpFailed`
   * exactly when the download does.
   */
  lemma HourStartsWithUrl(table: string, date: Time, w: World)
    ensures 1 <= |ImportHour(table, date, w).warnings| && ImportHour(table, date, w).warnings[0] == Fetching(UrlOf(date))
    ensures ImportHour(table, date, w).error == Some(HttpFailed) <==> w.fetch(UrlOf(date)).Unreachable?
  {
    var archive := w.fetch(UrlOf(date));
    if archive.Body? {
      BodySucceedsIff(table, archive.content, archive.end, w);
    }
  }

  /** Bytes after the last newline are never handled, whatever they are. */
  lemma PartialLastLineIgnored(table: string, ls: seq<seq<byte>>, tail: seq<byte>, end: StreamEnd, w: World)
    requires AllLines(ls) && Newline !in tail
    ensures ImportBody(table, Concat(ls) + tail, end, w) == ImportBody(table, Concat(ls), end, w)
  {
    ChunksUnique(Concat(ls) + tail, ls, tail);
    assert Concat(ls) + [] == Concat(ls);
    ChunksUnique(Concat(ls), ls, []);
  }

  /**
   * A malformed line ends the hour with an error: the lines before it are
   * handled, nothing after it is, and how the body ends does not matter.
   */
  lemma MalformedLineEndsHour(table: string, ls: seq<seq<byte>>, bad: seq<byte>, more: seq<seq<byte>>,
                              tail: seq<byte>, end: StreamEnd, w: World)
    requires AllLines(ls) && IsLine(bad) && AllLines(more) && Newline !in tail
    requires Classify(bad, w).Malformed?
    ensures var run := ImportBody(table, Concat(ls + [bad] + more) + tail, end, w);
      run == ImportBody(table, Concat(ls + [bad]), Eof, w) && run.error == Some(JsonInvalid)
  {
    var before := ls + [bad];
    var all := before + more;
    assert AllLines(before) && AllLines(all);
    ChunksUnique(Concat(all) + tail, all, tail);
    assert Concat(before) + [] == Concat(before);
    ChunksUnique(Concat(before), before, []);
    StopsAtMalformed(ls, bad, more, w);
  }

  lemma StopsAtMalformed(ls: seq<seq<byte>>, bad: seq<byte>, more: seq<seq<byte>>, w: World)
    requires Classify(bad, w).Malformed?
    ensures var k := FirstWhere(ls + [bad], IsMalformed(w));
      k < |ls + [bad]| && FirstWhere(ls + [bad] + more, IsMalformed(w)) == k &&
      (ls + [bad] + more)[..k] == (ls + [bad])[..k]
  {
    var before := ls + [bad];
    assert before[|ls|] == bad;
    var k := FirstWhere(before, IsMalformed(w));
    assert k <= |ls|;
    FirstWhereAppend(before, more, IsMalformed(w));
    assert (before + more)[..k] == before[..k];
  }

  /** `importDate` for the table, as a function of the hour. */
  function HourStep(table: string, w: World): Time -> HourRun {
    date => ImportHour(table, date, w)
  }

  /** Whether an hour ends in an error. */
  function Fails(hour: Time -> HourRun): Time -> bool {
    date => hour(date).error.Some?
  }

  /**
   * The loop of `main` over the hours: each hour is imported in turn, and
   * the first one that fails ends the run with its error.
   */
  function ImportHours(hours: seq<Time>, hour: Time -> HourRun): (run: HourRun)
    decreases |hours|
  {
    if hours == [] then HourRun([], [], None)
    else
      var done := ImportHours(hours[..|hours| - 1], hour);
      if done.error.Some? then done
      else
        var last := hour(hours[|hours| - 1]);
        HourRun(done.requests + last.requests, done.warnings + last.warnings, last.error)
  }

  /** Once an hour has failed, later hours are neither fetched nor imported. */
  lemma {:induction false} FailureEndsRun(hours: seq<Time>, more: seq<Time>, hour: Time -> HourRun)
    requires ImportHours(hours, hour).error.Some?
    ensures ImportHours(hours + more, hour) == ImportHours(hours, hour)
    decreases |more|
  {
    if more == [] {
      assert hours + more == hours;
    } else {
      var shorter := more[..|more| - 1];
      assert (hours + more)[..|hours + more| - 1] == hours + shorter;
      FailureEndsRun(hours, shorter, hour);
    }
  }

  /** The run succeeds exactly when every hour does. */
  lemma {:induction false} RunSucceedsIff(hours: seq<Time>, hour: Time -> HourRun)
    ensures ImportHours(hours, hour).error.None? <==>
      forall i :: 0 <= i < |hours| ==> hour(hours[i]).error.None?
    decreases |hours|
  {
    if hours != [] {
      var prefix := hours[..|hours| - 1];
      assert forall i :: 0 <= i < |prefix| ==> prefix[i] == hours[i];
      RunSucceedsIff(prefix, hour);
    }
  }

  /** The run over the hours up to the first failing one ends with that hour's error. */
  lemma FailsAt(hours: seq<Time>, hour: Time -> HourRun, j: nat)
    requires j < |hours| && forall i :: 0 <= i < j ==> hour(hours[i]).error.None?
    ensures ImportHours(hours[..j + 1], hour).error == hour(hours[j]).error
  {
    var upto := hours[..j + 1];
    assert upto[..j] == hours[..j];
    RunSucceedsIff(hours[..j], hour);
  }

  /** A failed run has a failing hour, and before the first one every hour succeeded. */
  lemma FirstFailure(hours: seq<Time>, hour: Time -> HourRun) returns (j: nat)
    requires ImportHours(hours, hour).error.Some?
    ensures j == FirstWhere(hours, Fails(hour)) && j < |hours|
    ensures forall i :: 0 <= i < j ==> hour(hours[i]).error.None?
  {
    j := FirstWhere(hours, Fails(hour));
    RunSucceedsIff(hours, hour);
    assert forall i :: 0 <= i < j ==> !Fails(hour)(hours[i]);
  }

  /**
   * A failed run is the run up to and including the first failing hour,
   * and ends with that hour's error.
   */
  lemma FailedRunStopsAtFirstFailure(hours: seq<Time>, hour: Time -> HourRun)
    requires ImportHours(hours, hour).error.Some?
    ensures var j := FirstWhere(hours, Fails(hour));
      j < |hours| &&
      ImportHours(hours, hour) == ImportHours(hours[..j + 1], hour) &&
      ImportHours(hours, hour).error == hour(hours[j]).error
  {
    var j := FirstFailure(hours, hour);
    FailsAt(hours, hour, j);
    var upto := hours[..j + 1];
    FailureEndsRun(upto, hours[j + 1..], hour);
    assert upto + hours[j + 1..] == hours;
  }

  /** One more successful-so-far hour: the run extends by that hour's own run. */
  lemma RunStep(hours: seq<Time>, hour: Time -> HourRun, i: nat)
    requires i < |hours| && ImportHours(hours[..i], hour).error.None?
    ensures var done, last := ImportHours(hours[..i], hour), hour(hours[i]);
      ImportHours(hours[..i + 1], hour) == HourRun(done.requests + last.requests, done.warnings + last.warnings, last.error)
  {
    assert hours[..i + 1][..i] == hours[..i];
  }

  /** A run that fails at hour i is over: the remaining hours change nothing. */
  lemma StopsAt(hours: seq<Time>, hour: Time -> HourRun, i: nat)
    requires i < |hours| && ImportHours(hours[..i + 1], hour).error.Some?
    ensures ImportHours(hours, hour) == ImportHours(hours[..i + 1], hour)
  {
    FailureEndsRun(hours[..i + 1], hours[i + 1..], hour);
    assert hours[..i + 1] + hours[i + 1..] == hours;
  }

  /** The loop of `main` over the hours of the range. */
  method ImportRange(server: Server, tableName: string, start: Time, end: Time, w: World)
    returns (error: Option<HourError>, warnings: seq<Warning>)
    modifies server
    ensures var run := ImportHours(Hours(start, end), HourStep(tableName, w));
      error == run.error && warnings == run.warnings &&
      server.calls == old(server.calls) + run.requests && server.tables == old(server.tables)
  {
    ghost var hs := Hours(start, end);
    ghost var calls0 := server.calls;
    ghost var step := HourStep(tableName, w);
    var hours := HourCount(start, end);
    warnings := [];
    var i := 0;
    while i < hours
      invariant i <= |hs|
      invariant hours <= 0 ==> i == 0
      invariant ImportHours(hs[..i], step).error.None?
      invariant server.calls == calls0 + ImportHours(hs[..i], step).requests
      invariant warnings == ImportHours(hs[..i], step).warnings
      invariant server.tables == old(server.tables)
    {
      var date := HourAt(start, i);
      ghost var done := ImportHours(hs[..i], step);
      RunStep(hs, step, i);
      AppendAssoc(calls0, done.requests, step(date).requests);
      var hourError, hourWarnings := ImportDate(server, tableName, date, w);
      warnings := warnings + hourWarnings;
      if hourError.Some? {
        StopsAt(hs, step, i);
        return hourError, warnings;
      }
      i := i + 1;
    }
    assert hs[..i] == hs;
    error := None;
  }

  /**
   * `main`: parse the dates, set up the table, then import hour by hour;
   * the result is the exit status. The first failing hour writes its error
   * and exits with status 1.
   */
  method Run(server: Server, args: seq<string>, tableName: string, overwrite: bool, w: World)
    returns (status: int, warnings: seq<Warning>)
    modifies server
    ensures match ParseRange(args, w.parse)
      case Err(e) =>
        status == 1 && warnings == [BadArguments(e)] &&
        server.calls == old(server.calls) && server.tables == old(server.tables)
      case Ok(range) =>
        var setup := SetupSpec(old(server.tables), tableName, overwrite, server.refuses);
        server.tables == setup.tables &&
        if setup.err.Some? then
          status == 1 && warnings == [SetupFailed(setup.err.value)] &&
          server.calls == old(server.calls) + setup.calls
        else
          var run := ImportHours(Hours(range.start, range.end), HourStep(tableName, w));
          server.calls == old(server.calls) + setup.calls + run.requests &&
          (run.error.None? ==> status == 0 && warnings == run.warnings) &&
          (run.error.Some? ==> status == 1 && warnings == run.warnings + [ImportFailed(run.error.value)])
  {
    var parsed := ParseRange(args, w.parse);
    if parsed.Err? {
      return 1, [BadArguments(parsed.error)];
    }
    var range := parsed.value;
    var setupError := Setup(server, tableName, overwrite);
    if setupError.Some? {
      return 1, [SetupFailed(setupError.value)];
    }
    var error;
    error, warnings := ImportRange(server, tableName, range.start, range.end, w);
    if error.Some? {
      return 1, warnings + [ImportFailed(error.value)];
    }
    return 0, warnings;
  }
}
