/**
 * From one decoded archive record to one Sky event: the guard chain both
 * versions share (`created_at` a string, RFC 3339, `actor` a non-empty
 * string, checked in that order) and the event data each version builds.
 * RFC 3339 parsing (`time.Parse`) is foreign and is given as a partial
 * function `parse`.
 */
module Records {
  import opened Wrappers
  import opened Json
  import opened Clock
  import opened Seqs

  /** A Sky event: a timestamp and its data map (`sky.NewEvent`). */
  datatype Event = Event(timestamp: Time, data: map<string, Value>)

  /** A `UserEvent`: the event and the actor it belongs to. */
  datatype UserEvent = UserEvent(username: string, event: Event)

  /** Why a record was dropped; each is one "[L n] ..." warning. */
  datatype DropReason = TimestampRequired | InvalidTimestamp | ActorRequired

  /** The repository sub-fields copied into the event data, in source order. */
  const RepositoryKeys: seq<string> := ["language", "forks", "watchers", "stargazers", "size"]

  /**
   * The guard chain: the actor and parsed timestamp of an acceptable
   * record, or the first guard it fails.
   */
  function Admit(fields: map<string, Value>, parse: string -> Option<Time>): (r: Result<(string, Time), DropReason>)
    ensures r.Ok? <==>
      Get(fields, "created_at").Str? && parse(Get(fields, "created_at").s).Some? &&
      Get(fields, "actor").Str? && |Get(fields, "actor").s| > 0
    ensures r.Ok? ==> r.value == (Get(fields, "actor").s, parse(Get(fields, "created_at").s).value)
    ensures r == Err(TimestampRequired) <==> !Get(fields, "created_at").Str?
    ensures r == Err(InvalidTimestamp) <==>
      Get(fields, "created_at").Str? && parse(Get(fields, "created_at").s).None?
    ensures r == Err(ActorRequired) <==>
      Get(fields, "created_at").Str? && parse(Get(fields, "created_at").s).Some? &&
      !(Get(fields, "actor").Str? && |Get(fields, "actor").s| > 0)
  {
    match Get(fields, "created_at")
    case Str(stamp) =>
      (match parse(stamp)
       case None => Err(InvalidTimestamp)
       case Some(timestamp) =>
         (match Get(fields, "actor")
          case Str(username) => if |username| > 0 then Ok((username, timestamp)) else Err(ActorRequired)
          case _ => Err(ActorRequired)))
    case _ => Err(TimestampRequired)
  }

  /**
   * The repository part of the event data: when `repository` is an object,
   * each of the five keys set to the repository's value for it (nil when
   * missing); otherwise nothing.
   */
  function RepositoryData(fields: map<string, Value>): (d: map<string, Value>)
    ensures Get(fields, "repository").Obj? ==> d.Keys == (set k | k in RepositoryKeys)
    ensures Get(fields, "repository").Obj? ==>
      forall k :: k in d ==> d[k] == Get(Get(fields, "repository").fields, k)
    ensures !Get(fields, "repository").Obj? ==> d == map[]
  {
    match Get(fields, "repository")
    case Obj(repository) =>
      map k | k in RepositoryKeys :: Get(repository, k)
    case _ => map[]
  }

  /** The old importer's event data: repository fields only, no `action`. */
  function DataV1(fields: map<string, Value>): (d: map<string, Value>)
    ensures "action" !in d
    ensures d.Keys <= set k | k in RepositoryKeys
  {
    RepositoryData(fields)
  }

  /** The new importer's event data: `action` from `type`, then the repository fields. */
  function DataV2(fields: map<string, Value>): (d: map<string, Value>)
    ensures "action" in d && d["action"] == Get(fields, "type")
    ensures d.Keys == {"action"} + RepositoryData(fields).Keys
    ensures forall k :: k in RepositoryData(fields) ==> d[k] == RepositoryData(fields)[k]
  {
    assert "action" !in RepositoryData(fields);
    RepositoryData(fields)["action" := Get(fields, "type")]
  }

  /** Mapping one record in the old importer. */
  function MapV1(fields: map<string, Value>, parse: string -> Option<Time>): (r: Result<UserEvent, DropReason>)
    ensures r.Ok? <==> Admit(fields, parse).Ok?
    ensures r.Err? ==> r.error == Admit(fields, parse).error
    ensures r.Ok? ==> |r.value.username| > 0 && r.value.event.data == DataV1(fields)
    ensures r.Ok? ==> (r.value.username, r.value.event.timestamp) == Admit(fields, parse).value
  {
    match Admit(fields, parse)
    case Ok((username, timestamp)) => Ok(UserEvent(username, Event(timestamp, DataV1(fields))))
    case Err(reason) => Err(reason)
  }

  /** Mapping one record in the new importer. */
  function MapV2(fields: map<string, Value>, parse: string -> Option<Time>): (r: Result<UserEvent, DropReason>)
    ensures r.Ok? <==> Admit(fields, parse).Ok?
    ensures r.Err? ==> r.error == Admit(fields, parse).error
    ensures r.Ok? ==> |r.value.username| > 0 && r.value.event.data == DataV2(fields)
    ensures r.Ok? ==> (r.value.username, r.value.event.timestamp) == Admit(fields, parse).value
  {
    match Admit(fields, parse)
    case Ok((username, timestamp)) => Ok(UserEvent(username, Event(timestamp, DataV2(fields))))
    case Err(reason) => Err(reason)
  }

  /**
   * A record whose repository lacks some of the five keys still gets all
   * five, the missing ones set to null.
   */
  lemma MissingRepositoryKeysAreNull(fields: map<string, Value>, parse: string -> Option<Time>)
    requires Admit(fields, parse).Ok?
    requires Get(fields, "repository").Obj?
    ensures MapV1(fields, parse).value.event.data.Keys == {"language", "forks", "watchers", "stargazers", "size"}
    ensures forall k :: k in RepositoryKeys && k !in Get(fields, "repository").fields ==>
      MapV1(fields, parse).value.event.data[k] == Null
  {
  }

  /**
   * The record `{"created_at": "2013-01-01T00:00:00Z", "actor": "alice",
   * "type": "PushEvent", "repository": {"language": "Go", "forks": 3}}`.
   */
  const AliceRecord: map<string, Value> :=
    map["created_at" := Str("2013-01-01T00:00:00Z"), "actor" := Str("alice"), "type" := Str("PushEvent"),
        "repository" := Obj(map["language" := Str("Go"), "forks" := Num("3")])]

  /** With a repository object, the five keys in full, each with the repository's value or null. */
  lemma RepositoryDataOf(fields: map<string, Value>, r: map<string, Value>)
    requires Get(fields, "repository") == Obj(r)
    ensures RepositoryData(fields) == map["language" := Get(r, "language"), "forks" := Get(r, "forks"),
      "watchers" := Get(r, "watchers"), "stargazers" := Get(r, "stargazers"), "size" := Get(r, "size")]
  {
    var d := RepositoryData(fields);
    assert d.Keys == {"language", "forks", "watchers", "stargazers", "size"};
  }

  lemma AliceRepositoryData()
    ensures RepositoryData(AliceRecord) == map["language" := Str("Go"), "forks" := Num("3"),
      "watchers" := Null, "stargazers" := Null, "size" := Null]
  {
    var r := map["language" := Str("Go"), "forks" := Num("3")];
    assert Get(AliceRecord, "repository") == Obj(r);
    RepositoryDataOf(AliceRecord, r);
    assert Get(r, "language") == Str("Go") && Get(r, "forks") == Num("3");
    assert Get(r, "watchers") == Null && Get(r, "stargazers") == Null && Get(r, "size") == Null;
  }

  /** The record passes the three guards with actor alice. */
  lemma AliceAdmitted(parse: string -> Option<Time>, t: Time)
    requires parse("2013-01-01T00:00:00Z") == Some(t)
    ensures Admit(AliceRecord, parse) == Ok(("alice", t))
  {
    assert Get(AliceRecord, "created_at") == Str("2013-01-01T00:00:00Z");
    assert Get(AliceRecord, "actor") == Str("alice");
  }

  /** The new importer's data for the record: `action` and all five repository keys. */
  lemma AliceDataV2()
    ensures DataV2(AliceRecord) == map["language" := Str("Go"), "forks" := Num("3"),
      "watchers" := Null, "stargazers" := Null, "size" := Null, "action" := Str("PushEvent")]
  {
    assert Get(AliceRecord, "type") == Str("PushEvent");
    AliceRepositoryData();
    assert DataV2(AliceRecord) == RepositoryData(AliceRecord)["action" := Str("PushEvent")];
  }

  /**
   * In the new importer that record is alice's event with `action`,
   * `language` and `forks` copied and `watchers`, `stargazers`, `size` set
   * to null rather than left out.
   */
  lemma AliceRecordV2(parse: string -> Option<Time>, t: Time)
    requires parse("2013-01-01T00:00:00Z") == Some(t)
    ensures MapV2(AliceRecord, parse) == Ok(UserEvent("alice", Event(t, map[
      "language" := Str("Go"), "forks" := Num("3"), "watchers" := Null, "stargazers" := Null,
      "size" := Null, "action" := Str("PushEvent")])))
  {
    AliceAdmitted(parse, t);
    AliceDataV2();
  }

  /** `UserEvents.Less`: strictly earlier timestamp. */
  predicate Less(a: UserEvent, b: UserEvent) {
    Before(a.event.timestamp, b.event.timestamp)
  }

  /** Sorted as `sort.Sort` leaves it: no element is Less than one before it. */
  predicate SortedByTime(s: seq<UserEvent>) {
    forall i, j :: 0 <= i < j < |s| ==> !Less(s[j], s[i])
  }

  /** What `sort.Sort` promises for a batch: sorted, and a permutation of the input. */
  predicate SortsTo(input: seq<UserEvent>, output: seq<UserEvent>) {
    SortedByTime(output) && multiset(output) == multiset(input)
  }

  /**
   * `sort.Sort` is not stable: two events with the same timestamp may come
   * out in either order, and both orders meet the promise.
   */
  lemma SortIsNotStable(a: UserEvent, b: UserEvent)
    requires a.event.timestamp.unixNanos == b.event.timestamp.unixNanos
    ensures SortsTo([a, b], [a, b]) && SortsTo([a, b], [b, a])
  {
    assert multiset([b, a]) == multiset([a, b]);
  }

  /** Sorting keeps the batch: same length, same events. */
  lemma SortKeepsEvents(input: seq<UserEvent>, output: seq<UserEvent>)
    requires SortsTo(input, output)
    ensures |output| == |input|
    ensures forall e :: e in input <==> e in output
  {
    assert |multiset(output)| == |multiset(input)|;
    forall e
      ensures e in input <==> e in output
    {
      assert e in input <==> e in multiset(input);
      assert e in output <==> e in multiset(output);
    }
  }

  /** The first event of a sorted batch is one of the earliest of the hour. */
  lemma SortedHeadIsEarliest(input: seq<UserEvent>, output: seq<UserEvent>)
    requires SortsTo(input, output) && output != []
    ensures forall e :: e in input ==> !Less(e, output[0])
  {
    forall e | e in input
      ensures !Less(e, output[0])
    {
      assert e in multiset(output);
      var j :| 0 <= j < |output| && output[j] == e;
      if j > 0 {
        assert !Less(output[j], output[0]);
      } else {
        assert !Before(e.event.timestamp, e.event.timestamp);
      }
    }
  }

  /** Two batches with the same timestamps in the same places. */
  predicate SameTimes(a: seq<UserEvent>, b: seq<UserEvent>) {
    |a| == |b| && forall i :: 0 <= i < |a| ==> a[i].event.timestamp.unixNanos == b[i].event.timestamp.unixNanos
  }

  /** Two sorted permutations of a non-empty batch end with the same timestamp. */
  lemma LastTimesAgree(a: seq<UserEvent>, b: seq<UserEvent>) returns (j: nat)
    requires SortedByTime(a) && SortedByTime(b) && multiset(a) == multiset(b) && a != []
    ensures |a| == |b| && j < |b| && b[j] == a[|a| - 1]
    ensures a[|a| - 1].event.timestamp.unixNanos == b[|b| - 1].event.timestamp.unixNanos
  {
    assert |multiset(a)| == |multiset(b)|;
    var n := |a| - 1;
    assert a[n] in multiset(b) && b[n] in multiset(a);
    j :| 0 <= j < |b| && b[j] == a[n];
    var jy :| 0 <= jy < |a| && a[jy] == b[n];
    if j < n { assert !Less(b[n], b[j]); }
    if jy < n { assert !Less(a[n], a[jy]); }
  }

  /** Sortedness depends on the timestamps alone. */
  lemma SameTimesSorted(b: seq<UserEvent>, c: seq<UserEvent>)
    requires SameTimes(b, c) && SortedByTime(b)
    ensures SortedByTime(c)
  {
    forall p, q | 0 <= p < q < |c|
      ensures !Less(c[q], c[p])
    {
      assert !Less(b[q], b[p]);
    }
  }

  /** Swapping an event with the last one of the same timestamp keeps a batch sorted. */
  lemma SwapToEnd(b: seq<UserEvent>, j: nat) returns (c: seq<UserEvent>)
    requires SortedByTime(b) && j < |b|
    requires b[j].event.timestamp.unixNanos == b[|b| - 1].event.timestamp.unixNanos
    ensures SameTimes(b, c) && SortedByTime(c) && multiset(c) == multiset(b)
    ensures c[|c| - 1] == b[j]
  {
    var n := |b| - 1;
    c := b[j := b[n]][n := b[j]];
    assert SameTimes(b, c);
    SameTimesSorted(b, c);
    if j < n {
      SwapKeepsMultiset(b, j, n);
    } else {
      assert c == b;
    }
  }

  lemma SameTimesExtend(a: seq<UserEvent>, c: seq<UserEvent>, b: seq<UserEvent>)
    requires |a| == |c| > 0
    requires SameTimes(a[..|a| - 1], c[..|c| - 1]) && SameTimes(c, b)
    requires a[|a| - 1] == c[|c| - 1]
    ensures SameTimes(a, b)
  {
    var n := |a| - 1;
    forall i | 0 <= i < |a|
      ensures a[i].event.timestamp.unixNanos == b[i].event.timestamp.unixNanos
    {
      if i < n {
        assert a[..n][i] == a[i] && c[..n][i] == c[i];
      }
    }
  }

  /**
   * The promise fixes the order up to equal timestamps: two sorted
   * results of the same batch have the same timestamps in the same places.
   */
  lemma {:induction false} SortedTimesUnique(a: seq<UserEvent>, b: seq<UserEvent>)
    requires SortedByTime(a) && SortedByTime(b) && multiset(a) == multiset(b)
    ensures SameTimes(a, b)
    decreases |a|
  {
    assert |multiset(a)| == |multiset(b)|;
    if a != [] {
      var n := |a| - 1;
      var j := LastTimesAgree(a, b);
      var c := SwapToEnd(b, j);
      DropLastKeepsMultiset(a, c);
      var a', c' := a[..n], c[..n];
      assert SortedByTime(a') && SortedByTime(c');
      SortedTimesUnique(a', c');
      SameTimesExtend(a, c, b);
    }
  }
}
