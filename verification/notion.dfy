/** The parsing half of `fetch_notion_events`: turning the decoded response of
    a Notion database query into calendar events. The HTTP request itself is
    not modelled; the decoded response is the input. */
module Notion {
  import opened Json
  import opened Py

  /** The summary used when the title path is absent somewhere along the way. */
  const NoTitle: Value := Str("No Title")

  const EmptyObject: Value := Object(map[])

  /** The dict appended for each kept record: `{summary, start, end}`. */
  datatype Event = Event(summary: Value, start: Value, end: Value)

  /** `result.get("properties", {})` */
  function Properties(record: Value): Result<Value> {
    Get(record, "properties", EmptyObject)
  }

  /** `props.get("Name", {}).get("title", [{}])[0].get("text", {}).get("content", "No Title")` */
  function Title(props: Value): Result<Value> {
    var name :- Get(props, "Name", EmptyObject);
    var titles :- Get(name, "title", List([EmptyObject]));
    var first :- Index0(titles);
    var text :- Get(first, "text", EmptyObject);
    Get(text, "content", NoTitle)
  }

  /** `props.get("Date", {}).get("date", {}).get("start")`; the last default is `None`. */
  function StartDate(props: Value): Result<Value> {
    var dateProp :- Get(props, "Date", EmptyObject);
    var date :- Get(dateProp, "date", EmptyObject);
    Get(date, "start", Null)
  }

  /** One iteration of the parse loop: the event a record yields, `None` when
      the record is skipped, or the exception that aborts the whole fetch.
      The title is read before the date, so a title error wins. */
  function Extract(record: Value): (r: Result<Option<Event>>)
    ensures r.Ok? && r.value.Some? ==>
              Truthy(r.value.value.summary) && Truthy(r.value.value.start)
              && r.value.value.end == r.value.value.start
  {
    var props :- Properties(record);
    var title :- Title(props);
    var date :- StartDate(props);
    if Truthy(title) && Truthy(date) then Ok(Some(Event(title, date, date))) else Ok(None)
  }

  // ---------------------------------------------------------------------------
  // The title and date paths

  /** The whole path `Name.title[0].text.content` is present, with every
      intermediate value of the expected kind, and ends in `c`. */
  ghost predicate ContentAt(props: Value, c: Value) {
    && props.Object? && "Name" in props.fields
    && var name := props.fields["Name"];
    && name.Object? && "title" in name.fields
    && var titles := name.fields["title"];
    && titles.List? && |titles.items| > 0
    && var first := titles.items[0];
    && first.Object? && "text" in first.fields
    && var text := first.fields["text"];
    && text.Object? && "content" in text.fields
    && text.fields["content"] == c
  }

  /** Some key of the title path is absent, every value reached before it
      having the expected kind: `Name`, `title`, `text` or `content`. */
  ghost predicate TitleKeyAbsent(props: Value) {
    && props.Object?
    && ("Name" !in props.fields
        || var name := props.fields["Name"];
           && name.Object?
           && ("title" !in name.fields
               || var titles := name.fields["title"];
                  && titles.List? && |titles.items| > 0
                  && var first := titles.items[0];
                  && first.Object?
                  && ("text" !in first.fields
                      || var text := first.fields["text"];
                         text.Object? && "content" !in text.fields)))
  }

  lemma TitleFromContent(props: Value, c: Value)
    requires ContentAt(props, c)
    ensures Title(props) == Ok(c)
  {
  }

  lemma TitleDefaultsWhenAbsent(props: Value)
    requires TitleKeyAbsent(props)
    ensures Title(props) == Ok(NoTitle)
  {
  }

  /** A title is only ever the stored content or the placeholder. */
  lemma TitleOnlyContentOrDefault(props: Value)
    requires Title(props).Ok?
    ensures TitleKeyAbsent(props) || ContentAt(props, Title(props).value)
    ensures !TitleKeyAbsent(props) ==> ContentAt(props, Title(props).value)
    ensures Title(props).value != NoTitle ==> ContentAt(props, Title(props).value)
  {
  }

  /** A present key whose value has the wrong kind is not defaulted: it raises. */
  lemma TitleErrors(props: Value)
    requires props.Object? && "Name" in props.fields
    ensures !props.fields["Name"].Object? ==> Title(props) == Err(AttributeError)
    ensures var name := props.fields["Name"];
            name.Object? && "title" in name.fields ==>
              var titles := name.fields["title"];
              && (titles == List([]) ==> Title(props) == Err(IndexError))
              && (titles == Str("") ==> Title(props) == Err(IndexError))
              && (titles.Null? ==> Title(props) == Err(TypeError))
              && (titles.Object? ==> Title(props) == Err(KeyError))
              && (titles.List? && |titles.items| > 0 && !titles.items[0].Object? ==>
                    Title(props) == Err(AttributeError))
              && (titles.List? && |titles.items| > 0 && titles.items[0].Object?
                  && "text" in titles.items[0].fields
                  && !titles.items[0].fields["text"].Object? ==>
                    Title(props) == Err(AttributeError))
  {
  }

  lemma StartDateFromPath(props: Value, d: Value)
    requires props.Object? && "Date" in props.fields
    requires props.fields["Date"].Object? && "date" in props.fields["Date"].fields
    requires props.fields["Date"].fields["date"].Object?
    requires "start" in props.fields["Date"].fields["date"].fields
    requires props.fields["Date"].fields["date"].fields["start"] == d
    ensures StartDate(props) == Ok(d)
  {
  }

  /** An absent `Date`, `date` or `start` key reads as `None`, which is falsy. */
  lemma StartDateAbsentIsNone(props: Value)
    requires props.Object?
    requires || "Date" !in props.fields
             || (props.fields["Date"].Object? && "date" !in props.fields["Date"].fields)
             || (props.fields["Date"].Object? && "date" in props.fields["Date"].fields
                 && props.fields["Date"].fields["date"].Object?
                 && "start" !in props.fields["Date"].fields["date"].fields)
    ensures StartDate(props) == Ok(Null)
    ensures !Truthy(StartDate(props).value)
  {
  }

  /** A present `Date` or `date` value that is not a dict (notably `null`) raises. */
  lemma StartDateErrors(props: Value)
    requires props.Object? && "Date" in props.fields
    ensures !props.fields["Date"].Object? ==> StartDate(props) == Err(AttributeError)
    ensures props.fields["Date"].Object? && "date" in props.fields["Date"].fields
            && !props.fields["Date"].fields["date"].Object? ==>
              StartDate(props) == Err(AttributeError)
  {
  }

  /** The whole path `Date.date.start` is present, every value before it a
      dict, and ends in `d`. */
  ghost predicate StartAt(props: Value, d: Value) {
    && props.Object? && "Date" in props.fields
    && var dateProp := props.fields["Date"];
    && dateProp.Object? && "date" in dateProp.fields
    && var date := dateProp.fields["date"];
    && date.Object? && "start" in date.fields
    && date.fields["start"] == d
  }

  /** Some key of the date path is absent, every value before it a dict. */
  ghost predicate DateKeyAbsent(props: Value) {
    && props.Object?
    && ("Date" !in props.fields
        || var dateProp := props.fields["Date"];
           && dateProp.Object?
           && ("date" !in dateProp.fields
               || var date := dateProp.fields["date"];
                  date.Object? && "start" !in date.fields))
  }

  /** The record's `properties` dict is `props`, or the key is absent and
      `props` is the `{}` default. */
  ghost predicate PropertiesAre(record: Value, props: Value) {
    && record.Object?
    && (if "properties" in record.fields then record.fields["properties"] == props
        else props == EmptyObject)
  }

  /** The gate, over the record's JSON: with `t` the stored content (or
      "No Title" when a title key is absent) and `d` the stored
      `Date.date.start` (or None when a date key is absent), the record yields
      `{summary: t, start: d, end: d}` exactly when both are truthy, and is
      dropped otherwise. In particular a missing date, or a null or empty
      content, drops the record. */
  lemma ExtractGate(record: Value, props: Value, t: Value, d: Value)
    requires PropertiesAre(record, props)
    requires ContentAt(props, t) || (TitleKeyAbsent(props) && t == NoTitle)
    requires StartAt(props, d) || (DateKeyAbsent(props) && d == Null)
    ensures Extract(record) == if Truthy(t) && Truthy(d) then Ok(Some(Event(t, d, d))) else Ok(None)
    ensures DateKeyAbsent(props) ==> Extract(record) == Ok(None)
    ensures t == Null || t == Str("") ==> Extract(record) == Ok(None)
  {
    if ContentAt(props, t) {
      TitleFromContent(props, t);
    } else {
      TitleDefaultsWhenAbsent(props);
    }
    if StartAt(props, d) {
      StartDateFromPath(props, d);
    } else {
      StartDateAbsentIsNone(props);
    }
  }

  /** A page without a `properties` key is always dropped: its title is
      "No Title" but its date is None. */
  lemma ExtractNoProperties(record: Value)
    requires record.Object? && "properties" !in record.fields
    ensures Extract(record) == Ok(None)
  {
  }

  /** A record that is not a dict, or whose `properties` is present but not a
      dict (notably `null`), raises; so does the whole fetch. */
  lemma ExtractRecordErrors(record: Value)
    ensures !record.Object? ==> Extract(record) == Err(AttributeError)
    ensures record.Object? && "properties" in record.fields
            && !record.fields["properties"].Object? ==>
              Extract(record) == Err(AttributeError)
  {
  }

  /** Present values of the wrong kind on the title path raise. */
  lemma ExtractTitleErrors(record: Value, props: Value)
    requires PropertiesAre(record, props)
    requires props.Object? && "Name" in props.fields
    ensures !props.fields["Name"].Object? ==> Extract(record) == Err(AttributeError)
    ensures var name := props.fields["Name"];
            name.Object? && "title" in name.fields ==>
              var titles := name.fields["title"];
              && (titles == List([]) ==> Extract(record) == Err(IndexError))
              && (titles.List? && |titles.items| > 0 && !titles.items[0].Object? ==>
                    Extract(record) == Err(AttributeError))
              && (titles.List? && |titles.items| > 0 && titles.items[0].Object?
                  && "text" in titles.items[0].fields
                  && !titles.items[0].fields["text"].Object? ==>
                    Extract(record) == Err(AttributeError))
  {
    TitleErrors(props);
  }

  /** With a readable title, a present `Date` or `date` value that is not a
      dict (notably `"date": null`) raises instead of dropping the record. */
  lemma ExtractDateErrors(record: Value, props: Value, t: Value)
    requires PropertiesAre(record, props)
    requires ContentAt(props, t) || (TitleKeyAbsent(props) && t == NoTitle)
    requires props.Object? && "Date" in props.fields
    ensures !props.fields["Date"].Object? ==> Extract(record) == Err(AttributeError)
    ensures var dateProp := props.fields["Date"];
            dateProp.Object? && "date" in dateProp.fields && !dateProp.fields["date"].Object? ==>
              Extract(record) == Err(AttributeError)
  {
    if ContentAt(props, t) {
      TitleFromContent(props, t);
    } else {
      TitleDefaultsWhenAbsent(props);
    }
    StartDateErrors(props);
  }

  // ---------------------------------------------------------------------------
  // The loop over all records

  /** The parse loop over `records`, as a function: the events of the kept
      records in order, or the exception of the first record that raises.
      Written from the back so that a prefix is one loop state. */
  function ParseAll(records: seq<Value>): (r: Result<seq<Event>>)
    ensures r.Ok? ==> |r.value| <= |records|
    decreases |records|
  {
    if |records| == 0 then Ok([])
    else
      var events :- ParseAll(records[..|records| - 1]);
      var kept :- Extract(records[|records| - 1]);
      match kept
      case None => Ok(events)
      case Some(e) => Ok(events + [e])
  }

  /** One more record: the loop state after it, from the state before it. */
  lemma ParseAllSnoc(records: seq<Value>, record: Value)
    ensures ParseAll(records + [record]) ==
              match ParseAll(records)
              case Err(e) => Err(e)
              case Ok(events) =>
                match Extract(record)
                case Err(e) => Err(e)
                case Ok(None) => Ok(events)
                case Ok(Some(ev)) => Ok(events + [ev])
  {
    var all := records + [record];
    assert all[..|all| - 1] == records && all[|all| - 1] == record;
  }

  /** The loop state after record `i`, from the state before it. */
  lemma ParseAllStep(records: seq<Value>, i: nat)
    requires i < |records|
    ensures ParseAll(records[..i + 1]) ==
              match ParseAll(records[..i])
              case Err(e) => Err(e)
              case Ok(events) =>
                match Extract(records[i])
                case Err(e) => Err(e)
                case Ok(None) => Ok(events)
                case Ok(Some(ev)) => Ok(events + [ev])
  {
    assert records[..i + 1] == records[..i] + [records[i]];
    ParseAllSnoc(records[..i], records[i]);
  }

  /** The positions, in increasing order, of the records that yield an event. */
  function Origins(records: seq<Value>): seq<int>
    decreases |records|
  {
    if |records| == 0 then []
    else
      var last := Extract(records[|records| - 1]);
      Origins(records[..|records| - 1])
      + (if last.Ok? && last.value.Some? then [|records| - 1] else [])
  }

  /** The whole loop succeeds exactly when every record extracts without error. */
  lemma {:induction false} ParseAllOkIff(records: seq<Value>)
    ensures ParseAll(records).Ok? <==> forall i :: 0 <= i < |records| ==> Extract(records[i]).Ok?
    decreases |records|
  {
    if |records| > 0 {
      var n := |records| - 1;
      var prefix := records[..n];
      ParseAllOkIff(prefix);
      assert forall i :: 0 <= i < n ==> prefix[i] == records[i];
    }
  }

  /** A failed loop reports the error of the first record that raises. */
  lemma {:induction false} ParseAllFirstError(records: seq<Value>)
    requires ParseAll(records).Err?
    ensures exists i :: && 0 <= i < |records|
                        && Extract(records[i]) == Err(ParseAll(records).error)
                        && forall j :: 0 <= j < i ==> Extract(records[j]).Ok?
    decreases |records|
  {
    var n := |records| - 1;
    var prefix := records[..n];
    assert forall i :: 0 <= i < n ==> prefix[i] == records[i];
    if ParseAll(prefix).Err? {
      ParseAllFirstError(prefix);
      var i :| && 0 <= i < |prefix|
                && Extract(prefix[i]) == Err(ParseAll(prefix).error)
                && forall j :: 0 <= j < i ==> Extract(prefix[j]).Ok?;
      assert Extract(records[i]) == Err(ParseAll(records).error);
    } else {
      ParseAllOkIff(prefix);
      assert Extract(records[n]) == Err(ParseAll(records).error);
    }
  }

  /** Once a prefix of the records has raised, the rest are never looked at. */
  lemma {:induction false} ParseAllErrorSticks(records: seq<Value>, k: nat)
    requires k <= |records|
    requires ParseAll(records[..k]).Err?
    ensures ParseAll(records) == ParseAll(records[..k])
    decreases |records| - k
  {
    if k < |records| {
      assert records[..k + 1][..k] == records[..k];
      assert ParseAll(records[..k + 1]) == ParseAll(records[..k]);
      ParseAllErrorSticks(records, k + 1);
    } else {
      assert records[..k] == records;
    }
  }

  /** Origins are positions of `records`, listed in strictly increasing order,
      so no record is used twice. */
  lemma {:induction false} OriginsIncreasing(records: seq<Value>)
    ensures forall k :: 0 <= k < |Origins(records)| ==> 0 <= Origins(records)[k] < |records|
    ensures forall k, l :: 0 <= k < l < |Origins(records)| ==> Origins(records)[k] < Origins(records)[l]
    decreases |records|
  {
    if |records| > 0 {
      var n := |records| - 1;
      OriginsIncreasing(records[..n]);
      var po := Origins(records[..n]);
      var o := Origins(records);
      assert o == po || o == po + [n];
    }
  }

  /** Every record that is not an origin is skipped or raises. */
  lemma {:induction false} OriginsCoverKept(records: seq<Value>)
    ensures forall i :: 0 <= i < |records| && i !in Origins(records) ==>
              !(Extract(records[i]).Ok? && Extract(records[i]).value.Some?)
    decreases |records|
  {
    if |records| > 0 {
      var n := |records| - 1;
      var prefix := records[..n];
      OriginsCoverKept(prefix);
      var po := Origins(prefix);
      var o := Origins(records);
      assert o == po || o == po + [n];
      forall i | 0 <= i < |records| && i !in o
        ensures !(Extract(records[i]).Ok? && Extract(records[i]).value.Some?)
      {
        if i < n {
          assert records[i] == prefix[i];
        }
      }
    }
  }

  /** The i-th event is what the record at the i-th origin yields. */
  lemma {:induction false} EventsFromOrigins(records: seq<Value>)
    requires ParseAll(records).Ok?
    ensures |Origins(records)| == |ParseAll(records).value|
    ensures forall k :: 0 <= k < |Origins(records)| ==>
              0 <= Origins(records)[k] < |records|
              && Extract(records[Origins(records)[k]]) == Ok(Some(ParseAll(records).value[k]))
    decreases |records|
  {
    if |records| > 0 {
      var n := |records| - 1;
      var prefix := records[..n];
      EventsFromOrigins(prefix);
      OriginsIncreasing(prefix);
      var pe, po := ParseAll(prefix).value, Origins(prefix);
      var last := Extract(records[n]);
      var events, o := ParseAll(records).value, Origins(records);
      assert o == po + (if last.value.Some? then [n] else []);
      assert events == pe + (if last.value.Some? then [last.value.value] else []);
      forall k | 0 <= k < |o|
        ensures 0 <= o[k] < |records| && Extract(records[o[k]]) == Ok(Some(events[k]))
      {
        if k < |po| {
          assert records[po[k]] == prefix[po[k]];
        }
      }
    }
  }

  /** Filter-map with order preserved: the i-th event comes from the record at
      the i-th origin, origins strictly increase (so each record yields at most
      one event), and every record that is not an origin is skipped. */
  lemma {:induction false} ParseAllOrigins(records: seq<Value>)
    requires ParseAll(records).Ok?
    ensures var events, o := ParseAll(records).value, Origins(records);
            && |o| == |events|
            && (forall k :: 0 <= k < |o| ==>
                  0 <= o[k] < |records| && Extract(records[o[k]]) == Ok(Some(events[k])))
            && (forall k, l :: 0 <= k < l < |o| ==> o[k] < o[l])
            && (forall i :: 0 <= i < |records| && i !in o ==> Extract(records[i]) == Ok(None))
  {
    OriginsIncreasing(records);
    OriginsCoverKept(records);
    EventsFromOrigins(records);
    ParseAllOkIff(records);
  }

  /** An event is produced exactly when some record yields it. */
  lemma {:induction false} ParseAllMembership(records: seq<Value>, e: Event)
    requires ParseAll(records).Ok?
    ensures e in ParseAll(records).value <==>
              exists i :: 0 <= i < |records| && Extract(records[i]) == Ok(Some(e))
  {
    ParseAllOrigins(records);
    var events, o := ParseAll(records).value, Origins(records);
    if e in events {
      var k :| 0 <= k < |events| && events[k] == e;
      assert Extract(records[o[k]]) == Ok(Some(e));
    }
    if exists i :: 0 <= i < |records| && Extract(records[i]) == Ok(Some(e)) {
      var i :| 0 <= i < |records| && Extract(records[i]) == Ok(Some(e));
      if i !in o {
        assert Extract(records[i]) == Ok(None);
      } else {
        var k :| 0 <= k < |o| && o[k] == i;
        assert events[k] == e;
      }
    }
  }

  // ---------------------------------------------------------------------------
  // The whole fetch

  /** `data.get("results", [])`, then the elements the loop iterates over. */
  function Records(data: Value): Result<seq<Value>> {
    var results :- Get(data, "results", List([]));
    Iterate(results)
  }

  /** `fetch_notion_events` after the HTTP response has been decoded to `data`. */
  function Fetch(data: Value): (r: Result<seq<Event>>)
    ensures !data.Object? ==> r == Err(AttributeError)
    ensures data.Object? && "results" !in data.fields ==> r == Ok([])
    ensures r.Ok? ==> Records(data).Ok? && |r.value| <= |Records(data).value|
  {
    var records :- Records(data);
    ParseAll(records)
  }

  /** The parse loop as the script runs it: one record at a time, appending
      kept events, stopping at the first exception. */
  method FetchNotionEvents(data: Value) returns (r: Result<seq<Event>>)
    ensures r == Fetch(data)
    ensures data.Object? && "results" !in data.fields ==> r == Ok([])
    ensures r.Ok? ==> |r.value| <= |Records(data).value|
  {
    var records := Records(data);
    if records.Err? {
      return Err(records.error);
    }
    var rs := records.value;
    var events: seq<Event> := [];
    var i := 0;
    while i < |rs|
      invariant 0 <= i <= |rs|
      invariant ParseAll(rs[..i]) == Ok(events)
    {
      ParseAllStep(rs, i);
      var kept := Extract(rs[i]);
      if kept.Err? {
        ParseAllErrorSticks(rs, i + 1);
        return Err(kept.error);
      }
      if kept.value.Some? {
        events := events + [kept.value.value];
      }
      i := i + 1;
    }
    assert rs[..i] == rs;
    r := Ok(events);
  }
}
