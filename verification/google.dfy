/** The posting half of the sync: `post_to_google_calendar` builds one
    Calendar event body per fetched event and inserts it. The Calendar client
    is not modelled; an insert is the body it would send. */
module Google {
  import opened Json
  import opened Py
  import opened Notion

  const Utc: Value := Str("UTC")

  /** `{"dateTime": dateTime, "timeZone": "UTC"}` */
  function Stamp(dateTime: Value): Value {
    Object(map["dateTime" := dateTime, "timeZone" := Utc])
  }

  /** The `event_body` dict sent for one event. */
  function EventBody(e: Event): (body: Value)
    ensures body.Object? && body.fields.Keys == {"summary", "start", "end"}
    ensures Get(body, "summary", Null) == Ok(e.summary)
    ensures body.fields["start"].Object? && body.fields["start"].fields.Keys == {"dateTime", "timeZone"}
    ensures body.fields["end"].Object? && body.fields["end"].fields.Keys == {"dateTime", "timeZone"}
    ensures Get(body.fields["start"], "timeZone", Null) == Ok(Str("UTC"))
    ensures Get(body.fields["end"], "timeZone", Null) == Ok(Str("UTC"))
    ensures Get(body.fields["start"], "dateTime", Null) == Ok(e.start)
    ensures Get(body.fields["end"], "dateTime", Null) == Ok(e.end)
  {
    Object(map["summary" := e.summary, "start" := Stamp(e.start), "end" := Stamp(e.end)])
  }

  /** Reads a `{dateTime, timeZone: "UTC"}` stamp back; `None` for anything else. */
  function ReadStamp(v: Value): Option<Value> {
    if v.Object? && v.fields.Keys == {"dateTime", "timeZone"} && v.fields["timeZone"] == Utc
    then Some(v.fields["dateTime"])
    else None
  }

  /** Reads an event body back into the event it was built from; `None` for
      any value that is not exactly of that shape. */
  function ReadBody(body: Value): Option<Event> {
    if body.Object? && body.fields.Keys == {"summary", "start", "end"} then
      match (ReadStamp(body.fields["start"]), ReadStamp(body.fields["end"]))
      case (Some(start), Some(end)) => Some(Event(body.fields["summary"], start, end))
      case _ => None
    else None
  }

  /** Nothing of the event is lost in its body. */
  lemma BodyRoundTrip(e: Event)
    ensures ReadBody(EventBody(e)) == Some(e)
  {
  }

  /** Every value `ReadBody` accepts is the body of the event it reads, so a
      body carries nothing beyond the event's three fields. */
  lemma BodyExact(body: Value, e: Event)
    requires ReadBody(body) == Some(e)
    ensures EventBody(e) == body
  {
    var start, end := body.fields["start"], body.fields["end"];
    assert start.fields == map["dateTime" := e.start, "timeZone" := Utc];
    assert end.fields == map["dateTime" := e.end, "timeZone" := Utc];
    assert body.fields == map["summary" := e.summary, "start" := Stamp(e.start), "end" := Stamp(e.end)];
  }

  /** Distinct events get distinct bodies. */
  lemma BodyInjective(a: Event, b: Event)
    requires EventBody(a) == EventBody(b)
    ensures a == b
  {
    BodyRoundTrip(a);
    BodyRoundTrip(b);
  }

  /** The insert loop: one insert per event, in list order, nothing skipped. */
  method PostToGoogleCalendar(events: seq<Event>) returns (sent: seq<Value>)
    ensures |sent| == |events|
    ensures forall i :: 0 <= i < |events| ==> ReadBody(sent[i]) == Some(events[i])
  {
    sent := [];
    var i := 0;
    while i < |events|
      invariant 0 <= i <= |events|
      invariant |sent| == i
      invariant forall j :: 0 <= j < i ==> ReadBody(sent[j]) == Some(events[j])
    {
      var body := EventBody(events[i]);
      BodyRoundTrip(events[i]);
      sent := sent + [body];
      i := i + 1;
    }
  }

  /** Mapping a sequence through an injective `f` keeps every multiplicity. */
  lemma {:induction false} InjectiveMapMultiplicity<A, B>(xs: seq<A>, ys: seq<B>, f: A -> B, x: A)
    requires |ys| == |xs|
    requires forall i :: 0 <= i < |xs| ==> ys[i] == f(xs[i])
    requires forall a, b :: f(a) == f(b) ==> a == b
    ensures multiset(ys)[f(x)] == multiset(xs)[x]
    decreases |xs|
  {
    if |xs| > 0 {
      var n := |xs| - 1;
      InjectiveMapMultiplicity(xs[..n], ys[..n], f, x);
      LastMultiplicity(ys, f(x));
      LastMultiplicity(xs, x);
    }
  }

  /** No deduplication: each event is inserted exactly as often as it occurs
      in the list, so two identical events give two identical inserts. */
  lemma InsertsMatchOccurrences(events: seq<Event>, sent: seq<Value>, e: Event)
    requires |sent| == |events|
    requires forall i :: 0 <= i < |events| ==> ReadBody(sent[i]) == Some(events[i])
    ensures multiset(sent)[EventBody(e)] == multiset(events)[e]
  {
    forall i | 0 <= i < |events|
      ensures sent[i] == EventBody(events[i])
    {
      BodyExact(sent[i], events[i]);
    }
    forall a, b | EventBody(a) == EventBody(b)
      ensures a == b
    {
      BodyInjective(a, b);
    }
    InjectiveMapMultiplicity(events, sent, EventBody, e);
  }

  /** The last element of `s` adds one occurrence of itself to those in the
      rest, and none of anything else. */
  lemma LastMultiplicity<T>(s: seq<T>, y: T)
    requires |s| > 0
    ensures multiset(s)[y] == multiset(s[..|s| - 1])[y] + (if s[|s| - 1] == y then 1 else 0)
  {
    assert s == s[..|s| - 1] + [s[|s| - 1]];
    assert multiset(s) == multiset(s[..|s| - 1]) + multiset{s[|s| - 1]};
  }

  /** The main block: fetch everything, then insert everything. An exception
      while fetching is caught before any insert, so nothing is sent. */
  method Sync(data: Value) returns (sent: seq<Value>, failure: Option<PyError>)
    ensures failure.Some? <==> Fetch(data).Err?
    ensures failure.Some? ==> failure.value == Fetch(data).error && sent == []
    ensures failure.None? ==> |sent| == |Fetch(data).value|
    ensures failure.None? ==>
              forall i :: 0 <= i < |sent| ==> ReadBody(sent[i]) == Some(Fetch(data).value[i])
  {
    var fetched := FetchNotionEvents(data);
    if fetched.Err? {
      return [], Some(fetched.error);
    }
    sent := PostToGoogleCalendar(fetched.value);
    failure := None;
  }
}
