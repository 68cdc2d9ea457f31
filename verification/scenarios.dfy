/** Worked examples: concrete query responses, what the model says the
    script keeps, drops, fails on, and sends. */
module Scenarios {
  import opened Json
  import opened Py
  import opened Notion
  import opened Google

  /** A Notion page with a title text and, when given, a date property. */
  function Page(title: string, date: Option<Value>): Value {
    var text := Object(map["content" := Str(title)]);
    var name := Object(map["title" := List([Object(map["text" := text])])]);
    var props := match date
      case None => map["Name" := name]
      case Some(d) => map["Name" := name, "Date" := Object(map["date" := d])];
    Object(map["properties" := Object(props)])
  }

  function Response(pages: seq<Value>): Value {
    Object(map["results" := List(pages)])
  }

  /** Such a page reads as its title and date. */
  lemma PageFields(title: string, date: Option<Value>)
    ensures Properties(Page(title, date)).Ok?
    ensures Title(Properties(Page(title, date)).value) == Ok(Str(title))
    ensures StartDate(Properties(Page(title, date)).value) ==
              match date
              case None => Ok(Null)
              case Some(d) => Get(d, "start", Null)
  {
    var props := Properties(Page(title, date)).value;
    TitleFromContent(props, Str(title));
    if date.None? {
      StartDateAbsentIsNone(props);
    }
  }

  const Day: Value := Str("2024-03-01")

  /** A dated page is kept and a page without a date property is dropped. */
  lemma UndatedPageDropped()
    ensures var standup := Page("Standup", Some(Object(map["start" := Day])));
            var planning := Page("Planning", None);
            Fetch(Response([standup, planning])) == Ok([Event(Str("Standup"), Day, Day)])
  {
    var standup := Page("Standup", Some(Object(map["start" := Day])));
    var planning := Page("Planning", None);
    var records := [standup, planning];
    assert Records(Response(records)) == Ok(records);
    PageFields("Standup", Some(Object(map["start" := Day])));
    PageFields("Planning", None);
    var ev := Event(Str("Standup"), Day, Day);
    assert Extract(standup) == Ok(Some(ev));
    assert Extract(planning) == Ok(None);
    assert ParseAll([]) == Ok([]);
    ParseAllSnoc([], standup);
    assert [] + [standup] == [standup];
    assert [] + [ev] == [ev];
    assert ParseAll([standup]) == Ok([ev]);
    ParseAllSnoc([standup], planning);
    assert [standup] + [planning] == records;
    assert ParseAll(records) == Ok([ev]);
  }

  /** A date property that Notion reports as `"date": null` is not defaulted:
      the whole fetch raises, and the event already parsed is lost. */
  lemma NullDateAbortsFetch()
    ensures var standup := Page("Standup", Some(Object(map["start" := Day])));
            var empty := Page("Planning", Some(Null));
            Fetch(Response([standup, empty])) == Err(AttributeError)
  {
    var standup := Page("Standup", Some(Object(map["start" := Day])));
    var empty := Page("Planning", Some(Null));
    var records := [standup, empty];
    assert Records(Response(records)) == Ok(records);
    assert Extract(standup) == Ok(Some(Event(Str("Standup"), Day, Day)));
    assert Extract(empty) == Err(AttributeError);
    ParseAllSnoc([], standup);
    assert [] + [standup] == [standup];
    ParseAllSnoc([standup], empty);
    assert [standup] + [empty] == records;
    assert ParseAll(records) == Err(AttributeError);
  }

  /** The same page twice gives the same insert twice. */
  lemma DuplicatesBothSent(e: Event, sent: seq<Value>)
    requires |sent| == 2
    requires ReadBody(sent[0]) == Some(e) && ReadBody(sent[1]) == Some(e)
    ensures sent == [EventBody(e), EventBody(e)]
  {
    BodyExact(sent[0], e);
    BodyExact(sent[1], e);
  }
}
