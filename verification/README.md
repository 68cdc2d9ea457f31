# notioncalendar: a Dafny model of the Notion-to-Google-Calendar sync

`sync_calendar.py` queries a Notion database and copies its dated pages into a
Google Calendar. The model covers the script's two pieces of logic:

- **Parsing** (`fetch_notion_events`). This walks the `results` of the decoded
  query response. For each page it reads the title at
  `properties.Name.title[0].text.content`, with `"No Title"` as the fallback, and
  the date at `properties.Date.date.start`. It keeps a page only when both are
  truthy. A kept page becomes an event `{summary, start, end}` with `start == end`.
- **Posting** (`post_to_google_calendar`). This builds one Calendar event body per
  event, `{summary, start: {dateTime, timeZone: "UTC"}, end: {dateTime, timeZone: "UTC"}}`,
  and inserts them one after another.

The HTTP response is an input value (`Json.Value`).

Python's operations on decoded JSON are modelled exactly, and each returns a
`Result` that carries the exception Python would raise:

- `dict.get`: only dicts have it. A present key returns its stored value, even
  when that value is `null`.
- `[0]` and iteration: both behave as they do on lists, strings and dicts.

The chained `.get` calls therefore default only on *absent* keys. A present
value of the wrong kind aborts the whole fetch. For example, `"date": null` is
what Notion sends for an empty date property, and it raises AttributeError.

Modules:
- `Json`: JSON values and Python truthiness.
- `Py`: exceptions, `Result`, `Get`, `Index0`, `Iterate`.
- `Notion`: per-page extraction, the parse loop (`ParseAll`, `FetchNotionEvents`)
  and its filter-map properties.
- `Google`: event bodies, their decoder `ReadBody`, the insert loop, and the
  fetch-then-post composition `Sync`.
- `Scenarios`: worked examples over concrete responses.

What `sync_calendar.py` does not do, and the model therefore does not do either:
- Every fetched event is inserted. Nothing already in the calendar is looked up or skipped.
- Two identical events in one fetch are both inserted.
- An event carries only a summary, a start and an end. The end equals the start, and both are sent as given, with the time zone "UTC".
- The first exception while inserting ends the run, and later events are not attempted. The model does not cover insert failures (see "Left out").
- The run reports nothing beyond the printed lines.

## Model

| member | source | states |
|---|---|---|
| Py.Get | sync_calendar.py:40-42 | `.get` raises AttributeError exactly when the receiver is not a dict; a present key yields its stored value even when it is null; only an absent key yields the default |
| Py.Index0 | sync_calendar.py:41 | `[0]` gives the first list element or first character; an empty list or string raises IndexError, a dict KeyError, null/bool/number TypeError, each exactly in those cases |
| Py.Iterate | sync_calendar.py:39 | the loop visits a list's elements, a string's characters as one-character strings, and nothing for an empty dict; a non-empty dict raises AttributeError; null/bool/number raise TypeError exactly |
| Notion.Extract | sync_calendar.py:40-45 | every event a page yields has a truthy summary, a truthy start, and end equal to start |
| Notion.TitleFromContent | sync_calendar.py:41 | when the whole path Name.title[0].text.content is present, the title is the stored content |
| Notion.TitleDefaultsWhenAbsent | sync_calendar.py:41 | when `Name`, `title`, `text` or `content` is absent (everything before it well-formed), the title is "No Title" |
| Notion.TitleOnlyContentOrDefault | sync_calendar.py:41 | a title that reads without error is either the stored content or, when a key was absent, the placeholder; anything other than "No Title" is stored content |
| Notion.TitleErrors | sync_calendar.py:41 | a present non-dict `Name`, an empty `title` list or string, a null or dict `title`, a non-dict first element, or a present non-dict `text` raises instead of defaulting |
| Notion.StartDateFromPath | sync_calendar.py:42 | when Date.date.start is present, the date is the stored value |
| Notion.StartDateAbsentIsNone | sync_calendar.py:42 | an absent `Date`, `date` or `start` key reads as None, which is falsy |
| Notion.StartDateErrors | sync_calendar.py:42 | a present non-dict `Date`, or a present non-dict (including null) `date`, raises AttributeError |
| Notion.ExtractGate | sync_calendar.py:40-45 | over the record's JSON: with t the stored Name.title[0].text.content (or "No Title" when a title key is absent) and d the stored Date.date.start (or None when a date key is absent), the record yields {summary: t, start: d, end: d} iff both are truthy, and is dropped otherwise; a missing date or a null or empty content drops it |
| Notion.ExtractNoProperties | sync_calendar.py:40-44 | a page without a `properties` key is dropped (its title is "No Title", its date None) |
| Notion.ExtractRecordErrors | sync_calendar.py:40 | a record that is not a dict, or whose `properties` is present but not a dict (null included), raises AttributeError |
| Notion.ExtractTitleErrors | sync_calendar.py:41 | a present non-dict `Name`, an empty `title` list, a non-dict first title element, or a present non-dict `text` makes the record raise |
| Notion.ExtractDateErrors | sync_calendar.py:42 | with a readable title, a present non-dict `Date`, or a present non-dict (null included) `date`, makes the record raise AttributeError instead of being dropped |
| Notion.ParseAll | sync_calendar.py:39-46 | the loop yields no more events than there are records |
| Notion.ParseAllOkIff | sync_calendar.py:39-46 | the loop completes iff no record raises |
| Notion.ParseAllFirstError | sync_calendar.py:39-46 | a failed loop reports the exception of a record all of whose predecessors read without error |
| Notion.ParseAllErrorSticks | sync_calendar.py:39-46 | once a prefix has raised, later records do not change the outcome |
| Notion.OriginsIncreasing | sync_calendar.py:39-45 | the records events come from are listed at valid, strictly increasing positions |
| Notion.OriginsCoverKept | sync_calendar.py:39-45 | every record that yields an event is among the origins |
| Notion.EventsFromOrigins | sync_calendar.py:39-45 | there is one event per origin and the k-th event is what the k-th origin record yields |
| Notion.ParseAllOrigins | sync_calendar.py:39-46 | filter-map with order kept: events come from strictly increasing record positions, each record yields at most one event, and every other record is skipped |
| Notion.ParseAllMembership | sync_calendar.py:39-46 | an event is in the output iff some record yields it |
| Notion.Fetch | sync_calendar.py:35-46 | a non-dict response raises AttributeError; a response without "results" gives no events; otherwise no more events than records |
| Notion.FetchNotionEvents | sync_calendar.py:36-46 | the record-by-record loop that stops at the first exception computes the same outcome as the parse, and gives no events without "results" |
| Google.EventBody | sync_calendar.py:52-56 | the body has exactly the keys summary/start/end, the summary unchanged, start and end each exactly {dateTime, timeZone} with timeZone "UTC" and dateTime the event's start/end |
| Google.BodyRoundTrip | sync_calendar.py:52-56 | the event can be read back from its body unchanged |
| Google.BodyExact | sync_calendar.py:52-56 | any value that reads back as an event is exactly that event's body: nothing else is added |
| Google.BodyInjective | sync_calendar.py:52-56 | distinct events get distinct bodies |
| Google.PostToGoogleCalendar | sync_calendar.py:51-57 | one insert per event, in list order: the i-th insert reads back as the i-th event |
| Google.InsertsMatchOccurrences | sync_calendar.py:51-57 | no deduplication: every event's body is inserted exactly as many times as the event occurs |
| Google.Sync | sync_calendar.py:62-68 | posting starts only after a complete fetch; a fetch exception means no inserts, otherwise one insert per fetched event in order |
| Scenarios.UndatedPageDropped | sync_calendar.py:39-46 | a response with a dated "Standup" page and an undated "Planning" page yields the single Standup event |
| Scenarios.NullDateAbortsFetch | sync_calendar.py:42 | a page with `"date": null` makes the whole fetch raise AttributeError, losing events already parsed |
| Scenarios.DuplicatesBothSent | sync_calendar.py:51-57 | two identical events give two identical inserts |

## Left out

- The HTTP query to Notion and `raise_for_status` (sync_calendar.py:32-35). These are network I/O; the decoded response is the model's input.
- Credential loading and Calendar client construction (sync_calendar.py:23-28, 50). These are foreign library calls. A failure to build the client, for example `json.loads(None)` when the credentials variable is unset, would mean no inserts; `Google.Sync` does not model that failure.
- The `.insert(...).execute()` call (sync_calendar.py:57). An insert is modelled as the body it sends; an insert that raises would abort the remaining loop, and that is not modelled.
- Environment variables, headers and scopes (sync_calendar.py:7-20). These are configuration.
- `print` output and the message printed by the top-level `except` (sync_calendar.py:58, 63-70). This is console I/O. `Google.Sync` keeps only the fact that an exception stops the run.
- JSON numbers are modelled as reals, so Python's int/float distinction and float precision are not modelled. Only their truthiness matters to the script.
- Py.Iterate: a non-empty dict under "results" is reported directly as the AttributeError its first key would raise, because a `map` has no key order. The outcome is the same as Python's.
