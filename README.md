# Academic calendar sync: a Dafny model

This project models the decision logic of a small script. The script syncs
an institution's academic calendar into a task tracker, in four steps:

- It works out the current term (year and semester) from the wall clock.
- It downloads the term's calendar PDF from the institution's landing page.
  The link it downloads is the first anchor whose trimmed, normalized text
  contains "calendario academico".
- A generative model turns the PDF into a JSON calendar.
- Every task in the tracker's configured section is deleted. Then one task
  is created for each calendar event that is not in the past.

Both the PDF and the JSON file are cached on disk under names built from
the term. The script skips any step whose output file already exists.

The modules follow the script's structure:

- `Common`: `Option`, `Result` and the error kinds a run can end with.
- `TermKey`: `getYearSemester`, the decimal rendering of the year and
  semester, and the cache file names. Also proves the names can be parsed
  back to the term.
- `CalendarData`: the calendar record the JSON file holds (months, events,
  the seven categories) and the document-order event sequence.
- `LinkPicker`: JavaScript `trim`, `includes` and the anchor loop of
  `getCalendarLink`. The loop is proved against a first-match function.
- `Tracker`: the tracker's section as a class. Its fields are the task
  list, the next id and a log of the calls made. Also holds the lemmas
  about that log.
- `Reconciler`: the delete loop and the two nested creation loops of
  `main`, as methods with loop invariants. They are proved against
  `Planned`, a function that says which tasks a run creates. `Planned` is
  shown to be an order-preserving filter of the events.
- `Cache`: the file system as a map from names to contents, with an effect
  log (`Host`). The extraction step is written as methods that follow the
  script, proved against the pure `Extraction` function. Lemmas on
  `Extraction` state the cache short-circuit.
- `Pipeline`: `main`, which runs extraction, reading and decoding of the
  calendar, and reconciliation.

The outside world enters as parameters:

- The current year and month.
- One clock reading per visited event (`clock: nat -> int`). The script
  reads the clock again for every event.
- The date parser (`parse: string -> Instant`). `Invalid` stands for an
  invalid date, which no comparison holds for.
- The text normalizer.
- What the landing page, the PDF fetch, the schema parse and the model
  return (`Services`).
- The JSON decoder of the calendar file.

Four behaviours of the script are easy to misread, and the model keeps them:

- An event with no start date, or one the parser rejects, still gets a task.
  `new Date(undefined)` is an invalid date, and `today > invalid` is false.
  An absent start date gives no due string; a rejected one is sent as the
  due string.
- An event dated today is skipped as soon as the clock is past that day's
  parsed instant (midnight). The comparison is between instants, not
  calendar days.
- A matching anchor with a missing or empty href is passed over, and the
  search goes on. The raw href is returned. Resolution against the base
  URL happens later, in the download.
- With the PDF absent, a failed download ends the run even when the JSON
  file is already on disk. The JSON check comes after the PDF step.

## Model

| member | source | states |
|---|---|---|
| TermKey.YearSemester | index.ts:171-176 | the year is kept unchanged; the semester is 1 exactly when the 1-based month is at most 6, and 2 exactly when it is at least 7 |
| TermKey.SameTermIffSameHalf | index.ts:173-174 | two months of one year give the same term exactly when both are in the same half of the year |
| TermKey.NatToString | index.ts:67 | rendering a number gives a non-empty string of decimal digits with no leading zero |
| TermKey.IntToString | index.ts:67 | the template literal's rendering of an integer: a minus sign before the digits of a negative one; `ParseIntRoundTrip` shows it reads back to the integer |
| TermKey.ParseIntRoundTrip | index.ts:67 | reading back the rendered year gives the year, negative years included |
| TermKey.IdentifierRoundTrip | index.ts:67 | the identifier `calendario_academico_{year}-{semester}` can be parsed back to the term it was built from |
| TermKey.IdentifierInjective | index.ts:67 | two terms share an identifier exactly when they are equal |
| TermKey.Identifier | index.ts:67 | the cache identifier of a term; `IdentifierRoundTrip` and `IdentifierInjective` show that it names the term uniquely |
| TermKey.PdfName | index.ts:68 | the PDF cache name, the identifier followed by `.pdf`; `CacheNamesShareIdentifier` states its properties |
| TermKey.JsonName | index.ts:78 | the JSON cache name, the identifier followed by `.json`; `CacheNamesShareIdentifier` states its properties |
| TermKey.CacheNamesShareIdentifier | index.ts:67-78 | the PDF and JSON names both start with the identifier and differ only in their suffix; a PDF name is never a JSON name; each kind of name determines the term |
| CalendarData.CategoryLabel | schema.ts:9-12 | each of the seven categories has a non-empty label |
| CalendarData.CategoryLabelInjective | schema.ts:9-12 | distinct categories have distinct labels, so a task's label names its category |
| CalendarData.Flatten | index.ts:34-35 | the events in the order the nested loop visits them, month by month; `FlattenAppend` and `FlattenLength` state its properties |
| CalendarData.FlattenAppend | index.ts:34-35 | the events of two runs of months, taken in document order, are the first run's events followed by the second's |
| CalendarData.FlattenLength | index.ts:34-35 | walking months and events in order visits exactly as many events as the months hold together |
| LinkPicker.TrimStartIsSuffix | index.ts:217 | dropping leading white space leaves a suffix that does not start with white space; only white space was removed |
| LinkPicker.TrimEndIsPrefix | index.ts:217 | dropping trailing white space leaves a prefix that does not end with white space; only white space was removed |
| LinkPicker.TrimIsMiddle | index.ts:217 | `trim` keeps a contiguous middle of the text that neither starts nor ends with white space, and removes only white space on either side |
| LinkPicker.Trim | index.ts:217 | `textContent.trim()`; `TrimIsMiddle` characterises it |
| LinkPicker.ContainsAt | index.ts:220 | `includes` holds whenever the phrase occurs at some position of the text |
| LinkPicker.ContainsHasOccurrence | index.ts:220 | conversely, when `includes` holds, the phrase occurs at the position the lemma returns |
| LinkPicker.Contains | index.ts:220 | `includes`; `ContainsAt` and `ContainsHasOccurrence` show it holds exactly when the phrase occurs somewhere |
| LinkPicker.Matches | index.ts:217-220 | the anchor's trimmed, normalized text includes "calendario academico" |
| LinkPicker.Qualifies | index.ts:217-222 | the anchor matches and has a non-empty href, the two tests the loop makes before returning |
| LinkPicker.FirstQualifying | index.ts:216-226 | the position found qualifies (its text matches and its href is non-empty) and no earlier anchor qualifies; when nothing is found, no anchor qualifies |
| LinkPicker.CalendarLink | index.ts:216-228 | a returned href is non-empty; nothing is returned exactly when no anchor qualifies |
| LinkPicker.FindCalendarLink | index.ts:216-228 | the loop returns the href of the first qualifying anchor in document order, and null exactly when none qualifies |
| LinkPicker.FirstMatchWins | index.ts:220-224 | a qualifying anchor's href is returned whatever follows it |
| LinkPicker.HreflessMatchSkipped | index.ts:221-224 | an anchor with a missing or empty href is passed over, even when its text matches |
| LinkPicker.CalendarLinkAppend | index.ts:216-228 | on a page split in two, the link is the first part's link if it has one, and otherwise the second part's |
| Tracker.TaskTracker.GetTasks | index.ts:25 | listing returns the section's tasks in order and logs the call |
| Tracker.TaskTracker.Delete | index.ts:29 | deleting removes the task with that id and nothing else; ids stay distinct |
| Tracker.TaskTracker.Add | index.ts:44-50 | adding appends a task with the given attributes and a fresh id |
| Tracker.DeleteKeepsValid | index.ts:29 | removing an id keeps the ids distinct and below the next id |
| Tracker.WithoutIdMembers | index.ts:29 | after a delete, a task is present exactly when it was present before and has a different id |
| Tracker.DeleteFirst | index.ts:27-30 | with distinct ids, deleting the first listed task's id removes exactly that task |
| Tracker.DeletesBeforeAdds | index.ts:25-53 | in the log of a run, every delete comes before every add |
| Tracker.DeletedExactlyOnce | index.ts:27-30 | every task listed at the start is deleted exactly once in the run's log |
| Reconciler.TaskFor | index.ts:44-50 | an event's task has content equal to its description, due string equal to its start date, label equal to `[category]`, and the configured project and section |
| Reconciler.StartInstant | index.ts:37 | `new Date(event.start_date)`: an absent start date is an invalid date, a present one is parsed; `InvalidDateKept` uses it |
| Reconciler.IsPast | index.ts:36-39 | `today > startDate`, false whenever the date is invalid; `InvalidDateKept` and `DatedEventKept` state when it holds |
| Reconciler.Step | index.ts:36-51 | one event's contribution: nothing when it is past, otherwise its task |
| Reconciler.PlannedAt | index.ts:34-51 | the tasks created for a run of events judged by consecutive clock readings; `PlannedAppend` and `PlannedIsFilter` state its properties |
| Reconciler.Planned | index.ts:34-51 | `PlannedAt` from the first clock reading; `PlannedIsFilter` and `PlannedCount` state what it holds |
| Reconciler.PlannedAppend | index.ts:34-35 | planning two runs of events is planning the first, then the second from the next clock reading on |
| Reconciler.KeptSpec | index.ts:36-42 | the kept positions are increasing and in range; a position is kept exactly when `today > start` is false for its event |
| Reconciler.PlannedIsFilter | index.ts:34-51 | the created tasks are an order-preserving filter of the events: the j-th task is the one for the j-th kept event |
| Reconciler.PlannedCount | index.ts:51-55 | the number of tasks created is the number of events not in the past, and at most the number of events |
| Reconciler.InvalidDateKept | index.ts:36-42 | an event with no start date, or one the parser rejects, is never skipped |
| Reconciler.DatedEventKept | index.ts:36-42 | a dated event is kept exactly when the clock reading taken for it is not later than its parsed instant |
| Reconciler.LaterRunKeepsFewer | index.ts:36-39 | when every clock reading is later, no event skipped before is kept |
| Reconciler.DeleteListed | index.ts:27-30 | the delete loop empties the section, logging one delete per listed task in listed order, and creates nothing |
| Reconciler.CreateForEvent | index.ts:36-51 | one event adds its task to the section and the log exactly when it is not past |
| Reconciler.CreateForMonth | index.ts:35-52 | a month's loop appends the planned tasks for its events, in order, to the section and the log, and counts them |
| Reconciler.Reconcile | index.ts:24-55 | the log is the listing, then one delete per listed task in order, then one add per planned task in order; the section ends with the planned tasks; the returned count is their number |
| Reconciler.ReconcileTwice | index.ts:24-55 | running twice over an unchanged calendar, with the same clock readings, leaves the same task contents and reports the same count |
| Reconciler.RunLog | index.ts:25-50 | the log after one run: the earlier calls, the listing, one delete per listed task, one add per planned task |
| Reconciler.RunDeletesBeforeAdds | index.ts:25-53 | among the calls one run adds to the log, every delete comes before every add |
| Reconciler.RunDeletesEachOnce | index.ts:27-30 | with distinct ids, one run adds exactly one delete of each listed task to the log |
| Cache.Download | index.ts:181-198 | the landing page is fetched first; a success names the output file, and that file holds exactly the bytes fetched for the link the picker chose |
| Cache.DownloadSucceeds | index.ts:187-197 | a calendar link on the page and a successful fetch give success, and the output file then holds the fetched bytes, with every other file as it was |
| Cache.DownloadWritesOnlyOutput | index.ts:182-197 | a download writes only its output file; a failure writes nothing; with no link on the page it fails with NotFoundError after fetching only the page |
| Cache.LinkSearch | index.ts:203-228 | the landing page's failure, or the picker's answer on its anchors; `GetCalendarLink` is proved against it |
| Cache.SchemaLoad | index.ts:101-109 | the schema loads exactly when its file exists and parses, and then it is that file's contents; a missing file fails with FileMissing |
| Cache.Query | index.ts:114-158 | a missing model key fails before anything is read; a success reads the PDF once, queries the model once and returns its reply; with the key and the PDF present, the result is the model's answer, success or failure; no file is written |
| Cache.Generate | index.ts:84-95 | the schema file is read first; a success names the JSON file, and that file holds the model's reply for the PDF and the schema file on disk; conversely, a present and parsable schema, the model key, the PDF and a successful reply give success |
| Cache.GenerateWritesOnlyJson | index.ts:84-95 | generating the JSON calendar downloads nothing and writes only the JSON file, which is `{identifier}.json` |
| Cache.PdfStep | index.ts:70-76 | nothing to do when the PDF exists, a download to the PDF name otherwise |
| Cache.Extraction | index.ts:61-96 | `extractAcademicCalendar` as a function of the files and the services; its properties are the lemmas `ExtractionCaches` to `ExtractionIsCached` |
| Cache.ExtractionCaches | index.ts:70-82 | an existing PDF is neither downloaded nor changed; an absent one is downloaded first; an existing JSON file is returned unchanged with no schema read and no model query, also after a successful download; with the JSON file absent and the PDF step successful, the schema is read, and a success stores the model's reply for the PDF and the schema in the JSON file; with both files present nothing happens; a success names the JSON file with both files on disk; only the two cache files are written or changed |
| Cache.CachedPairNeedsNothing | index.ts:70-82 | with both cache files present, the outcome depends on no network, schema or model answer |
| Cache.DownloadFailureBeatsCachedJson | index.ts:70-82 | with the PDF absent and no link on the page, the run fails with NotFoundError even if the JSON file exists |
| Cache.ExtractionIsCached | index.ts:61-96 | after a successful extraction, a second one finds both files, does nothing and returns the same name |
| Cache.Host.Read | index.ts:103 | a read returns the file's contents, or FileMissing when there is no such file |
| Cache.Host.Exists | index.ts:70-79 | `Bun.file(name).exists()`: the name is in the file map |
| Cache.Host.Write | index.ts:165 | a write creates or replaces exactly one file |
| Cache.GetCalendarLink | index.ts:203-233 | the page is fetched once; the result is the fetch's failure or the picker's answer on its anchors |
| Cache.DownloadCalendar | index.ts:181-198 | the method's result, files and effects are those of `Download` |
| Cache.CreateJsonSchema | index.ts:101-109 | the method's result is that of `SchemaLoad`, after one read of the schema file |
| Cache.QueryGeminiApi | index.ts:114-158 | the method's result and effects are those of `Query` |
| Cache.SaveCalendarJson | index.ts:163-166 | saving writes the reply to `{identifier}.json` and to no other file |
| Cache.GenerateCalendarJson | index.ts:84-95 | the method's result, files and effects are those of `Generate` |
| Cache.ExtractAcademicCalendar | index.ts:61-96 | the method's result, files and effects are those of `Extraction` |
| Pipeline.Sync | index.ts:12-56 | a failed extraction or a calendar that `decode` rejects ends the run with that error and the tracker untouched; otherwise the tracker is reconciled with the decoded calendar and the count of created tasks is returned |

## Left out

- HTTP fetches, JSDOM parsing and `new URL` resolution (index.ts:187-197, 205-214) are not modelled. The landing page arrives as its anchor sequence, or as the fetch's failure. `fetchPdf` answers for the raw href, with resolution folded in.
- A `null` text content of an anchor is modelled as the empty string (index.ts:217).
- Unicode NFD, combining-mark stripping and lowercasing (index.ts:218) are the parameter `normalize`. Nothing is claimed about it, not even idempotence.
- The Gemini call, base64 encoding, and `JSON.parse`/`JSON.stringify` of the reply (index.ts:120-152) are the parameter `extract`. Its failure stands for both a rejected call and an unparsable reply.
- Text decoding of files is not modelled: file contents are opaque `Blob`s. Schema parsing is the parameter `schemaParses`, and calendar decoding is the parameter `decode`.
- Pipeline.Sync: `decode` yields a typed calendar, so the model checks the file's shape where the script does not. The script's `.json()` (index.ts:22) fails only on a JSON syntax error. A file that parses but has no `months`, or a month with no `events`, throws at index.ts:34-35, after every listed task was already deleted (index.ts:27-30). The model can only treat such a file as a `decode` error, before the tracker is touched, or as some other decoding of the file. Likewise, an event whose category is not one of the seven is accepted by the script, and its string becomes the label. The model's `Category` has only the seven values.
- Value ranges in `schema.ts` (such as the year bounds) are not modelled. The script does not check the cached calendar against them.
- `Date` parsing and the wall clock are parameters with integer instants. `new Date(null)` (the epoch) is not distinguished from other parsed dates, and floating-point time values are not modelled.
- Pagination of the listing (index.ts:25): only the first page's `results` are deleted, and the model treats that page as the whole section.
- Failures of the tracker's own calls (listing, deletion, creation) are not modelled; those calls always succeed here.
- Console logging is not modelled.
- `env.ts` is not modelled: the project and section ids and the model key's presence are parameters.
- The `writeSchemaFile` step of `schema.ts` is not modelled: `agent.json` is an input file.
- Cache.DownloadCalendar: the base URL is the script's constant rather than a parameter, since the script only ever passes that constant.
- Concurrency is not modelled: the script awaits each call in turn, and the model is sequential.
