# myUZ scraper core in Dafny

A model of the scraper behind myUZ, the timetable app of the University of Zielona Góra
(plan.uz.zgora.pl). The scraper reads the list of departments and courses, the groups of each course,
the teachers named on group timetables, and the iCalendar (RFC 5545) files of groups and teachers, and
stores the events in a database. The model covers the logic between the HTTP requests and the database:

- the two hand-written iCalendar line scanners and the three decoders of an event's SUMMARY;
- the derivation of ids, codes, modes, semesters, course types and URLs from link texts and headers;
- the first-occurrence deduplication loops, keyed by URL or by teacher id;
- the department/course list walker;
- the retry and fallback rules of the downloader, and the memo caches;
- the database as in-memory tables, with replace-all saving of events and get-or-create of a teacher.

Most source files have a Dafny module of their own (`scraper/scraper.py` is `PlanUzScraper`,
`scraper/nauczyciel_parser.py` is `NauczycielParser`, and so on). `NauczycielObiekty` covers three
files together: the object-based parser `scraper/parsers/nauczyciel_parser.py`, the scraper
`scraper/scrapers/nauczyciel_scraper.py`, and the `Nauczyciel` dataclass of `scraper/models.py`.
Shared modules hold the general pieces: `Wrappers` (Option, Result), `Text` (strip, lower, find,
replace, split, join), `Seqs` (filter, filter-map, deduplication, insertion sort), `Labels`
(derivations used by several scrapers), `NauczycielStrona` (what both teacher parsers read from a
group page and from a teacher page), `Utils` and `Stamps`.
Pages, HTTP sessions, clocks and uuid generation are parameters: a page is the list of what the
document searches select (anchors as href and text, header texts, table cells), and a fetch is a
function from URL to page, None when the request fails. Loops in the source are methods with loop
invariants, proved equal to a specification function. The properties of that function are proved as
lemmas. Objects whose fields the source updates (`Database`, the scrapers' caches, the `Nauczyciel`
dataclass) are classes.

Regular expressions are matchers written out by hand. Each comes with a predicate that states what
the pattern accepts at a position. The matcher's contract says which match `re.search` reports: the
leftmost one, and at that start the choice the greedy or lazy quantifiers make.

## Model

| member | source | states |
|---|---|---|
| Utils.IdPosition | scraper/utils.py:95-96 | the leftmost position from which `ID=` followed by a digit occurs, or None when there is none |
| Utils.ExtractIdFromUrl | scraper/utils.py:84-99 | None iff no `<param>=` is followed by a digit; otherwise a non-empty run of digits |
| Utils.ExtractIdLeftmost | scraper/utils.py:95-98 | the digits are the whole digit run after the leftmost `<param>=` that is followed by a digit |
| Stamps.DateOf | scraper/ics_parser.py:46-47 | a well-formed stamp renders as `YYYY-MM-DD` |
| Stamps.HourMinute | scraper/ics_parser.py:46-48 | a well-formed stamp renders as `HH:MM` |
| Stamps.HourMinuteSecond | scraper/scraper.py:464-466 | a well-formed stamp renders as `HH:MM:SS`, extending `HH:MM` |
| Stamps.StampFromRenderings | scraper/scraper.py:464-467 | the date and the time with seconds together give back the stamp, so the rendering loses nothing |
| Labels.PlanUrl | scraper/grupy_scraper.py:35 | the URL is the base URL, a slash and the link unchanged |
| Labels.TypKierunku | scraper/scraper.py:98-102 | "podyplomowe" iff the lower-cased name holds "studia podyplomowe"; "erasmus" iff not that but "erasmus"; "standardowy" otherwise |
| Labels.KodGrupy | scraper/scraper.py:138-139 | for a name starting with a non-space, its first maximal non-space word; otherwise the name unchanged |
| Labels.KodGrupyIsFirstWord | scraper/scraper.py:134-139 | on a stripped non-blank name the code is the name's first whitespace-separated word |
| Labels.TrybZNazwy | scraper/scraper.py:142-144 | "niestacjonarne" iff the lower-cased name holds "niestacjonarne", "stacjonarne" otherwise |
| Labels.PrefixedUrl | scraper/scraper.py:428 | a URL starting with `http` is kept; any other gets the base and a slash in front |
| Labels.IdParam | scraper/scrapers/kierunki_scraper.py:64-65 | None iff the href has no `ID=`; otherwise the text after the first `ID=` up to the first `&`, holding neither |
| Labels.IdParamOfDigits | scraper/scrapers/grupy_scraper.py:66-67 | an href `...ID=<digits>` ending there or at `&` gives exactly those digits |
| IcsParser.SubjectAndType | scraper/ics_parser.py:66-74 | a match iff a `(` is followed later by a `)`; then the stripped text before the first `(` and the stripped text up to the first `)` after it |
| IcsParser.StripTitles | scraper/ics_parser.py:77 | the teacher name with the titles removed is stripped |
| IcsParser.DtStartLine | scraper/ics_parser.py:43-50 | a well-formed stamp sets the start date and `HH:MM`; any other value changes nothing |
| IcsParser.DtEndLine | scraper/ics_parser.py:51-57 | a well-formed stamp sets the end date and `HH:MM`; any other value changes nothing |
| IcsParser.UnknownKeyLine | scraper/ics_parser.py:41-87 | a line with a key the parser does not know changes nothing |
| IcsParser.NoColonLine | scraper/ics_parser.py:41 | a line without a colon changes nothing |
| IcsParser.SummaryWithoutColon | scraper/ics_parser.py:78-79 | a summary without a colon becomes the subject as it stands |
| IcsParser.SummaryLine | scraper/ics_parser.py:58-79 | a `SUMMARY` line applies the summary rule to its value |
| IcsParser.SummaryWithColon | scraper/ics_parser.py:60-77 | a summary `head:tail` sets subject and type from the bracket of the stripped head (or the head and "" without one), the teacher from the tail without titles, and nothing else |
| IcsParser.ParseIcsContent | scraper/ics_parser.py:18-89 | the events are the scan of the content split at every newline |
| IcsParser.ScanLines | scraper/ics_parser.py:31-87 | the line loop computes the scan of the specification |
| IcsParser.ReadLine | scraper/ics_parser.py:32-87 | one loop pass yields the open event and the appended events of the specification step |
| IcsParser.ScanHasFields | scraper/ics_parser.py:36-38 | no returned event is empty |
| IcsParser.OutsideLineIgnored | scraper/ics_parser.py:34-40 | outside an event every line other than `BEGIN:VEVENT` is skipped |
| IcsParser.ScanInside | scraper/ics_parser.py:40-87 | the content lines of an open event fold into it and append nothing |
| IcsParser.Block | scraper/ics_parser.py:34-39 | a `BEGIN`..`END` block yields its folded event iff that has a field, then the rest |
| IcsParser.FormatEventForDb | scraper/ics_parser.py:92-117 | `rz` is the class type, else the category, else ""; the teacher is present iff the event has one, and is that name |
| IcsParser.TerminyOfStamps | scraper/ics_parser.py:108 | with both stamps read, the dates text is `YYYY-MM-DD HH:MM-HH:MM`, made from the start date, start time and end time |
| IcsParser.TypeKeyWins | scraper/ics_parser.py:104 | a present but empty class type wins over the category |
| PlanUzScraper.BracketEnd | scraper/scraper.py:489 | where the optional `(\([^)]+\))` group starting at a position closes; None exactly when no closing position matches |
| PlanUzScraper.SummaryMatch | scraper/scraper.py:489-492 | the lazy subject group is always empty; the type group is present iff a bracket group matches after the leading whitespace, and is that bracket text; the rest holds no newline and starts with no whitespace |
| PlanUzScraper.RestAfter | scraper/scraper.py:489 | the `(.*)` group after `\s*:?\s*` holds no newline and does not start with whitespace |
| PlanUzScraper.ApplySummary | scraper/scraper.py:486-503 | the subject becomes "", the type is set (stripped of `() `) only when the bracket group matched, the teacher is the stripped rest, and no other field changes |
| PlanUzScraper.SummaryStartingWithSubject | scraper/scraper.py:489-500 | a summary that starts with its subject text yields subject "" and the whole stripped summary as the teacher, type unchanged |
| PlanUzScraper.SummaryWithLeadingBracket | scraper/scraper.py:489-500 | a summary `(x):t` sets the type from the bracket and the teacher to the stripped `t` |
| PlanUzScraper.LeadingBracket | scraper/scraper.py:489 | on `(x):t` the bracket group starts at 0 and closes after `x` |
| PlanUzScraper.RestAfterColon | scraper/scraper.py:489 | what follows the colon and whitespace, stripped, is the stripped tail |
| PlanUzScraper.EventKey | scraper/scraper.py:505-510 | the key holds no space and its length is the three fields' lengths plus the two separators |
| PlanUzScraper.EventKeyNormalises | scraper/scraper.py:510 | the key does not change when the subject is lower-cased or its spaces become underscores |
| PlanUzScraper.HtmlIndex | scraper/scraper.py:442 | the keys of the index are exactly the keys of the HTML events |
| PlanUzScraper.HtmlIndexLastWins | scraper/scraper.py:442 | a key maps to the last HTML event that has it |
| PlanUzScraper.ParseIcsAndEnrich | scraper/scraper.py:436-484 | the line loop computes the scan of the split lines against the index of the HTML events |
| PlanUzScraper.ReadLine | scraper/scraper.py:446-482 | one loop pass yields the open event and the appended events of the specification step |
| PlanUzScraper.ScanNonEmpty | scraper/scraper.py:450 | no appended event is the empty event |
| PlanUzScraper.EmptyEventEndIgnored | scraper/scraper.py:450-458 | `END:VEVENT` on an empty open event appends nothing and keeps the event open |
| PlanUzScraper.EndKeyIgnored | scraper/scraper.py:458-482 | as a content line, `END:VEVENT` sets no field |
| PlanUzScraper.EventClosed | scraper/scraper.py:450-457 | `END:VEVENT` on a non-empty event appends it enriched and closes it |
| PlanUzScraper.EnrichTerminy | scraper/scraper.py:452-454 | a closed event whose key is that of an HTML event takes the dates of the last such HTML event |
| PlanUzScraper.EnrichWithoutMatch | scraper/scraper.py:452-454 | a closed event whose key no HTML event has is appended unchanged |
| PlanUzScraper.DtStartLine | scraper/scraper.py:462-469 | a well-formed stamp gives the time with seconds and the date; any other value becomes the time as it stands |
| PlanUzScraper.CategoriesLine | scraper/scraper.py:481-482 | `CATEGORIES` overwrites the class type, also one the summary set |
| PlanUzScraper.Terminy | scraper/scraper.py:237-247 | empty text stays empty; text with `;` stays; a known code maps through the code table; the calendar case joins the calendar dates with `; `; anything else stays as it is |
| PlanUzScraper.TerminyCell | scraper/scraper.py:222-233 | without a link the cell's stripped text and no id; with one, the link's stripped text and the id of its href |
| PlanUzScraper.CalendarDates | scraper/scraper.py:283-294 | at most one date per row, each stripped and starting with a date |
| PlanUzScraper.ReadDates | scraper/scraper.py:283-294 | the row loop computes the calendar dates |
| PlanUzScraper.WydzialName | scraper/scraper.py:72-83 | the non-blank direct text run together and stripped if not empty, else the bold text, else the first line of the whole text |
| PlanUzScraper.CourseOf | scraper/scraper.py:88-110 | an anchor gives a course iff its href has `ID=<digits>`, built from its stripped text, the department, the href, the id and the type of its name |
| PlanUzScraper.CoursesInShape | scraper/scraper.py:86-110 | every course of a sub-list carries that department, a non-empty digit id and the type of its name |
| PlanUzScraper.GrupaOf | scraper/scraper.py:132-157 | a link gives a record iff its href mentions `grupy_plan.php` and has `ID=<digits>` |
| PlanUzScraper.GrupySemestr | scraper/scraper.py:128-157 | every record is the record of a link under the semester of the last `h3` before it |
| PlanUzScraper.GrupyRecordShape | scraper/scraper.py:132-157 | every record has a plan link with its id, a digit id, a stripped name, the code and mode of that name and the scrape time |
| PlanUzScraper.SemestrAfterHeader | scraper/scraper.py:129-130 | after an `h3` and any links, the semester in force is that `h3`'s stripped text |
| PlanUzScraper.ReadGroupElements | scraper/scraper.py:126-157 | the element loop computes the records of the specification |
| PlanUzScraper.InWydzial | scraper/scraper.py:520-523 | exactly the courses of the department, and no more than the input |
| PlanUzScraper.Matching | scraper/scraper.py:573-577 | exactly the courses whose lower-cased name or department contains the query, and no more than the input |
| PlanUzScraper.FirstWithId | scraper/scraper.py:586-590 | None iff no course from the position on has the id; otherwise the least position with it |
| PlanUzScraper.Departments | scraper/scraper.py:536-539 | exactly the departments that occur, without repeats |
| PlanUzScraper.CountByKeys | scraper/scraper.py:551-559 | the keys of a tally are exactly the values that occur |
| PlanUzScraper.CountByCounts | scraper/scraper.py:551-559 | each tally is the number of courses with that value |
| PlanUzScraper.SortedDepartmentsValid | scraper/scraper.py:536-539 | the department list is sorted, without repeats, and holds exactly the departments that occur |
| PlanUzScraper.WydzialyDeterminate | scraper/scraper.py:536-539 | any sorted list without repeats of exactly those departments is that list, so the order the set is walked in does not matter |
| PlanUzScraper.KierunkiOfWydzial | scraper/scraper.py:520-526 | a department's group is sorted by name, a permutation of that department's courses, and not empty for a department that occurs |
| PlanUzScraper.SearchResult | scraper/scraper.py:573-579 | the search answer is sorted by (department, name) and is a permutation of exactly the matching courses |
| PlanUzScraper.ReadCourses | scraper/scraper.py:86-110 | the sub-list loop computes the courses of the specification |
| PlanUzScraper.ReadKierunki | scraper/scraper.py:67-111 | the department loop computes the courses of all departments in page order |
| PlanUzScraper.GroupByWydzial | scraper/scraper.py:518-523 | the groups are keyed by exactly the departments, in order of first appearance, each holding that department's courses |
| PlanUzScraper.SortGroups | scraper/scraper.py:525-526 | each group is replaced by its sorting by name, with the same keys |
| PlanUzScraper.CollectWydzialy | scraper/scraper.py:536-538 | the set-building loop yields the departments in order of first appearance |
| PlanUzScraper.MatchingIn | scraper/scraper.py:571-577 | the filtering loop computes the matching courses |
| PlanUzScraper.FindById | scraper/scraper.py:586-590 | the first course with the id, or None when there is none |
| PlanUzScraper.Tally | scraper/scraper.py:551-559 | the counting loop computes the tally of the specification |
| PlanUzScraper.Scraper.constructor | scraper/scraper.py:30-36 | the course cache None, the other caches empty, and the given scrape time |
| PlanUzScraper.Scraper.GetKalendarzTerminy | scraper/scraper.py:271-297 | a cached id returns the cached dates and changes nothing; a new one caches the page's dates (also when empty); every date starts with a date |
| PlanUzScraper.Scraper.ResolveTerminy | scraper/scraper.py:237-247 | only the calendar case consults and fills the calendar cache; every case gives the dates text of the specification |
| PlanUzScraper.Scraper.GetKierunki | scraper/scraper.py:51-116 | no container: [] and the cache unchanged (still None on a fresh scraper); otherwise the walk's courses, which become the cache |
| PlanUzScraper.Loaded | scraper/scraper.py:516-517 | the cache is None afterwards iff it was None and the page has no main container; a non-empty cache is kept; a None or empty one is replaced by the page's courses |
| PlanUzScraper.LoadedIdempotent | scraper/scraper.py:516-517 | a second load from the same page gives what the first gave |
| PlanUzScraper.Scraper.EnsureKierunki | scraper/scraper.py:516-517 | the cache becomes `Loaded` of the old cache and the page: courses are loaded only into a None or empty cache |
| PlanUzScraper.Scraper.GetGrupy | scraper/scraper.py:117-160 | the records of the elements under the scrape time |
| PlanUzScraper.Scraper.GetKierunkiByWydzial | scraper/scraper.py:514-527 | `TypeError` iff the cache is still None after loading; otherwise keys are exactly the departments of the cache, each mapped to its courses sorted by name |
| PlanUzScraper.Scraper.GetWydzialy | scraper/scraper.py:529-541 | a non-empty department cache is returned as is; otherwise `TypeError` iff the course cache is still None after loading (the department cache untouched), else the sorted departments are computed and cached |
| PlanUzScraper.Scraper.GetStatystyki | scraper/scraper.py:543-564 | `TypeError` iff the cache is still None after the first load; otherwise the course count and the tallies by type and by department of the courses that load gives, and the scrape time. The department count is that of a non-empty department cache. Otherwise it is the count of the departments `get_wydzialy` computes, after its own reload (lines 533-534) from a second response; where the first load left `[]`, no course is counted and the departments are those of the second response |
| PlanUzScraper.Scraper.SearchKierunki | scraper/scraper.py:566-579 | `TypeError` iff the cache is still None after loading; otherwise the courses matching the lower-cased query, sorted by (department, name) |
| PlanUzScraper.Scraper.GetKierunekById | scraper/scraper.py:581-590 | `TypeError` iff the cache is still None after loading; otherwise the first cached course with the id, or None |
| Downloader.FetchPageWithRetry | scraper/downloader.py:28-42 | the retry loop computes the run of the specification: its result, its number of attempts and its sleeps |
| Downloader.RetryShape | scraper/downloader.py:28-42 | no attempts give no result (the loop falls through); otherwise between 1 and `max_retries` attempts, one sleep fewer than attempts, a result, and the `j`-th sleep is the delay doubled `j` times |
| Downloader.RetryFirstSuccess | scraper/downloader.py:30-34 | when attempt `i` is the first to succeed, its body is the result after `i + 1` attempts |
| Downloader.RetryAllFail | scraper/downloader.py:35-42 | when every attempt fails, the result is "" after all `max_retries` attempts |
| Downloader.AuthenticatedUrl | scraper/downloader.py:69 | the URL followed by `&` when it already has a `?` and by `?` otherwise, then `authenticate=true`; the result always has a query |
| Downloader.DownloadIcs | scraper/downloader.py:45-78 | an empty URL fails before any request; otherwise the home page is requested first, at most three requests are made, and a success is always a calendar |
| Downloader.DownloadIcsFallback | scraper/downloader.py:58-75 | a calendar at the URL is returned after two requests; otherwise the authenticated URL is requested third and succeeds iff it gives a calendar |
| Downloader.PageCache.constructor | scraper/downloader.py:22-23 | an empty cache |
| Downloader.PageCache.FetchPageCached | scraper/downloader.py:22-25 | a remembered URL is answered from the cache; a new one is fetched and remembered; a valid cache answers what `fetch_page` gives |
| Db.ResolveUrl | scraper/db.py:32-36 | the argument if non-empty, else the environment value if non-empty, else the missing-URL error; a success is never empty |
| Db.Open | scraper/db.py:24-40 | the constructor fails iff neither URL is given; otherwise a valid database with that URL |
| Db.Database.constructor | scraper/db.py:24-40 | the given URL, oracle and tables, with no ids handed out |
| Db.GetOrCreate | scraper/db.py:288-326 | an unnamed teacher gives None and no change; a named one gives the id of the first row with that name, adding a row with a fresh id only when there is none; existing rows are kept |
| Db.NewNameFirst | scraper/db.py:303-323 | a row added for a new name is the first with that name |
| Db.GetOrCreateStable | scraper/db.py:298-323 | a second call with the same name returns the same id and changes nothing |
| Db.GetOrCreateExisting | scraper/db.py:303-307 | a name already present adds no row and uses no id |
| Db.OtherGroupsMembers | scraper/db.py:216 | the `DELETE` keeps exactly the rows of other groups |
| Db.OtherTeachersMembers | scraper/db.py:262 | the `DELETE` keeps exactly the rows of other teachers |
| Db.RowsOfGroupMembers | scraper/db.py:184 | the `SELECT` gives exactly the rows of the group |
| Db.RowsOfTeacherMembers | scraper/db.py:187 | the `SELECT` gives exactly the rows of the teacher |
| Db.InsertGroupEvents | scraper/db.py:218-237 | one row per event |
| Db.GroupBatchFields | scraper/db.py:218-237 | the `k`-th row carries the group id and the fields of the `k`-th event |
| Db.GroupBatchIds | scraper/db.py:226 | every row id is an id the oracle handed out during the batch |
| Db.GroupBatchDistinct | scraper/db.py:226 | the row ids of a batch are pairwise distinct |
| Db.GroupBatchTeachers | scraper/db.py:219-220 | the batch only adds teacher rows, it keeps the existing ones |
| Db.InsertTeacherEvents | scraper/db.py:264-281 | one row per event, the `k`-th with the `k`-th fresh id, the teacher id and the event's fields |
| Db.TeacherRowsDistinct | scraper/db.py:270 | the row ids of a batch are pairwise distinct |
| Db.GroupBatchIdsFresh | scraper/db.py:226 | no row id of a batch is in use before it |
| Db.TeacherBatchIdsFresh | scraper/db.py:270 | no row id of a batch is in use before it |
| Db.ReplaceGroupRows | scraper/db.py:213-237 | after the replace, the group's rows are exactly the new rows (for a non-empty id) and every other group's rows are unchanged |
| Db.ReplaceTeacherRows | scraper/db.py:259-281 | after the replace, the teacher's rows are exactly the new rows (for a non-empty id) and every other teacher's rows are unchanged |
| Db.SaveGroupRows | scraper/db.py:198-242 | saving replaces the group's rows by the new rows, whose ids were free, and leaves every other group's rows alone |
| Db.SaveTeacherRows | scraper/db.py:244-286 | saving replaces the teacher's rows by the new rows, whose ids were free, and leaves every other teacher's rows alone |
| Db.Database.GetKierunki | scraper/db.py:99-107 | all course rows |
| Db.Database.GetNauczyciele | scraper/db.py:136-144 | every teacher row, in table order |
| Db.Database.GetKierunekById | scraper/db.py:109-121 | None iff no course row has the id; otherwise the first row with it |
| Db.Database.GetGrupaById | scraper/db.py:381-393 | None iff no group row has the id; otherwise the first row with it |
| Db.Database.GetNauczycielById | scraper/db.py:395-407 | None iff no teacher row has the id; otherwise the first row with it |
| Db.Database.GetGrupyByKierunek | scraper/db.py:123-134 | exactly the group rows of the course |
| Db.GroupsOfKierunek | scraper/db.py:133 | exactly the group rows of the course |
| Db.Database.GetExistingEvents | scraper/db.py:171-196 | a non-empty group id wins and gives that group's rows; else a non-empty teacher id gives that teacher's rows; with neither, nothing |
| Db.Database.GetOrCreateNauczyciel | scraper/db.py:288-326 | the id and teacher table of the specification, everything else unchanged, validity kept |
| Db.Database.ClearGroup | scraper/db.py:212-216 | for a non-empty id the group's rows are deleted, nothing else changes |
| Db.Database.SaveGroupEvent | scraper/db.py:219-237 | one event becomes one row with a fresh id and the teacher's id |
| Db.Database.SaveEventsForGroup | scraper/db.py:198-242 | an empty list changes nothing; otherwise the group's rows are replaced by one row per event; True, validity kept |
| Db.Database.InsertGroupBatch | scraper/db.py:218-237 | the insertion loop appends the batch of the specification |
| Db.Database.ClearTeacher | scraper/db.py:258-262 | for a non-empty id the teacher's rows are deleted, nothing else changes |
| Db.Database.InsertTeacherRow | scraper/db.py:265-281 | one event becomes one row with the next fresh id |
| Db.Database.SaveEventsForNauczyciel | scraper/db.py:244-286 | an empty list changes nothing; otherwise the teacher's rows are replaced by one row per event; True, validity kept |
| Db.Database.InsertTeacherBatch | scraper/db.py:264-281 | the insertion loop appends the batch of the specification |
| Db.Database.SaveKierunek | scraper/db.py:328-351 | one course row with a fresh id, which is returned |
| Db.Database.SaveGrupa | scraper/db.py:353-379 | one group row with a fresh id, which is returned |
| Plany.Pad2 | scraper/plany_scraper.py:105-107 | `:02d` of one or two digits is two digits |
| Plany.Pad2Value | scraper/plany_scraper.py:105-107 | the padding keeps the number, and leaves two digits as they are |
| Plany.ClockAt | scraper/plany_scraper.py:103 | a `\d{1,2}:\d{2}` match at a position has an hour of one or two digits and a minute of two, and ends after the position |
| Plany.ClockAtSpan | scraper/plany_scraper.py:103 | the match is the text it was read from, and the greedy hour takes two digits whenever two are there |
| Plany.TimeRangeAt | scraper/plany_scraper.py:103-107 | a range matched at a position renders both times as `HH:MM` |
| Plany.TimeRange | scraper/plany_scraper.py:102-110 | None iff the pattern matches at no position; otherwise both times as `HH:MM` |
| Plany.TimeRangeLeftmost | scraper/plany_scraper.py:103 | the range found is the one at the leftmost position where the pattern matches |
| Plany.EventOf | scraper/plany_scraper.py:95-131 | a data row's event has both times as `HH:MM` or neither |
| Plany.RowEvent | scraper/plany_scraper.py:85-92 | a row gives an event iff it has no header cell and at least seven cells |
| Plany.PlanEventsAppend | scraper/plany_scraper.py:85 | the events of two stretches of rows are the events of each, in order |
| Plany.PlanEventsSingle | scraper/plany_scraper.py:86-131 | a single row gives its event exactly when it is a data row |
| Plany.PlanEventsTimes | scraper/plany_scraper.py:103-110 | every event has both times as `HH:MM` or neither |
| Plany.ReadPlanRows | scraper/plany_scraper.py:82-133 | the row loop computes the events of the specification |
| Plany.TeacherLinkOf | scraper/plany_scraper.py:72-79 | a teacher's id is a non-empty run of digits |
| Plany.AnchorLink | scraper/plany_scraper.py:70-73 | an anchor gives a teacher link iff its href mentions `nauczyciel_plan.php` and has `ID=<digits>` |
| Plany.TeacherLinksAppend | scraper/plany_scraper.py:69 | the links of two stretches of anchors are the links of each, in order |
| Plany.TeacherLinksSingle | scraper/plany_scraper.py:69-79 | a single anchor gives its link exactly when it names a teacher |
| Plany.TeacherLinksIds | scraper/plany_scraper.py:70-79 | every link read has a non-empty digit id and a `nauczyciel_plan.php` href |
| Plany.ReadTeacherLinks | scraper/plany_scraper.py:68-79 | the anchor loop computes the links of the specification |
| Plany.PlanOf | scraper/plany_scraper.py:135-151 | the record always carries the scrape time |
| Plany.PlanOfShape | scraper/plany_scraper.py:36-151 | a failed fetch gives the empty record; a page gives the second `h2` stripped (or ""), the events of its table, events with paired times and well-formed teacher links |
| Plany.TerminyStep | scraper/plany_scraper.py:153-194 | a fresh result holds only texts that start with a date |
| Plany.TerminyCachedAgain | scraper/plany_scraper.py:163-190 | once answered (or cached), asking again for the id gives the same dates and changes nothing, whatever the network does |
| Plany.TerminyFailureNotCached | scraper/plany_scraper.py:192-194 | a failed request returns [] and is not cached, so the next call fetches again |
| Plany.TerminyStepKeepsDates | scraper/plany_scraper.py:175-190 | a cache of dates only stays one, and every result holds only dates |
| Plany.PlanyScraper.constructor | scraper/plany_scraper.py:31-34 | an empty cache and the given scrape time |
| Plany.PlanyScraper.GetPlanGrupy | scraper/plany_scraper.py:36-151 | the record of the page at the base URL and the link |
| Plany.PlanyScraper.GetKalendarzTerminy | scraper/plany_scraper.py:153-194 | the dates and the cache of the specification step, with the request at the calendar URL |
| Plany.PlanyScraper.DownloadIcs | scraper/plany_scraper.py:196-215 | the body for the prefixed URL, or None when the request fails |
| KierunkiScraper.WydzialNazwa | scraper/kierunki_scraper.py:45-52 | the bold text if there is one, else the first line of the item's text, stripped |
| KierunkiScraper.KierunekOf | scraper/kierunki_scraper.py:55-78 | an anchor gives a record iff its href mentions the course-list page and has `ID=<digits>`; the record holds the stripped name, the department, the href, the id and the type of the name |
| KierunkiScraper.ReadAnchors | scraper/kierunki_scraper.py:55-78 | the anchor loop computes the records of the specification |
| KierunkiScraper.GetKierunki | scraper/kierunki_scraper.py:23-85 | the records of every department item, in page order, or [] when the page cannot be fetched |
| KierunkiScraper.KierunkiAnchorowFrom | scraper/kierunki_scraper.py:55-78 | every record is the record of one of the department's anchors |
| KierunkiScraper.KierunkiAnchorowComplete | scraper/kierunki_scraper.py:57-78 | every course-list anchor with an id gives a record |
| KierunkiScraper.KierunkiAnchorowShape | scraper/kierunki_scraper.py:57-78 | every record has a course-list link, the digit id of that link, the type of its name and the department |
| KierunkiScraper.KierunkiWellFormed | scraper/kierunki_scraper.py:43-78 | every record of the walk is well formed |
| KierunkiLista.HeaderNameIs | scraper/scrapers/kierunki_scraper.py:43-49 | a header's name is its first text node stripped, or else the first word of its text, which exists |
| KierunkiLista.HeaderHasWord | scraper/scrapers/kierunki_scraper.py:43-49 | a text mentioning "Wydział" or "Szkoły" has a first word, so `split()[0]` cannot fail |
| KierunkiLista.HeaderOf | scraper/scrapers/kierunki_scraper.py:43-49 | an item sets a department iff it is a header, and then sets its name |
| KierunkiLista.CourseAt | scraper/scrapers/kierunki_scraper.py:54-76 | a course iff the item is no header, has a link, a department is set, the name lacks "Studia podyplomowe" and the prefixed link has a non-empty `ID=` parameter; the course holds that department, the stripped name, the prefixed link and that id |
| KierunkiLista.ParseDepartmentsAndCourses | scraper/scrapers/kierunki_scraper.py:24-79 | no container gives []; otherwise the loop emits the course of each item under the department current before it |
| KierunkiLista.ScrapeKierunki | scraper/scrapers/kierunki_scraper.py:82-92 | an empty page gives []; otherwise the walk of its container |
| KierunkiLista.CurrentIsLastHeader | scraper/scrapers/kierunki_scraper.py:37-49 | no department is set iff no header came yet; otherwise the department is the name of the last header |
| KierunkiLista.CourseFrom | scraper/scrapers/kierunki_scraper.py:39-76 | every emitted course comes from one item, under the department current before it |
| KierunkiLista.CourseUnderLastHeader | scraper/scrapers/kierunki_scraper.py:37-76 | every course's department is the non-empty name of the last header before its item |
| KierunkiLista.CourseNamesAndIds | scraper/scrapers/kierunki_scraper.py:60-69 | no "Studia podyplomowe" course is emitted, and every id is non-empty and free of `&` |
| KierunkiLista.NoHeaderNoCourses | scraper/scrapers/kierunki_scraper.py:54 | items with no header before them emit nothing |
| NauczycielStrona.LinkOf | scraper/nauczyciel_parser.py:130-132 | the link's name is the stripped text and its URL the base URL followed by the href |
| NauczycielStrona.LinkOfId | scraper/nauczyciel_parser.py:131 | the id is present iff the href has `ID=`, and is then the text after the first `ID=` up to the next one |
| NauczycielStrona.TeacherLinksDistinct | scraper/nauczyciel_parser.py:134-136 | the kept links have pairwise different URLs and are a subsequence of the found links |
| NauczycielStrona.TeacherLinksFirst | scraper/nauczyciel_parser.py:134-136 | a link whose URL no earlier link has is kept |
| NauczycielStrona.TeacherLinksOnlyFirst | scraper/nauczyciel_parser.py:134-136 | every kept link is the first found link with its URL |
| NauczycielStrona.TeacherLinksHaveIds | scraper/nauczyciel_parser.py:127-131 | the filter asks for `nauczyciel_plan.php?ID=`, so every kept link has an id |
| NauczycielStrona.PlanPageHasId | scraper/nauczyciel_parser.py:127-131 | an href that mentions `nauczyciel_plan.php?ID=` contains `ID=`, so the id split finds one |
| NauczycielStrona.NameOf | scraper/nauczyciel_parser.py:160-162 | None iff no `h2` is a non-empty string without "Plan zajęć"; otherwise the first such, stripped |
| NauczycielStrona.FirstAnchor | scraper/nauczyciel_parser.py:184-191 | None iff no href mentions the needle; otherwise the first anchor whose href does |
| NauczycielStrona.EmailOf | scraper/nauczyciel_parser.py:184-186 | the address is the stripped text of the first `mailto:` anchor, present iff there is one |
| NauczycielStrona.IcsLinkOf | scraper/nauczyciel_parser.py:189-191 | the base URL followed by the href of the first `nauczyciel_ics.php` anchor, present iff there is one |
| NauczycielParser.LinkDictFields | scraper/nauczyciel_parser.py:138-146 | the dict holds the link's name, URL and id, and the group id exactly when it is truthy, and no other key |
| NauczycielParser.LinkDictsShape | scraper/nauczyciel_parser.py:129-148 | one dict per kept link, in order |
| NauczycielParser.ParseNauczycieleFromGroupPage | scraper/nauczyciel_parser.py:120-151 | the loop with the set of seen URLs builds the dict of each kept link, in page order |
| NauczycielParser.DictsOfNewUrls | scraper/nauczyciel_parser.py:129-148 | the loop builds the dicts of the first link of each URL |
| NauczycielParser.LinkRecordsKeyed | scraper/nauczyciel_parser.py:138-142 | every record of a group page carries the link and a present teacher id, which the later steps read |
| NauczycielParser.NameFields | scraper/nauczyciel_parser.py:162-176 | the full name always; surname and first name iff there are at least two words; a title iff more than two; surname the last word, first name the first (two words) or the second-to-last |
| NauczycielParser.NameFieldsRejoin | scraper/nauczyciel_parser.py:166-176 | the title, first name and surname joined with spaces give the words joined back, so no word is lost |
| NauczycielParser.NameFieldsWords | scraper/nauczyciel_parser.py:166-176 | for the words of a name, first name and surname are non-empty single words |
| NauczycielParser.Details | scraper/nauczyciel_parser.py:154-193 | the name fields as computed, and each of institute, e-mail and calendar link exactly when its tag was found, with its value |
| NauczycielParser.NameFieldsOf | scraper/nauczyciel_parser.py:160-176 | name fields exist iff the page has a name heading, and are then those of its words |
| NauczycielParser.Merge | scraper/nauczyciel_parser.py:208 | every key of either dict, with the details' value where both have one |
| NauczycielParser.FetchAndParseKeeps | scraper/nauczyciel_parser.py:196-208 | an empty page returns the record unchanged; otherwise the record keeps its keys and non-detail values and takes every detail |
| NauczycielParser.GrupaIdOf | scraper/nauczyciel_parser.py:222 | the record's `grupa_id` if truthy, else its `id` |
| NauczycielParser.AllRecordsKeyed | scraper/nauczyciel_parser.py:219-230 | every collected record carries the link and a present teacher id |
| NauczycielParser.FetchAll | scraper/nauczyciel_parser.py:241 | each record with its details, in order |
| NauczycielParser.ScrapeNauczycieleFromGrupy | scraper/nauczyciel_parser.py:211-244 | corrected to read each group's page at `link_grupy`: the two loops compute the first record of each teacher id, in order, with its details |
| NauczycielParser.CollectLinks | scraper/nauczyciel_parser.py:219-230 | the first loop, reading `link_grupy`, collects every group's records, one group after another; an empty page adds nothing |
| NauczycielParser.FirstUnreadable | scraper/nauczyciel_parser.py:219-221 | the first group dict that lacks `kod_grupy` or `link_strona_grupy`, every earlier one having both, or None when all have both |
| NauczycielParser.ScrapeAsWritten | scraper/nauczyciel_parser.py:211-244 | as written: `KeyError` iff some group dict lacks `kod_grupy` or `link_strona_grupy`, naming one of the two; otherwise the two loops over the pages at `link_strona_grupy` |
| NauczycielParser.BuiltGroupsRaise | scraper/nauczyciel_parser.py:221 | a non-empty list of group dicts with `kod_grupy` but without `link_strona_grupy`, as the group scrapers build them, raises `KeyError('link_strona_grupy')` |
| NauczycielParser.OneBuiltGroupRaises | scraper/nauczyciel_parser.py:221 | one group record built like those of scraper/scrapers/grupy_scraper.py:74-84 makes the function as written raise |
| NauczycielParser.SameLinkSameGroup | scraper/nauczyciel_parser.py:220-222 | a dict with the same link under both keys is read the same way by the function as written and by the corrected one |
| NauczycielParser.FetchDetailsOnce | scraper/nauczyciel_parser.py:235-242 | the second loop enriches the first record of each teacher id, in order |
| NauczycielParser.ScrapedOncePerId | scraper/nauczyciel_parser.py:237-238 | no two results share a teacher id |
| NauczycielParser.IdKeyKept | scraper/nauczyciel_parser.py:208 | fetching details does not change the teacher id |
| NauczycielParser.ScrapedFirstOccurrence | scraper/nauczyciel_parser.py:235-242 | the first record of every id is enriched and returned |
| NauczycielObiekty.Sanitize | scraper/scrapers/nauczyciel_scraper.py:13-30 | None stays None, a non-string becomes its `str()`, a string keeps exactly its printable or Polish characters, in order |
| NauczycielObiekty.SanitizeString | scraper/scrapers/nauczyciel_scraper.py:13-30 | the character loop computes the cleaned value |
| NauczycielObiekty.SanitizeFilters | scraper/scrapers/nauczyciel_scraper.py:25-28 | the cleaned string is a subsequence of the input holding exactly its kept characters |
| NauczycielObiekty.SanitizeIdempotent | scraper/scrapers/nauczyciel_scraper.py:25-28 | cleaning a cleaned string changes nothing |
| NauczycielObiekty.PolishCharsPrintable | scraper/scrapers/nauczyciel_scraper.py:22-27 | every listed Polish letter is printable, so the second test never decides alone |
| NauczycielObiekty.Nauczyciel.constructor | scraper/models.py:60-69 | the given id, name, page link and group id, with no details yet |
| NauczycielObiekty.ParseNauczycieleFromGroupPage | scraper/parsers/nauczyciel_parser.py:12-40 | with `grupa_id` accepted, one fresh object per kept link, in page order, each holding that link's name, URL and id and the group id |
| NauczycielObiekty.ObjectsOfNewUrls | scraper/parsers/nauczyciel_parser.py:21-37 | the loop with the set of seen URLs builds one fresh object for the first link of each URL |
| NauczycielObiekty.ParseAsWritten | scraper/parsers/nauczyciel_parser.py:30-35 | against the dataclass as declared the parser raises `TypeError` iff the page has a teacher link, and otherwise returns no objects |
| NauczycielObiekty.OneLinkRaises | scraper/parsers/nauczyciel_parser.py:30-35 | a page with a single teacher link makes the parser as written raise |
| NauczycielObiekty.TeacherLinksNonEmpty | scraper/parsers/nauczyciel_parser.py:19-28 | some link is kept exactly when some anchor passes the filter |
| NauczycielObiekty.DetailsKeys | scraper/parsers/nauczyciel_parser.py:43-69 | the details hold each key exactly when its tag is on the page, with the value that tag gives |
| NauczycielObiekty.Found | scraper/parsers/nauczyciel_parser.py:46-67 | each key is present exactly when its value was found, with that value |
| NauczycielObiekty.FetchAndParseNauczyciel | scraper/scrapers/nauczyciel_scraper.py:39-60 | the object itself is returned; an empty page leaves it unchanged; otherwise each detail field is overwritten exactly when its key is in the details |
| NauczycielObiekty.Uzupelnij | scraper/scrapers/nauczyciel_scraper.py:50-58 | each of the four fields takes the details' value when its key is present and keeps its value otherwise |
| NauczycielObiekty.PobierzNauczycieliZGrupy | scraper/scrapers/nauczyciel_scraper.py:63-68 | an empty page gives no teachers; otherwise one object per kept link of the page, describing it |
| NauczycielObiekty.WybierzDoSzczegolow | scraper/scrapers/nauczyciel_scraper.py:104-107 | the objects whose details are requested are the first of each teacher id, in order |
| NauczycielObiekty.OneRequestPerId | scraper/scrapers/nauczyciel_scraper.py:104-107 | details are requested at most once per teacher id, and for the first object of every id |
| NauczycieleScraper.EmailOf | scraper/nauczyciele_scraper.py:57-60 | "" when no href starts with `mailto:` |
| NauczycieleScraper.EmailOfAddress | scraper/nauczyciele_scraper.py:57-60 | a first `mailto:` link to an address that holds no `mailto:` gives exactly that address |
| NauczycieleScraper.IcsLinkOf | scraper/nauczyciele_scraper.py:63-70 | "" iff no dropdown href mentions `nauczyciel_ics.php`; otherwise the first such href as it stands |
| NauczycieleScraper.FindIcsLink | scraper/nauczyciele_scraper.py:66-70 | the loop with `break` finds the first calendar link |
| NauczycieleScraper.IdZLinku | scraper/nauczyciele_scraper.py:73-76 | "" iff the link has no `ID=<digits>`; otherwise those digits |
| NauczycieleScraper.Scraper.constructor | scraper/nauczyciele_scraper.py:23 | the given scrape time |
| NauczycieleScraper.Scraper.GetNauczycielInfo | scraper/nauczyciele_scraper.py:35-98 | the record of the page fetched at the base URL and the link |
| NauczycieleScraper.InfoFallback | scraper/nauczyciele_scraper.py:78-98 | every record holds the link and the scrape time; a failed fetch gives empty strings everywhere else |
| NauczycieleScraper.InfoId | scraper/nauczyciele_scraper.py:73-76 | the id is "" iff the link has no `ID=<digits>`, and otherwise the whole digit run after the leftmost one |
| GrupyParser.TypeMatchAt | scraper/parsers/grupy_parser.py:130 | a match of `\(([^():]+)\):\s+(.+)` starting at the position, with the longest whitespace run the backtracking keeps, or None iff the pattern cannot match there |
| GrupyParser.TypeMatchFrom | scraper/parsers/grupy_parser.py:130 | `re.search`: the leftmost match at or after the position, None iff there is none |
| GrupyParser.TypeParts | scraper/parsers/grupy_parser.py:123-136 | the subgroup is the default; without a match the subject is the stripped summary and there is no type or teacher; there is a type iff there is a teacher |
| GrupyParser.TypePartsMatchIff | scraper/parsers/grupy_parser.py:130-136 | there is no type iff the pattern matches nowhere in the summary |
| GrupyParser.TypeGroupsAt | scraper/parsers/grupy_parser.py:130-134 | for the leftmost match, the subject is the text before it, the type the bracket's contents and the teacher the rest of the line |
| GrupyParser.TypedSummary | scraper/parsers/grupy_parser.py:123-136 | `subject (T): teacher` with no bracket before the type decodes to the stripped subject, type and teacher, and the whole-course subgroup |
| GrupyParser.PgCloseAt | scraper/parsers/grupy_parser.py:139 | the closing bracket of a `\(PG:\s*([^)]+)\)` match at the position, or None iff none matches there |
| GrupyParser.PgMatchFrom | scraper/parsers/grupy_parser.py:139 | the leftmost subgroup marker at or after the position, None iff there is none |
| GrupyParser.PgFragmentEnd | scraper/parsers/grupy_parser.py:143 | the lazy `\(PG:.*?\)` at the front of the text ends at the first `)` of the line, None iff it does not match |
| GrupyParser.RemovePg | scraper/parsers/grupy_parser.py:143 | `re.sub` never makes the text longer |
| GrupyParser.RemovePgNoMarker | scraper/parsers/grupy_parser.py:143 | a text without `(PG:` is left as it is |
| GrupyParser.RemovePgFragment | scraper/parsers/grupy_parser.py:143 | a one-line marker at the front is deleted up to its `)` and the rest is cleaned on its own |
| GrupyParser.RemovePgSubseq | scraper/parsers/grupy_parser.py:143 | the cleaned text is a subsequence of the input |
| GrupyParser.DecodeSummary | scraper/parsers/grupy_parser.py:123-143 | subject and type come from the first pattern; with no subgroup marker the result is that of the first pattern alone; no teacher stays no teacher |
| GrupyParser.PgSubgroup | scraper/parsers/grupy_parser.py:139-143 | with a marker, the subgroup is the stripped text of the leftmost marker and the teacher is cleaned of every marker, None when it was empty or absent |
| GrupyParser.ParseIcs | scraper/parsers/grupy_parser.py:109-161 | the loop over the components builds the event of each VEVENT, in order |
| GrupyParser.EventsPerVEvent | scraper/parsers/grupy_parser.py:114-159 | exactly one event per VEVENT, in order, each decoded from its own component |
| GrupyParser.EventsGrupaId | scraper/parsers/grupy_parser.py:156-157 | every event carries the group id passed in, and none when none was |
| GrupyParser.KindAt | scraper/parsers/grupy_parser.py:179 | the alternation `(letni\|zimowy)` at the position, None iff neither word occurs there |
| GrupyParser.SemesterAt | scraper/parsers/grupy_parser.py:179-183 | a match of `semestr\s+(letni\|zimowy)\s+(\d{4}/\d{4})` at the position gives `kind year`, None iff there is none there |
| GrupyParser.SemesterFrom | scraper/parsers/grupy_parser.py:179-183 | the leftmost full match gives a label starting with `letni ` or `zimowy `; None iff there is no match |
| GrupyParser.FirstYear | scraper/parsers/grupy_parser.py:193-194 | the leftmost `\d{4}/\d{4}` in the text, or "" iff there is none |
| GrupyParser.SemestrZTekstu | scraper/parsers/grupy_parser.py:176-199 | the full match if any; else `letni` (tried first) or `zimowy` with the first year, if any; "nieznany" exactly when neither the pattern nor either phrase occurs |
| GrupyParser.KindYearStrip | scraper/parsers/grupy_parser.py:197 | the final `.strip()` only drops the space left by a missing year |
| GrupyParser.FetchGrupaSemestr | scraper/parsers/grupy_parser.py:164-199 | "nieznany" for a missing page, a missing `h3` or an empty one; otherwise the semester of the lower-cased header |
| GrupyParser.SemesterHeader | scraper/parsers/grupy_parser.py:179-183 | a header holding `semestr <kind> <year>` with single spaces and no earlier match names that kind and year |
| GrupyParser.KodGrupy | scraper/parsers/grupy_parser.py:218-219 | the code holds no space, and a name without a space is its own code, stripped |
| GrupyParser.KodGrupyOfCode | scraper/parsers/grupy_parser.py:218-219 | a name starting with a code and a space has that code |
| GrupyParser.TrybStudiow | scraper/parsers/grupy_parser.py:222-226 | "nieznany" without `/`; otherwise the stripped text between the first and the second `/` |
| GrupyParser.TrybStudiowOfSlashes | scraper/parsers/grupy_parser.py:222-226 | `a/m/...` and `a/m` have the stripped mode `m` |
| GrupyParser.GrupaIdOfPlanHref | scraper/parsers/grupy_parser.py:229 | a plan href `grupy_plan.php?ID=<digits>`, optionally followed by `&...`, has those digits as group id |
| GrupyParser.IcsLinkOfPlanLink | scraper/parsers/grupy_parser.py:228-230 | the plan link of a group becomes exactly its calendar link |
| GrupyParser.AttachedId | scraper/parsers/grupy_parser.py:246-247 | the course id is attached iff it is given and not 0 |
| GrupyParser.ParseGrupy | scraper/parsers/grupy_parser.py:202-252 | the loop over the rows builds the record of each row with an anchor, in order; no rows give no records |
| GrupyParser.GrupyPerAnchor | scraper/parsers/grupy_parser.py:212-249 | exactly one record per row with an anchor, in order, each built from its own anchor |
| GrupyParser.GrupaLinks | scraper/parsers/grupy_parser.py:228-243 | the record's link is the base URL followed by the href, its calendar link ends in `&KIND=GG`, and course and department are the ones passed in |
| GrupyScraper.ReadLinks | scraper/grupy_scraper.py:51-77 | the loop over the anchors builds the record of each plan link with `ID=<digits>`, in order, under the semester fixed before it |
| GrupyScraper.Scraper.constructor | scraper/grupy_scraper.py:21-23 | the given scrape time |
| GrupyScraper.Scraper.GetGrupy | scraper/grupy_scraper.py:25-84 | no groups when the course page cannot be fetched; otherwise the records of its plan links under the stripped text of its first `h3` |
| GrupyScraper.GrupaOfWellFormed | scraper/grupy_scraper.py:52-77 | a record carries the semester and scrape time passed in, a plan link with `ID=<digits>` and those digits, a stripped name, and the code and mode of that name |
| GrupyScraper.GrupyWellFormed | scraper/grupy_scraper.py:44-77 | every record of a page is well formed, under the page's first `h3`, stripped, or "" |
| GrupyScraper.GrupyFrom | scraper/grupy_scraper.py:52-77 | every record is the record of one of the page's anchors |
| GrupyScraper.GrupyComplete | scraper/grupy_scraper.py:52-68 | an anchor gives a record iff its href mentions `grupy_plan.php` and has `ID=<digits>`, and that record is in the result |
| GrupyLista.LabelsOf | scraper/scrapers/grupy_scraper.py:30-58 | one decision per `h3`, in order |
| GrupyLista.ScanH3 | scraper/scrapers/grupy_scraper.py:28-58 | the loop with `break` returns the label of the first `h3` that decides, or the default when none does |
| GrupyLista.SemestrIsFirstMention | scraper/scrapers/grupy_scraper.py:28-37 | "nieznany" iff no `h3` mentions either semester; otherwise the first `h3` that does decides, "letni" winning when it mentions both |
| GrupyLista.NiestacjonarneHoldsStacjonarne | scraper/scrapers/grupy_scraper.py:53-57 | a text with `niestacjonarne` also contains `stacjonarne` |
| GrupyLista.TrybNeverNiestacjonarne | scraper/scrapers/grupy_scraper.py:50-58 | the `elif` is dead: the mode is never "niestacjonarne"; it is "stacjonarne" iff some `h3` contains `stacjonarne`, and "nieznany" otherwise |
| GrupyLista.FullLink | scraper/scrapers/grupy_scraper.py:61 | a link starting with `http` is kept, any other gets the base URL in front |
| GrupyLista.IcsLinkId | scraper/scrapers/grupy_scraper.py:72 | the calendar link made from a numeric id names that id again |
| GrupyLista.GrupaZWiersza | scraper/scrapers/grupy_scraper.py:42-85 | a row gives a record iff it has an href, a non-blank text and a non-empty id; the record holds that id, the stripped text as code, the full link, the calendar link, and the page's semester and mode |
| GrupyLista.ParseGrupy | scraper/scrapers/grupy_scraper.py:21-87 | the records of the page's rows, in order |
| GrupyLista.ReadRow | scraper/scrapers/grupy_scraper.py:43-85 | the body of the loop over the rows, with its own inner `h3` scan, builds the row's record |
| GrupyLista.RowsRecordsWellFormed | scraper/scrapers/grupy_scraper.py:28-85 | every record has a non-empty id free of `&`, a stripped non-empty code, its calendar link, the page's semester and a mode that is not "niestacjonarne" |
| GrupyLista.RowsRecordsFrom | scraper/scrapers/grupy_scraper.py:42-85 | every record comes from a row, with that row's id and full link |
| GrupyLista.RowsRecordsComplete | scraper/scrapers/grupy_scraper.py:42-85 | a row with an href, a non-blank text and a non-empty id has its record in the result |
| GrupyLista.TrybZLinku | scraper/scrapers/grupy_scraper.py:117-121 | "niestacjonarne" iff the lower-cased text contains it; "stacjonarne" iff it contains only that; "nieznany" iff neither |
| GrupyLista.GrupaZLinku | scraper/scrapers/grupy_scraper.py:112-157 | a link gives a record iff its href has `ID=`; it holds the id, the full link, the calendar link and the course id; with the group's details their code, semester and (unless the link text names one) mode; without them the link text as code, the link-text mode and no semester |
| GrupyLista.GroupLinkHasId | scraper/scrapers/grupy_scraper.py:110-126 | the filter asks for `grupy_plan.php?ID=`, so the `continue` for a link without `ID=` is never taken |
| GrupyLista.ReadGroupLinks | scraper/scrapers/grupy_scraper.py:110-157 | the loop over the group links builds the record of each, in order |
| GrupyLista.ScrapeGrupyForKierunki | scraper/scrapers/grupy_scraper.py:92-165 | the records of every course in order; a course without a link, or whose page cannot be fetched, adds nothing |
| GrupyLista.WszystkieGrupyFrom | scraper/scrapers/grupy_scraper.py:96-157 | every record comes from a group link on the fetched page of a course with a link, and carries that course's id |
| GrupyLista.GrupyZLinkowComplete | scraper/scrapers/grupy_scraper.py:110-157 | every group link of a page gives a record, and it is in the page's result |
| ScraperMain.KonwertujNaListe | scraper/main.py:24-30 | None becomes [], a list stays as it is, anything else becomes a one-element list |
| ScraperMain.KonwertujNaListeIdempotent | scraper/main.py:24-30 | converting the result again changes nothing, and a list is its own result |
| ScraperMain.DictsOf | scraper/main.py:38 | defined iff every element has a `__dict__`, and then the dicts of the elements, in order |
| ScraperMain.KonwertujNaSlowniki | scraper/main.py:33-41 | [] stays []; a list whose first element lacks a `__dict__` is returned unchanged; otherwise the elements' dicts, failing iff some element lacks one |
| ScraperMain.KonwertujNaSlownikiIdempotent | scraper/main.py:33-41 | converting a converted list again changes nothing |
| ScraperMain.IdsFrom | scraper/main.py:96 | in either id list (line 96 or 117), every id comes from a record with an `id` key |
| ScraperMain.IdsComplete | scraper/main.py:96 | every record with an `id` key gives its id |
| ScraperMain.IdsAppend | scraper/main.py:117 | the ids of a concatenation are the concatenation of the ids, so their order is the records' order |
| ScraperMain.IdsCount | scraper/main.py:117 | there are as many ids as records with an `id` key |

## Left out

- HTTP requests, sessions, `raise_for_status`, timeouts and `time.sleep`: pages and responses are parameters or input sequences; the delays are returned as a trace.
- BeautifulSoup: HTML is not modelled. Pages are the sequences of anchors, header texts and cells the searches select, and `get_text(strip=True)` is `Text.Strip` of the text.
- A missing `href` attribute is the empty string, so the `KeyError` of `a["href"]` on an anchor without one is not modelled.
- The `icalendar` library (`Calendar.from_ical`, `walk`): the components it yields are given as a sequence.
- `scraper/ics_updater.py` and the thread pools of `scraper/scrapers/nauczyciel_scraper.py` (`scrape_nauczyciele_from_grupy` with `as_completed`): concurrent fan-out whose output order depends on scheduling. NauczycielObiekty models the sequential part: which objects are selected for details, and the update of one object.
- psycopg2 connections, SQL text, commit, rollback and cursor errors: the tables are in-memory sequences, and only the successful `execute_query` path is modelled.
- `Database.get_events_for_group`: a LEFT JOIN of the events with the teachers, outside the in-memory table model.
- Db.GetKierunekById, Db.GetGrupaById, Db.GetNauczycielById, Db.GetOrCreate: "the first row" is the first in table order. SQL gives no order without `ORDER BY`.
- Timestamps (`datetime.now`, `utcnow`) and `uuid.uuid4()` are parameters. A uuid source is an injective function from a counter.
- Character classes: `str.lower` is ASCII plus Latin-1 and Polish letters; `\d` is the ASCII digits; `isprintable` is ASCII printable, plus every character from U+00A1 on except the soft hyphen; `\s` is the set `str.isspace` accepts.
- Stamps.IsStamp: accepts only the zero-padded 15-character form `YYYYmmddTHHMMSS`, with a year from 1, a month 1 to 12, a day that exists in that month (Gregorian leap years), an hour below 24, and a minute and second below 60. `strptime` also accepts some shorter, unpadded forms, because `%m`, `%d`, `%H`, `%M` and `%S` take one or two digits. The model gives those the path for a value that does not parse.
- GrupyParser.ParseIcs: a calendar component always has a summary, a start and an end. In scraper/parsers/grupy_parser.py:118-130, a VEVENT without DTSTART or DTEND raises `AttributeError` at `.dt`, and one without SUMMARY raises `TypeError` in `re.search`. Either ends the whole `parse_ics`; the model does not have these cases.
- Seqs.SortBy: the insertion sort keeps elements with equal keys in input order, as Python's `sorted` does, but no lemma states this. The lemmas state sortedness, permutation and membership.
- Utils.ExtractIdFromUrl: the parameter name is matched as literal text. The source puts it into the pattern unescaped, but every caller passes a plain identifier such as `ID`, so it means the same thing there.
- The eviction of `lru_cache(maxsize=500)` is not modelled. `fetch_page_cached` is a memo that keeps every entry.
- The `Nauczyciel` dataclass (`scraper/models.py`) is a class whose fields are updated in place. The aliasing of `__dict__` views in `konwertuj_na_slowniki` is not modelled: each element's dict is a value.
- `parsuj_html_grupa`, which `scraper/scrapers/grupy_scraper.py` imports, is not defined in the module it is imported from. The group details are a parameter, None when the call fails.
- The `except` branch of `parse_grupy` in `scraper/scrapers/grupy_scraper.py` cannot be reached once HTML is abstracted, so it is not modelled.
- ScraperMain.IdsFrom: id lists are modelled over records that are dicts. Other elements are not modelled. In `'id' in r`, a string or list element is a substring or membership test: it is skipped when it holds no `'id'`, and otherwise `r['id']` raises. `None`, a number, or an object with neither `__contains__` nor `__iter__` raises in `'id' in r` itself.
- NauczycieleScraper.EmailOf: the removal of `mailto:` is one left-to-right pass of non-overlapping deletions, as `str.replace` does it. No claim is made for an address that itself contains `mailto:`.
- `main()` in `scraper/main.py`, `scraper/test.py`, logging, printing and the I/O helpers of `scraper/utils.py` (`setup_logging`, `save_to_json`, `print_stats`, `format_timestamp`): orchestration and output.

## Findings

| source | as written | input that shows it | evidently intended | confidence | as-written member | corrected member |
|---|---|---|---|---|---|---|
| scraper/parsers/nauczyciel_parser.py:30-35 | builds `Nauczyciel(..., grupa_id=grupa_id)`, but the dataclass at scraper/models.py:60-69 has no `grupa_id` field, so the call raises `TypeError` | a group page with the one link `nauczyciel_plan.php?ID=1`. The error is caught at scraper/scrapers/nauczyciel_scraper.py:91-96, so no teacher is collected | the dataclass carries `grupa_id`, and the parser returns one object per distinct teacher link | not executed | NauczycielObiekty.ParseAsWritten, NauczycielObiekty.OneLinkRaises | NauczycielObiekty.ParseNauczycieleFromGroupPage |
| scraper/nauczyciel_parser.py:221 | reads each group's page link as `grupa['link_strona_grupy']`, a key that no group record built in the repository has. Those records use `link_grupy` (scraper/scrapers/grupy_scraper.py:82, scraper/parsers/grupy_parser.py:240), which scraper/scrapers/nauczyciel_scraper.py:84 reads | any group list the scrapers build, such as one record with `kod_grupy` `23INF-SP` and `link_grupy` `https://plan.uz.zgora.pl/grupy_plan.php?ID=1`. The first loop raises `KeyError('link_strona_grupy')` at its first group, so no teacher is scraped | each group's plan page is read at `link_grupy`, and the result is the first record of each teacher id, with its details | not executed | NauczycielParser.ScrapeAsWritten, NauczycielParser.OneBuiltGroupRaises | NauczycielParser.ScrapeNauczycieleFromGrupy |
