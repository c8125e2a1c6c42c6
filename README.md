# Portfolio site core, modelled in Dafny

The Flask portfolio application (`Port/app.py`) serves static pages from two
hardcoded tables, `PROJECTS` and `SKILLS`, and keeps a flat-file log of the
messages visitors send through the contact form. This project models the parts
of it with behaviour of their own:

- **The contact-message log** (`messages.dfy`, module `Messages`). The backing
  file `messages.json` is the field `file` of class `MessageStore`: `None` when
  the file does not exist, `Some(Records(ms))` when it holds a JSON list of
  records, `Some(Unparseable)` when it exists but does not parse as one.
  `LoadMessages` reads it; `SaveMessage` loads every record, stamps the new one
  with the current time, appends it and rewrites the whole file.
  `SubmitContact` is the contact endpoint: it builds the four-field record from
  the request body and saves it, answering success or failure with status 500.
- **The timestamp** (`timestamp.dfy`, module `Timestamp`): the rendering
  `strftime('%Y-%m-%d %H:%M:%S')` of a clock reading as a 19-character string,
  with its inverse `Parse` and the round trips between them.
- **The catalogue queries** (`catalogue.dfy`, module `Catalogue`): the projects
  page's category filter, the project page's lookup by id, and the statistics
  endpoint's counts, over the `PROJECTS` and `SKILLS` tables.

`wrappers.dfy` holds the `Option` and `Result` datatypes.

The clock (`datetime.now()`) is a `DateTime` parameter; whether the file can be
opened for writing is the parameter `writeOk`; the request body is a `Payload`
parameter.

## Model

| member | source | states |
|---|---|---|
| `Messages.MessageStore.constructor` | Port/app.py:11 | the store starts with the given file state (absent, a record list, or unparseable content) |
| `Messages.MessageStore.LoadMessages` | Port/app.py:13-17 | an absent file loads as the empty list without error; a record list loads as exactly its records; unparseable content is a `CorruptStore` error |
| `Messages.MessageStore.SaveMessage` | Port/app.py:19-24 | succeeds exactly when the file loads and can be written; then the file holds the previous records followed by the stamped record; on a load or write failure the file is unchanged and the error is reported |
| `Messages.Stamp` | Port/app.py:21 | the saved record has its timestamp set to the formatted clock reading, overwriting any earlier value, with name, email, subject and message unchanged |
| `Messages.StampTimestamp` | Port/app.py:21 | the stamped timestamp is well formed (`YYYY-MM-DD HH:MM:SS`) and parses back to the clock reading |
| `Messages.Appended` | Port/app.py:20-22 | the list written has one more record than the list loaded, the loaded records come first unchanged and in order, and the stamped record is last |
| `Messages.AppendedTwice` | Port/app.py:19-24 | two saves in a row leave the two stamped records at the end in the order they were saved |
| `Messages.BuildRecord` | Port/app.py:181-186 | the record has each of name, email, subject and message exactly when the request has that key, with the request's value, and no timestamp yet |
| `Messages.SubmitContact` | Port/app.py:177-190 | the reply is success (status 200) exactly when the body is a JSON object, the file loads and the file can be written, and then the built record is appended stamped; otherwise the reply is a failure with status 500 naming the cause (`BadPayload`, `CorruptStore` or `WriteFailed`) and the file is unchanged |
| `Timestamp.Pad2` | Port/app.py:21 | a two-digit field (`%m`, `%d`, `%H`, `%M`, `%S`) is two digits, zero-padded, and reads back as the field's value |
| `Timestamp.Pad4` | Port/app.py:21 | the year (`%Y`) is four digits, zero-padded, and reads back as the year |
| `Timestamp.PadValue2` | Port/app.py:21 | every two-digit string is the padding of its own value |
| `Timestamp.PadValue4` | Port/app.py:21 | every four-digit string is the padding of its own value |
| `Timestamp.Format` | Port/app.py:21 | `strftime('%Y-%m-%d %H:%M:%S')` of a reading that fits the field widths; its own contract states only that the result has 19 characters; its shape comes from `FormatWellFormed` and its inverse from `ParseFormat`/`FormatParse` |
| `Timestamp.FormatPieces` | Port/app.py:21 | year at positions 0-3, month at 5-6, day at 8-9, hour at 11-12, minute at 14-15, second at 17-18, separators between |
| `Timestamp.FormatWellFormed` | Port/app.py:21 | a formatted timestamp has 19 characters, '-' at indices 4 and 7, ' ' at 10, ':' at 13 and 16 and digits everywhere else |
| `Timestamp.Parse` | Port/app.py:21 | a string parses exactly when it has the timestamp shape, and then to fields that fit the format widths |
| `Timestamp.ParseFormat` | Port/app.py:21 | parsing a formatted clock reading gives the reading back |
| `Timestamp.FormatParse` | Port/app.py:21 | every string of the timestamp shape is the rendering of the reading it parses to |
| `Timestamp.FormatInjective` | Port/app.py:21 | distinct clock readings are rendered as distinct timestamps |
| `Catalogue.WithCategory` | Port/app.py:161 | the list comprehension keeps a subsequence of the projects, in their order, all of the requested category |
| `Catalogue.WithCategoryCount` | Port/app.py:161 | every project of the category is kept as many times as it occurs and no project of another category is kept |
| `Catalogue.FilterProjectsSpec` | Port/app.py:159-163 | category 'all' gives the projects unchanged; any other category gives exactly the projects of that category, in original order, as a subsequence |
| `Catalogue.FilterProjects` | Port/app.py:159-163 | category 'all' returns the projects unchanged; any other category returns a subsequence of the projects, all of that category (that none of the category is dropped is `FilterProjectsSpec`) |
| `Catalogue.FilterCatalogue` | Port/app.py:159-163 | on the catalogue, 'all' selects every project, 'AI/ML' projects 1-2, 'Data Analytics' 3-4, 'Automation' 5, and every other category none |
| `Catalogue.FirstWithId` | Port/app.py:168 | the position found holds the first project with the id; every earlier project has another id; the end of the list means there is none |
| `Catalogue.FindById` | Port/app.py:168 | nothing is found exactly when no project has the id; otherwise the result is a project with the id preceded by none with it |
| `Catalogue.FindDistinct` | Port/app.py:168 | when ids are distinct, looking up a project's id finds that project |
| `Catalogue.CatalogueDistinctIds` | Port/app.py:27-107 | the catalogue's ids are distinct and are 1 to 5 in list order |
| `Catalogue.ProjectDetail` | Port/app.py:166-171 | the page redirects to the projects page exactly when no project has the id; otherwise it shows a catalogue project with that id |
| `Catalogue.ProjectDetailSpec` | Port/app.py:166-171 | the project page is shown exactly for ids 1 to 5, showing the project with that id; any other non-negative id redirects to the projects page (the route's `int` converter passes no negative id) |
| `Catalogue.TotalSkills` | Port/app.py:197 | the count is zero exactly when every group's list is empty, and no group has more skills than the count |
| `Catalogue.TotalSkillsIsLength` | Port/app.py:197 | the sum of the skill-list lengths is the length of all skill lists laid end to end |
| `Catalogue.TotalSkillsAppend` | Port/app.py:197 | the skills count of two tables together is the sum of their counts |
| `Catalogue.GetStats` | Port/app.py:192-201 | the statistics report 5 projects completed (the catalogue's length), 25 skills mastered (all listed skills), 2 years of experience and 5 certifications |

## Left out

- Flask routing, template rendering, `redirect`/`url_for`, the error handlers and `app.run`: framework plumbing; the project page's redirect is the value `RedirectToProjects`.
- JSON encoding and decoding (`json.load`, `json.dump` with `indent=4`, `request.get_json`): library code; the file is abstracted to absent / record list / unparseable, and the request body to a JSON object or anything else.
- Filesystem calls (`os.path.exists`, `open`): a failure to read counts as unparseable content, a failure to open for writing is `writeOk == false`; a write that fails part-way and truncates the file is not modelled.
- `datetime.now()` and the local time zone: the reading is a parameter.
- Concurrent submissions racing on the read-modify-rewrite (the last write wins): concurrency is out of scope.
- The projects page's query string: `request.args.get('category', 'all')` passes an absent `category` parameter as `'all'`; `FilterProjects` takes the resulting string, so an absent parameter is modelled as `ALL`.
- The text of the reply (`'Message sent successfully!'`, or `str(e)` of the exception): the reply records only success, the status and the error kind.
- Field values of the request that are not strings (numbers, lists): every field is a string or absent; a JSON `null` value is the same as an absent key, as `data.get` returns `None` for both.
- Stored content that is JSON but not a list of records with these five fields counts as unparseable. The model is stricter than the source there: for a file holding `[1]` or `[{"note": "x"}]` the source appends and writes the list back, where `SaveMessage` fails with `CorruptStore`; for a file holding a JSON non-list such as `{}`, `load_messages` returns it without raising (and `save_message` then fails on `append`), where `LoadMessages` returns `Err(CorruptStore)`.
- `save_message` also changes its caller's dict in place; the only caller discards it, so `SaveMessage` takes the record by value.
- The descriptive fields of projects (description, tech stack, links, highlights), `EXPERIENCE` and `SECRET_KEY`: display data and configuration with no behaviour.
- Timestamp.Format: pads every year to four digits; for years below 1000 the platform's `%Y` may not pad, so `SaveMessage` accepts only clock readings with years 1000 to 9999.
