# Department board backend — a verified model of the request handlers

The department board is an Express server backed by a PostgreSQL database
through an ORM. Students sign up, read announcements, archive the ones they
want to keep, read their results and find the timetable of their level.
Admins post, edit and delete announcements, and upload timetables, events
and results. This project models the request handlers of those routes and
two small server helpers: the CORS origin check and the debug-environment
report. It then proves properties of the model.

The model has the following modules:

- `Seqs`: the ORM's table operations over sequences.
  - `Filter` is a `where` clause, in table order.
  - `SortDesc` and `FindMany` give `orderBy: desc` results.
  - `Newest` is `findFirst` with `orderBy: desc`; `Take` is `take: n`.
  - `FindFirst` finds the first match; `Without` is a delete by key.
  - Also here: the uniqueness predicates and the lemmas about them.
- `Schema`: the row types and the reply shape.
  - A reply is `Ok(status, body)` or `Err(status, error)`.
  - JavaScript truthiness of a request field (`Truthy`, `OrElse`, `OrNull`).
  - The upload path, and the environment variables.
- `Store`: the database.
  - A `Database` class holds one sequence per table and an id counter. The
    handlers update it in place.
  - `Consistent` is the integrity the schema enforces. Every id is unique
    and below the counter. Emails are unique, matric numbers are unique,
    and each (student, announcement) archive pair is unique.
  - One lemma per kind of update shows it keeps `Consistent`.
- `Auth`: `POST /signup` and `GET /health`.
- `Students`: the student routes.
  - The profile read, the profile update and the picture update.
  - Results, archiving, un-archiving, and the archive list.
  - The caller's timetable.
- `Admin`: the admin routes.
  - Announcement create, update and delete.
  - Timetable upload, and the admin's list of one level's timetables.
  - Event and result upload.
- `Announcements`: the public routes. These are the filtered list, the
  featured list and the lookup of one announcement by id.
- `Timetables`: the public first-semester timetable lookup.
- `Server`: the CORS `origin` callback and the `/api/debug-env` fields.
- `Flows`: properties that span handlers. For example, a deleted
  announcement is then answered with 404.

Each handler that writes is a module-level method that takes the
`Database` and may modify it. It requires and ensures `db.Valid()`. It returns the HTTP reply, and each error path leaves the
database unchanged. On success it states the new contents of every table
through `Snapshot()`. Read-only handlers are functions of the tables they
read.

The model makes the following choices:

- The caller's id, which the authentication middleware puts on the request,
  is a parameter (`me`).
- Password hashing and token signing are function parameters.
- Clock readings are parameters: the `createdAt` or `archivedAt` a new row
  gets (`now`), and the health timestamp.
- `parseInt(...)` and `new Date(...)` results are passed in already
  computed. `None` stands for NaN or an Invalid Date.

## Model

| member | source | states |
|---|---|---|
| Seqs.FindMany | department-board-backend/routes/announcements.js:38-46 | a `findMany` with a `where` and `orderBy: desc` returns exactly the matching rows, each as often as it is stored, newest first |
| Seqs.SortDesc | department-board-backend/routes/announcements.js:45 | the newest-first ordering is a permutation of its input and is ordered by the timestamp |
| Seqs.Newest | routes/timetables.js:13-19 | `findFirst` with `orderBy: desc` returns nothing exactly on an empty selection, and otherwise a selected row no older than any other |
| Seqs.InsertDescSorted | department-board-backend/routes/announcements.js:45 | inserting into a newest-first sequence keeps it newest first |
| Seqs.TakeOmitsOlder | department-board-backend/routes/announcements.js:70-71 | a row `take: 5` drops from a newest-first list is left out only when five are kept, and is no newer than any of them |
| Seqs.WithoutUnique | routes/admin.js:100-102 | deleting by key keeps keys unique |
| Seqs.WithoutCount | routes/admin.js:100-102 | with unique keys, a delete removes exactly one row when the key is present and none otherwise |
| Seqs.FilterAppend | routes/timetables.js:13-17 | a row added at the end of a table joins a selection exactly when it satisfies the `where` |
| Seqs.FilterConcat | routes/timetables.js:13-17 | filtering two tables one after the other gives the two filtered tables one after the other |
| Seqs.Filter | routes/timetables.js:14-17 | a `where` keeps exactly the rows satisfying it, each as often as stored |
| Seqs.FindFirst | department-board-backend/routes/students.js:158-160 | `findFirst`/`findUnique` returns a satisfying row, and nothing exactly when no row satisfies the `where` |
| Seqs.Take | department-board-backend/routes/announcements.js:71 | `take: n` keeps the first n rows, or all of them when there are fewer |
| Seqs.TakeSubMultiset | department-board-backend/routes/announcements.js:71 | `take` holds each row at most as often as its input |
| Seqs.FindManySubMultiset | department-board-backend/routes/announcements.js:58-70 | a query holds each row at most as often as the table |
| Seqs.Without | routes/admin.js:100-102 | a delete by key removes exactly the rows with that key and keeps every other row as often as stored |
| Schema.Truthy | routes/admin.js:31 | the JavaScript `!field` test on a string field: a field is truthy when present and not empty |
| Schema.OrElse | routes/admin.js:201-202 | `field || fallback`: the field when truthy, the fallback otherwise |
| Schema.OrNull | routes/auth.js:84 | `field || null`: the field when truthy, null otherwise |
| Schema.StartsWith | department-board-backend/routes/students.js:25 | `startsWith` (also server.js:74-75): the string's first characters, as many as the prefix has, are the prefix |
| Schema.UploadPath | routes/admin.js:42 | the `/uploads/${filename}` path (also routes/admin.js:125, routes/admin.js:171 and department-board-backend/routes/students.js:115): it starts with `/uploads/` and the rest is the stored file name |
| Store.Consistent | department-board-backend/routes/students.js:100-102 | the integrity the schema enforces: unique ids below the counter, unique emails (the P2002 error), unique matric numbers and unique (student, announcement) archive pairs |
| Store.AddAnnouncementKeepsConsistent | routes/admin.js:35-50 | inserting an announcement with the next id keeps the store consistent |
| Store.AddTimetableKeepsConsistent | routes/admin.js:120-127 | inserting a timetable with the next id keeps the store consistent |
| Store.AddEventKeepsConsistent | routes/admin.js:165-173 | inserting an event with the next id keeps the store consistent |
| Store.AddResultKeepsConsistent | routes/admin.js:195-205 | inserting a result with the next id keeps the store consistent |
| Store.DeleteAnnouncementKeepsConsistent | routes/admin.js:100-102 | deleting an announcement by id keeps the store consistent |
| Admin.Flag | routes/admin.js:40-41 | `value === 'true'`: a flag is set only by the exact string `true` |
| Students.FileFilter | department-board-backend/routes/students.js:24-31 | the upload filter: a MIME type passes when it starts with `image/` |
| Announcements.Satisfies | department-board-backend/routes/announcements.js:16-36 | how the ORM evaluates the built `where` on a row: every present part holds |
| Announcements.Selected | department-board-backend/routes/announcements.js:15-36 | the query's meaning stated on the parameters: each given filter holds |
| Store.AddUserKeepsConsistent | routes/auth.js:56-99 | a user whose email and matric number nobody has can be inserted without breaking any uniqueness constraint |
| Store.ReplaceUserKeepsConsistent | department-board-backend/routes/students.js:73-91 | rewriting a user, keeping id and matric number, with an email no other user has, keeps the store consistent |
| Store.AddArchiveKeepsConsistent | department-board-backend/routes/students.js:166-193 | a new (student, announcement) pair with a fresh id keeps archive pairs unique |
| Store.DeleteArchiveKeepsConsistent | department-board-backend/routes/students.js:239-241 | deleting an archive keeps ids and archive pairs unique |
| Store.ReplaceAnnouncementKeepsConsistent | routes/admin.js:68-83 | an announcement rewritten under its own id keeps the store consistent |
| Store.FindUser | department-board-backend/routes/students.js:36-38 | `findUnique` by id finds a row with that id exactly when one exists |
| Auth.Signup | routes/auth.js:43-125 | 400 when a required field is falsy, 400 when the email or matric number is taken, 500 when the level is NaN, otherwise 201 and one new student row: hashed password at cost 12, department "Computer Science", phone or null, next id; the reply carries the public columns and a token for that id signed with the secret or the fallback key for "7d"; errors change nothing |
| Auth.FindExisting | routes/auth.js:56-63 | the duplicate lookup finds a user exactly when one shares the email or the matric number |
| Auth.SigningKey | routes/auth.js:102-107 | the signing key is JWT_SECRET when it is set and non-empty, and the fallback key otherwise |
| Auth.SecondSignupRefused | routes/auth.js:56-70 | once a student is stored, a later signup with the same email or matric number is recognised as registered (the stored row is the witness), which `Auth.Signup` answers with 400 |
| Auth.SignupComplete | routes/auth.js:48 | the signup validation: the request passes exactly when name, email, matric number, level, password and student type are all truthy; phone is optional |
| Auth.AccountOf | routes/auth.js:88-98 | the `select` of the signup reply: id, name, email, matric number, level, student type, role, department and phone of the stored row; the reply type has no password field, so the hash is never returned |
| Auth.Health | routes/auth.js:127-134 | the probe reports success, the given timestamp, and whether JWT_SECRET is set |
| Auth.HealthReportsKeySource | routes/auth.js:102-107 | the probe reports no secret exactly when tokens are signed with the fallback key |
| Students.FileFilterExact | department-board-backend/routes/students.js:24-31 | the picture filter accepts exactly the MIME types whose first six characters are `image/`; with examples (`image/png` and `image/` pass, `application/pdf` and `image` fail) |
| Students.ProfileOf | department-board-backend/routes/students.js:38-48 | the profile `select` (also department-board-backend/routes/students.js:80-90): the row's id, name, email, matric number, department, student type, level, phone and picture path, and no password or role |
| Students.GetProfile | department-board-backend/routes/students.js:34-61 | 404 exactly when the caller has no row, otherwise the stored profile columns and creation time of the caller's row |
| Students.UpdateProfile | department-board-backend/routes/students.js:64-106 | 400 without name and email; 500 when the caller has no row; 400 when another user has the email; otherwise only the caller's name, email and phone (or null) change |
| Students.UpdatePicture | department-board-backend/routes/students.js:109-135 | a non-image upload reaches the error handler (500), no file is 400, a missing row is 500; otherwise only the caller's picture path changes, to `/uploads/` + filename |
| Students.ListResults | department-board-backend/routes/students.js:138-150 | exactly the caller's results, with multiplicity, newest first |
| Students.ArchiveAnnouncement | department-board-backend/routes/students.js:153-208 | 404 for an unknown announcement, 400 when the caller already archived it, otherwise one new archive row linking caller and announcement and the reply carries that announcement |
| Students.ListArchives | department-board-backend/routes/students.js:211-232 | exactly the caller's archives, with multiplicity, most recently archived first |
| Students.RemoveArchive | department-board-backend/routes/students.js:235-248 | 500 when no archive has the id, otherwise exactly that one archive row is deleted, whoever owns it |
| Students.KnownLevel | department-board-backend/routes/students.js:253-260 | the caller's level is known exactly when the caller's row has a non-zero level, and it is then that row's stored level |
| Students.MyTimetable | department-board-backend/routes/students.js:251-278 | 400 when the caller's level is unknown, 404 exactly when no timetable has that level, otherwise 200, exactly when some timetable has that level, with the newest timetable of that level in any semester |
| Admin.FlagOnlyExactTrue | routes/admin.js:40-41 | examples of `Admin.Flag`: `true` sets a flag; an absent flag, the empty string, `True`, `1` and `false` clear it |
| Admin.FileUrl | routes/admin.js:42 | an upload is stored as `/uploads/` + filename, and no upload as null |
| Admin.CreateAnnouncement | routes/admin.js:27-60 | 400 unless title, content and category are truthy, otherwise one new row with those fields, the flags, the file path, the caller as author and the next id |
| Admin.ApplyUpdate | routes/admin.js:66-77 | each falsy text field, absent flag and missing file keeps its column; each given one replaces it; id, author and creation time never change |
| Admin.EmptyUpdateKeepsRow | routes/admin.js:70-77 | an update with no fields and no file leaves the row as it was |
| Admin.UpdateIdempotent | routes/admin.js:70-77 | applying the same update twice equals applying it once |
| Admin.UpdateAnnouncement | routes/admin.js:63-93 | 500 for an unknown id, otherwise only that row changes, to the updated row |
| Admin.DeleteAnnouncement | routes/admin.js:96-109 | 500 for an unknown id, otherwise exactly the one row with that id is removed |
| Admin.CreateTimetable | routes/admin.js:112-137 | 400 unless title, level, semester and file are given, 500 for a NaN level, otherwise one new timetable row |
| Admin.TimetablesByLevel | routes/admin.js:140-154 | 500 exactly for a NaN level; every parsed level is answered 200 with exactly the timetables of that level, with multiplicity, newest first |
| Admin.CreateEvent | routes/admin.js:157-183 | 400 unless all four fields are truthy, 500 for an Invalid Date, otherwise one new event row with the optional image path |
| Admin.ResultLevel | routes/admin.js:203 | a result's level is the parsed level, or 100 when it is NaN or 0; it is never 0 |
| Admin.CreateResult | routes/admin.js:186-215 | 400 unless student, course code, course title and grade are given, otherwise one new result row with semester `first` and session `2023/2024` as defaults |
| Announcements.ContainsInsensitive | department-board-backend/routes/announcements.js:18-19 | `contains` with `mode: 'insensitive'`: the lower-cased term occurs at some position of the lower-cased text |
| Announcements.Highlighted | department-board-backend/routes/announcements.js:59-64 | the featured list's `OR`: a row is selected when it is featured or urgent |
| Announcements.BuildWhere | department-board-backend/routes/announcements.js:13-36 | each filter is in the `where` exactly when its query parameter asks for it; search and category carry the parameter's string, and each flag is whether its parameter is exactly `true` |
| Announcements.ListAnnouncements | department-board-backend/routes/announcements.js:9-53 | exactly the announcements passing every given filter (case-insensitive search in title or content, category, featured, urgent), with multiplicity, newest first |
| Announcements.NoFilterListsAll | department-board-backend/routes/announcements.js:13 | with no query parameters the list holds every announcement |
| Announcements.FiltersNarrow | department-board-backend/routes/announcements.js:13-36 | dropping any one filter can only add rows |
| Announcements.SearchIgnoresCase | department-board-backend/routes/announcements.js:18-19 | the search gives the same answer whatever the ASCII case of text and term |
| Announcements.Featured | department-board-backend/routes/announcements.js:56-79 | at most five featured or urgent announcements, each at most as often as stored, newest first; one is left out only when five newer-or-equal ones are shown |
| Announcements.GetAnnouncement | department-board-backend/routes/announcements.js:82-104 | 404 exactly when no announcement has the id, otherwise one with that id |
| Timetables.FirstSemesterOf | routes/timetables.js:14-17 | the lookup's `where`: the row has the parsed level and semester `first` |
| Timetables.LatestFirstSemester | routes/timetables.js:9-30 | 500 for a NaN level, 404 exactly when no first-semester timetable has the level, otherwise the newest first-semester timetable of that level |
| Timetables.Matching | routes/timetables.js:14-17 | the lookup selects exactly the first-semester timetables of the level |
| Timetables.MatchingAppend | routes/timetables.js:13-17 | a timetable added to the table joins the lookup's selection exactly when it matches |
| Timetables.NewUploadIsFound | routes/timetables.js:13-19 | a first-semester timetable newer than every stored one is what the lookup for its level returns |
| Timetables.OtherUploadIgnored | routes/timetables.js:13-19 | a timetable of another level or semester does not change the lookup's answer |
| Server.CorsOrigin | server.js:26-35 | a request without an origin is allowed; otherwise it is allowed exactly when its origin is listed, and refused with `Not allowed by CORS` |
| Server.CorsAllowList | server.js:17-23 | the list has five entries, all admitted; examples: `http://localhost:3000` and a missing origin are allowed, the near misses `http://localhost:3001` and `https://localhost:3000` are refused |
| Server.Preview | server.js:65-67 | `NOT SET` when the URL is unset; otherwise the URL's first 50 characters, or the whole URL when shorter, followed by `...` |
| Server.StartsCorrectly | server.js:73-76 | true exactly when the URL is set and starts with `postgresql://` or `postgres://` |
| Server.DebugEnv | server.js:63-81 | the report's flags say whether DATABASE_URL and JWT_SECRET are set; the preview and scheme check are as above; the other fields are copied |
| Server.DebugReportConsistent | server.js:63-81 | a URL reported well-formed is reported set and its preview shows the scheme; the preview is `NOT SET` exactly when the URL is unset |
| Server.SchemesDistinct | server.js:74-75 | examples: a `postgresql://` URL and a `postgres://` URL each pass only through their own prefix test, and a `mysql://` URL fails |
| Flows.UpdatedAnnouncementIsServed | routes/admin.js:68-83 | after an update, the public lookup by id serves the updated row |
| Flows.DeletedAnnouncementIsGone | routes/admin.js:100-102 | after a delete, the lookup by id answers 404 and no list shows the row |
| Flows.CreatedAnnouncementIsPublished | routes/admin.js:35-50 | a created announcement is served by its id and listed under every query it passes |
| Flows.UpdatedProfileIsRead | department-board-backend/routes/students.js:73-91 | after a profile update, the profile read returns the new columns |
| Flows.ArchivedIsListedOnce | department-board-backend/routes/students.js:166-193 | a new archive is in its owner's list, and archiving the same announcement again is refused |
| Flows.RemovedArchiveIsUnlisted | department-board-backend/routes/students.js:239-241 | after un-archiving, no archive list holds that archive |
| Flows.UploadedResultIsListed | routes/admin.js:195-205 | an uploaded result is in its student's result list |
| Flows.OwnTimetableNoOlderThanPublic | department-board-backend/routes/students.js:263-268 | the caller's own timetable, any semester, is never older than the public first-semester one of the same level |
| Flows.PublicTimetableIsListed | routes/timetables.js:13-19 | the public lookup's answer is one of the rows the admin listing of that level shows |

## Left out

- `POST /login`, `GET /check-db` and `POST /create-test-user` (routes/auth.js:28-41): their bodies are not part of this model.
- The ORM client, its construction and its connection handling. The model stands in for them with the `Database` class.
- bcrypt and JWT are uninterpreted function parameters. That the stored hash differs from the plaintext is bcrypt's property and is not stated.
- The authentication and role middleware (`authenticateToken`, `requireStudent`, `requireAdmin`, middleware/auth): the caller's id arrives as a parameter.
- Upload storage: destination directories, generated file names and the 5 MB and 10 MB size limits. The stored name is part of the `UploadedFile` value.
- `parseInt` and `new Date` parsing: their results are inputs.
- A NaN or Invalid Date that reaches the ORM is modelled as the route's 500 error. This matches the ORM refusing such values, but the model only assumes it.
- Unknown ids in update and delete give the route's 500 error, the ORM's record-not-found error.
- Foreign keys and cascades: the schema file is not part of this model. Nothing stops, for example, archiving a row that is then deleted.
- Row ids are naturals drawn from a counter, an assumption that stands in for the ORM's generated ids. Route parameters and the `studentId` form field of a result upload (`Admin.ResultForm.studentId`) are taken as already converted to ids; `None` is an absent or empty field.
- Integer columns, `level` above all, are unbounded integers in the model. In the source they are 32-bit database integers: a parsed level outside that range (3000000000, say) makes the insert of routes/auth.js:81, routes/admin.js:123 and routes/admin.js:203 and the queries of routes/admin.js:145 and routes/timetables.js:15 fail into the route's 500, while `Auth.Signup`, `Admin.CreateTimetable`, `Admin.CreateResult`, `Admin.TimetablesByLevel` and `Timetables.LatestFirstSemester` store or look up the value.
- `createdAt` and `archivedAt` come from a `now` parameter. The model does not assume the clock increases.
- `Announcements.ListAnnouncements`: case folding only maps ASCII letters. The database's Unicode-aware case-insensitive match is not modelled.
- `Server.Preview`: `substring(0, 50)` counts UTF-16 code units; the model counts characters.
- Request bodies are taken to hold strings only: every body field is absent or a string. A JSON number or boolean cannot be expressed, so for example a signup with the number `level: 0`, which the falsy test refuses with 400, has no counterpart; the nearest input, the string `"0"`, passes validation and stores level 0.
- Query parameters given more than once (which arrive as arrays) are not modelled; each parameter is absent or one string.
- The `include` projections are not modelled: the author's name on announcement and archive replies, and the announcement on the archive list. Neither are the `success`/`message` fields of success bodies or the `details` field sent in development.
- The catch-all 500 replies of the create routes (for example "Failed to create announcement" and "Failed to upload result") cannot occur in the model. Their usual cause is a broken foreign key, and foreign keys are not modelled. Likewise, `ArchiveAnnouncement` never reaches the P2002 branch (department-board-backend/routes/students.js:202-204): its earlier duplicate check already answers 400, and the handler runs alone, so no other request can insert the pair in between.
- Concurrency: two requests racing between a uniqueness check and an insert are not modelled. Each handler runs alone.
- The routing, static files, `/api/test-db`, `/api/health`, the 404 handler, `listen` and the logging of server.js are left out. So are department-board-backend/server.js, which is wiring, and prisma/seed.js, which seeds sample data.
- The error handler of department-board-backend/server.js:41-47 is used only for the 500 reply it sends when the picture filter refuses a file.
