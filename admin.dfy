/** The admin routes: announcement create, partial update and delete;
    timetable upload and the timetables of one level; event create; result
    upload. `me` is the admin the authentication middleware identified.
    Multipart form fields arrive as strings; `parseInt` and `new Date` results
    are passed in already computed, `None` standing for NaN and Invalid Date. */
module Admin {
  import opened Seqs
  import opened Schema
  import opened Store

  /** The form of `POST` and `PUT /announcements`. */
  datatype AnnouncementForm = AnnouncementForm(
    title: Option<string>,
    content: Option<string>,
    category: Option<string>,
    isFeatured: Option<string>,
    isUrgent: Option<string>)

  datatype TimetableForm = TimetableForm(title: Option<string>, level: Option<string>, semester: Option<string>)

  datatype EventForm = EventForm(title: Option<string>, description: Option<string>, date: Option<string>, venue: Option<string>)

  datatype ResultForm = ResultForm(
    studentId: Option<Id>,
    courseCode: Option<string>,
    courseTitle: Option<string>,
    grade: Option<string>,
    semester: Option<string>,
    session: Option<string>)

  const AnnouncementFieldsRequired := "Title, content, and category are required"
  const UpdateFailed := "Failed to update announcement"
  const DeleteFailed := "Failed to delete announcement"
  const TimetableFieldsRequired := "Title, level, semester, and file are required"
  const TimetableUploadFailed := "Failed to upload timetable"
  const TimetablesFetchFailed := "Failed to fetch timetables"
  const EventFieldsRequired := "All event fields are required"
  const EventCreateFailed := "Failed to create event"
  const ResultFieldsRequired := "Required result fields are missing"

  const DefaultSemester := "first"
  const DefaultSession := "2023/2024"
  const DefaultLevel := 100

  /** A form flag: `value === 'true'`. */
  predicate Flag(raw: Option<string>) {
    raw == Some("true")
  }

  /** Only the exact string `true` sets a flag; an absent flag, other
      spellings and other truthy strings all clear it. */
  lemma FlagOnlyExactTrue()
    ensures Flag(Some("true"))
    ensures !Flag(None) && !Flag(Some("")) && !Flag(Some("True")) && !Flag(Some("1")) && !Flag(Some("false"))
  {
  }

  /** The stored path of an optional upload: `req.file ? '/uploads/' + filename : null`. */
  function FileUrl(file: Option<UploadedFile>): (r: Option<string>)
    ensures r.Some? <==> file.Some?
    ensures file.Some? ==> StartsWith(r.value, "/uploads/") && r.value[9..] == file.value.filename
  {
    match file
    case None => None
    case Some(f) => Some(UploadPath(f))
  }

  /** `POST /announcements`. */
  method CreateAnnouncement(db: Database, me: Id, form: AnnouncementForm, file: Option<UploadedFile>, now: int)
    returns (out: Reply<Announcement>)
    requires db.Valid()
    modifies db
    ensures db.Valid()
    ensures out.Ok? <==> Truthy(form.title) && Truthy(form.content) && Truthy(form.category)
    ensures out.Err? ==> out == Err(400, AnnouncementFieldsRequired) && unchanged(db)
    ensures out.Ok? ==>
      var a := out.body;
      && out.status == 201
      && a == Announcement(old(db.nextId), form.title.value, form.content.value, form.category.value,
                           Flag(form.isFeatured), Flag(form.isUrgent), FileUrl(file), me, now)
      && db.Snapshot() == old(db.Snapshot()).(announcements := old(db.announcements) + [a], nextId := old(db.nextId) + 1)
  {
    if !(Truthy(form.title) && Truthy(form.content) && Truthy(form.category)) {
      return Err(400, AnnouncementFieldsRequired);
    }
    var a := Announcement(db.nextId, form.title.value, form.content.value, form.category.value,
                          Flag(form.isFeatured), Flag(form.isUrgent), FileUrl(file), me, now);
    AddAnnouncementKeepsConsistent(db.Snapshot(), a);
    db.announcements := db.announcements + [a];
    db.nextId := db.nextId + 1;
    out := Ok(201, a);
  }

  /** The data of `PUT /announcements/:id` applied to a row: a falsy text
      field, an absent flag and a missing file leave the column as it was. */
  function ApplyUpdate(a: Announcement, form: AnnouncementForm, file: Option<UploadedFile>): (r: Announcement)
    ensures r.id == a.id && r.authorId == a.authorId && r.createdAt == a.createdAt
    ensures r.title == (if Truthy(form.title) then form.title.value else a.title)
    ensures r.content == (if Truthy(form.content) then form.content.value else a.content)
    ensures r.category == (if Truthy(form.category) then form.category.value else a.category)
    ensures r.isFeatured == (if form.isFeatured.Some? then form.isFeatured.value == "true" else a.isFeatured)
    ensures r.isUrgent == (if form.isUrgent.Some? then form.isUrgent.value == "true" else a.isUrgent)
    ensures r.fileUrl == (if file.Some? then FileUrl(file) else a.fileUrl)
  {
    a.(title := OrElse(form.title, a.title),
       content := OrElse(form.content, a.content),
       category := OrElse(form.category, a.category),
       isFeatured := if form.isFeatured.Some? then Flag(form.isFeatured) else a.isFeatured,
       isUrgent := if form.isUrgent.Some? then Flag(form.isUrgent) else a.isUrgent,
       fileUrl := if file.Some? then FileUrl(file) else a.fileUrl)
  }

  /** An update with no fields and no file changes nothing. */
  lemma EmptyUpdateKeepsRow(a: Announcement)
    ensures ApplyUpdate(a, AnnouncementForm(None, None, None, None, None), None) == a
  {
  }

  /** Sending the same update twice has the effect of sending it once. */
  lemma UpdateIdempotent(a: Announcement, form: AnnouncementForm, file: Option<UploadedFile>)
    ensures ApplyUpdate(ApplyUpdate(a, form, file), form, file) == ApplyUpdate(a, form, file)
  {
  }

  /** `PUT /announcements/:id`. An unknown id is the ORM's not-found error. */
  method UpdateAnnouncement(db: Database, id: Id, form: AnnouncementForm, file: Option<UploadedFile>)
    returns (out: Reply<Announcement>)
    requires db.Valid()
    modifies db
    ensures db.Valid()
    ensures out.Ok? <==> HasKey(old(db.announcements), AnnouncementId, id)
    ensures out.Err? ==> out == Err(500, UpdateFailed) && unchanged(db)
    ensures out.Ok? ==>
      var k := IndexOfKey(old(db.announcements), AnnouncementId, id).value;
      var a := ApplyUpdate(old(db.announcements)[k], form, file);
      && out == Ok(200, a)
      && db.Snapshot() == old(db.Snapshot()).(announcements := old(db.announcements)[k := a])
  {
    var found := IndexOfKey(db.announcements, AnnouncementId, id);
    if found.None? {
      return Err(500, UpdateFailed);
    }
    var k := found.value;
    var a := ApplyUpdate(db.announcements[k], form, file);
    ReplaceAnnouncementKeepsConsistent(db.Snapshot(), k, a);
    db.announcements := db.announcements[k := a];
    out := Ok(200, a);
  }

  /** `DELETE /announcements/:id`: removes the one row with that id. */
  method DeleteAnnouncement(db: Database, id: Id) returns (out: Reply<()>)
    requires db.Valid()
    modifies db
    ensures db.Valid()
    ensures out.Ok? <==> HasKey(old(db.announcements), AnnouncementId, id)
    ensures out.Err? ==> out == Err(500, DeleteFailed) && unchanged(db)
    ensures out.Ok? ==>
      && out.status == 200
      && db.Snapshot() == old(db.Snapshot()).(announcements := Without(old(db.announcements), AnnouncementId, id))
      && |db.announcements| == |old(db.announcements)| - 1
  {
    var found := IndexOfKey(db.announcements, AnnouncementId, id);
    if found.None? {
      return Err(500, DeleteFailed);
    }
    DeleteAnnouncementKeepsConsistent(db.Snapshot(), id);
    WithoutCount(db.announcements, AnnouncementId, id);
    db.announcements := Without(db.announcements, AnnouncementId, id);
    out := Ok(200, ());
  }

  /** `POST /timetables`; `levelValue` is `parseInt(level)`. */
  method CreateTimetable(db: Database, form: TimetableForm, levelValue: Option<int>, file: Option<UploadedFile>, now: int)
    returns (out: Reply<Timetable>)
    requires db.Valid()
    modifies db
    ensures db.Valid()
    ensures !(Truthy(form.title) && Truthy(form.level) && Truthy(form.semester) && file.Some?) ==>
      out == Err(400, TimetableFieldsRequired)
    ensures (Truthy(form.title) && Truthy(form.level) && Truthy(form.semester) && file.Some?
             && levelValue.None?) ==> out == Err(500, TimetableUploadFailed)
    ensures out.Ok? <==> (Truthy(form.title) && Truthy(form.level) && Truthy(form.semester) && file.Some?
                          && levelValue.Some?)
    ensures out.Err? ==> unchanged(db)
    ensures out.Ok? ==>
      var t := out.body;
      && out.status == 201
      && t == Timetable(old(db.nextId), form.title.value, levelValue.value, form.semester.value, UploadPath(file.value), now)
      && db.Snapshot() == old(db.Snapshot()).(timetables := old(db.timetables) + [t], nextId := old(db.nextId) + 1)
  {
    if !(Truthy(form.title) && Truthy(form.level) && Truthy(form.semester) && file.Some?) {
      return Err(400, TimetableFieldsRequired);
    }
    if levelValue.None? {
      // parseInt gave NaN, which the ORM refuses for an integer column.
      return Err(500, TimetableUploadFailed);
    }
    var t := Timetable(db.nextId, form.title.value, levelValue.value, form.semester.value, UploadPath(file.value), now);
    AddTimetableKeepsConsistent(db.Snapshot(), t);
    db.timetables := db.timetables + [t];
    db.nextId := db.nextId + 1;
    out := Ok(201, t);
  }

  /** `GET /timetables/:level`: every timetable of that level, newest first. */
  function TimetablesByLevel(timetables: seq<Timetable>, levelValue: Option<int>): (r: Reply<seq<Timetable>>)
    ensures levelValue.None? <==> r == Err(500, TimetablesFetchFailed)
    ensures r.Ok? <==> levelValue.Some?
    ensures r.Ok? ==> r.status == 200
    ensures r.Ok? ==> forall t :: t in r.body <==> t in timetables && t.level == levelValue.value
    ensures r.Ok? ==> forall t: Timetable :: t.level == levelValue.value ==> multiset(r.body)[t] == multiset(timetables)[t]
    ensures r.Ok? ==> NewestFirst(r.body, TimetableCreatedAt)
  {
    match levelValue
    case None => Err(500, TimetablesFetchFailed)
    case Some(level) => Ok(200, FindMany(timetables, (t: Timetable) => t.level == level, TimetableCreatedAt))
  }

  /** `POST /events`; `dateValue` is `new Date(date)`. */
  method CreateEvent(db: Database, form: EventForm, dateValue: Option<int>, file: Option<UploadedFile>, now: int)
    returns (out: Reply<Event>)
    requires db.Valid()
    modifies db
    ensures db.Valid()
    ensures !(Truthy(form.title) && Truthy(form.description) && Truthy(form.date) && Truthy(form.venue)) ==>
      out == Err(400, EventFieldsRequired)
    ensures (Truthy(form.title) && Truthy(form.description) && Truthy(form.date) && Truthy(form.venue)
             && dateValue.None?) ==> out == Err(500, EventCreateFailed)
    ensures out.Ok? <==> (Truthy(form.title) && Truthy(form.description) && Truthy(form.date) && Truthy(form.venue)
                          && dateValue.Some?)
    ensures out.Err? ==> unchanged(db)
    ensures out.Ok? ==>
      var e := out.body;
      && out.status == 201
      && e == Event(old(db.nextId), form.title.value, form.description.value, dateValue.value, form.venue.value, FileUrl(file), now)
      && db.Snapshot() == old(db.Snapshot()).(events := old(db.events) + [e], nextId := old(db.nextId) + 1)
  {
    if !(Truthy(form.title) && Truthy(form.description) && Truthy(form.date) && Truthy(form.venue)) {
      return Err(400, EventFieldsRequired);
    }
    if dateValue.None? {
      // new Date(date) is an Invalid Date, which the ORM refuses.
      return Err(500, EventCreateFailed);
    }
    var e := Event(db.nextId, form.title.value, form.description.value, dateValue.value, form.venue.value, FileUrl(file), now);
    AddEventKeepsConsistent(db.Snapshot(), e);
    db.events := db.events + [e];
    db.nextId := db.nextId + 1;
    out := Ok(201, e);
  }

  /** `parseInt(level) || 100`: NaN and 0 both give the default level. */
  function ResultLevel(levelValue: Option<int>): (r: int)
    ensures r != 0
    ensures levelValue.Some? && levelValue.value != 0 ==> r == levelValue.value
    ensures levelValue.None? || levelValue.value == 0 ==> r == DefaultLevel
  {
    if levelValue.Some? && levelValue.value != 0 then levelValue.value else DefaultLevel
  }

  /** `POST /results`; `levelValue` is `parseInt(level)`. */
  method CreateResult(db: Database, form: ResultForm, levelValue: Option<int>, now: int) returns (out: Reply<ResultEntry>)
    requires db.Valid()
    modifies db
    ensures db.Valid()
    ensures out.Ok? <==> form.studentId.Some? && Truthy(form.courseCode) && Truthy(form.courseTitle) && Truthy(form.grade)
    ensures out.Err? ==> out == Err(400, ResultFieldsRequired) && unchanged(db)
    ensures out.Ok? ==>
      var x := out.body;
      && out.status == 201
      && x == ResultEntry(old(db.nextId), form.studentId.value, form.courseCode.value, form.courseTitle.value,
                          form.grade.value, OrElse(form.semester, DefaultSemester), OrElse(form.session, DefaultSession),
                          ResultLevel(levelValue), now)
      && db.Snapshot() == old(db.Snapshot()).(results := old(db.results) + [x], nextId := old(db.nextId) + 1)
  {
    if !(form.studentId.Some? && Truthy(form.courseCode) && Truthy(form.courseTitle) && Truthy(form.grade)) {
      return Err(400, ResultFieldsRequired);
    }
    var x := ResultEntry(db.nextId, form.studentId.value, form.courseCode.value, form.courseTitle.value,
                         form.grade.value, OrElse(form.semester, DefaultSemester), OrElse(form.session, DefaultSession),
                         ResultLevel(levelValue), now);
    AddResultKeepsConsistent(db.Snapshot(), x);
    db.results := db.results + [x];
    db.nextId := db.nextId + 1;
    out := Ok(201, x);
  }
}
