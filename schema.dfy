/** The rows of the relational schema the handlers read and write, the shape of
    a handler's HTTP reply, the process environment, and the JavaScript
    truthiness test the handlers apply to request fields. */
module Schema {
  import opened Seqs

  /** Row identifiers. The ORM generates them; the model draws them from a
      counter in the store, so every new row gets an unused one. */
  type Id = nat

  datatype Role = Admin | Student

  datatype User = User(
    id: Id,
    name: string,
    email: string,
    matricNumber: Option<string>,
    level: Option<int>,
    password: string,
    studentType: Option<string>,
    role: Role,
    department: Option<string>,
    phone: Option<string>,
    profileImage: Option<string>,
    createdAt: int)

  datatype Announcement = Announcement(
    id: Id,
    title: string,
    content: string,
    category: string,
    isFeatured: bool,
    isUrgent: bool,
    fileUrl: Option<string>,
    authorId: Id,
    createdAt: int)

  datatype Archive = Archive(id: Id, studentId: Id, announcementId: Id, archivedAt: int)

  datatype Timetable = Timetable(id: Id, title: string, level: int, semester: string, fileUrl: string, createdAt: int)

  datatype ResultEntry = ResultEntry(
    id: Id,
    studentId: Id,
    courseCode: string,
    courseTitle: string,
    grade: string,
    semester: string,
    session: string,
    level: int,
    createdAt: int)

  datatype Event = Event(
    id: Id,
    title: string,
    description: string,
    date: int,
    venue: string,
    imageUrl: Option<string>,
    createdAt: int)

  // Keys and timestamps, as function values for the generic table operations.
  function UserId(u: User): Id { u.id }
  function UserEmail(u: User): string { u.email }
  function AnnouncementId(a: Announcement): Id { a.id }
  function AnnouncementCreatedAt(a: Announcement): int { a.createdAt }
  function ArchiveId(a: Archive): Id { a.id }
  function ArchivePair(a: Archive): (Id, Id) { (a.studentId, a.announcementId) }
  function ArchivedAt(a: Archive): int { a.archivedAt }
  function TimetableId(t: Timetable): Id { t.id }
  function TimetableCreatedAt(t: Timetable): int { t.createdAt }
  function ResultId(r: ResultEntry): Id { r.id }
  function ResultCreatedAt(r: ResultEntry): int { r.createdAt }
  function EventId(e: Event): Id { e.id }

  /** A handler's reply: a status code with a JSON payload, or a status code
      with the `error` string of the JSON error body. */
  datatype Reply<+T> = Ok(status: int, body: T) | Err(status: int, error: string)

  /** JavaScript truthiness of a request field: present and not the empty
      string. */
  predicate Truthy(field: Option<string>) {
    field.Some? && field.value != ""
  }

  /** JavaScript `field || fallback` for a string field. */
  function OrElse(field: Option<string>, fallback: string): (r: string)
    ensures Truthy(field) ==> r == field.value
    ensures !Truthy(field) ==> r == fallback
  {
    if Truthy(field) then field.value else fallback
  }

  /** JavaScript `field || null` for an optional column. */
  function OrNull(field: Option<string>): (r: Option<string>)
    ensures r.Some? <==> Truthy(field)
    ensures r.Some? ==> r == field
  {
    if Truthy(field) then field else None
  }

  /** JavaScript `String.prototype.startsWith`. */
  predicate StartsWith(s: string, prefix: string) {
    |prefix| <= |s| && s[..|prefix|] == prefix
  }

  /** A file the upload middleware accepted and stored under `filename`. */
  datatype UploadedFile = UploadedFile(filename: string, mimetype: string)

  /** The public path of a stored upload. */
  function UploadPath(f: UploadedFile): (path: string)
    ensures StartsWith(path, "/uploads/") && path[9..] == f.filename
  {
    "/uploads/" + f.filename
  }

  /** The process environment variables the core reads; `None` is unset. */
  datatype Env = Env(
    databaseUrl: Option<string>,
    jwtSecret: Option<string>,
    nodeEnv: Option<string>,
    port: Option<string>,
    frontendUrl: Option<string>)
}
