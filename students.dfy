/** The student routes: the upload filter for profile pictures, the profile
    read and update, the profile picture update, the results list, archiving
    and un-archiving announcements, the archive list, and the timetable for
    the student's own level. `me` is the id the authentication middleware put
    on the request. */
module Students {
  import opened Seqs
  import opened Schema
  import opened Store

  /** The columns the profile update selects. */
  datatype ProfileView = ProfileView(
    id: Id,
    name: string,
    email: string,
    matricNumber: Option<string>,
    department: Option<string>,
    studentType: Option<string>,
    level: Option<int>,
    phone: Option<string>,
    profileImage: Option<string>)

  /** The columns the profile read selects: the same, and the creation time. */
  datatype StoredProfile = StoredProfile(profile: ProfileView, createdAt: int)

  /** The columns the picture update selects. */
  datatype PictureView = PictureView(id: Id, name: string, profileImage: Option<string>)

  /** The body of `PUT /profile`. */
  datatype ProfileForm = ProfileForm(name: Option<string>, email: Option<string>, phone: Option<string>)

  /** The reply to `POST /archives/:announcementId`: the new archive row and
      the announcement it points to. */
  datatype ArchiveBody = ArchiveBody(archive: Archive, announcement: Announcement)

  const NotAnImage := "Something went wrong!"
  const NameAndEmailRequired := "Name and email are required"
  const EmailExists := "Email already exists"
  const ProfileUpdateFailed := "Failed to update profile"
  const NoImage := "No image file provided"
  const PictureUpdateFailed := "Failed to update profile picture"
  const AnnouncementNotFound := "Announcement not found"
  const AlreadyArchived := "Announcement already archived"
  const RemoveFailed := "Failed to remove from archive"
  const LevelNotFound := "Student level not found"
  const NoTimetableForLevel := "Timetable not found for your level"

  /** The upload middleware's `fileFilter`: only image MIME types pass. */
  predicate FileFilter(mimetype: string) {
    StartsWith(mimetype, "image/")
  }

  /** The filter accepts exactly the MIME types whose first six characters
      are `image/`. */
  lemma FileFilterExact(mimetype: string)
    ensures FileFilter(mimetype) <==> |mimetype| >= 6 && mimetype[..6] == "image/"
    ensures FileFilter("image/png") && FileFilter("image/") && !FileFilter("application/pdf") && !FileFilter("image")
  {
    assert "image/png"[..6] == "image/";
    assert "application/pdf"[..6][0] != "image/"[0];
  }

  /** The profile columns the `select` of the profile routes returns. */
  function ProfileOf(u: User): (p: ProfileView)
    ensures p.id == u.id && p.email == u.email && p.profileImage == u.profileImage
  {
    ProfileView(u.id, u.name, u.email, u.matricNumber, u.department, u.studentType, u.level, u.phone, u.profileImage)
  }

  /** `GET /profile`. */
  function GetProfile(users: seq<User>, me: Id): (r: Reply<StoredProfile>)
    ensures r.Err? <==> forall u :: u in users ==> u.id != me
    ensures r.Err? ==> r == Err(404, "Student not found")
    ensures r.Ok? ==> r.status == 200 && exists u :: u in users && u.id == me && r.body == StoredProfile(ProfileOf(u), u.createdAt)
  {
    match FindUser(users, me)
    case None => Err(404, "Student not found")
    case Some(u) => Ok(200, StoredProfile(ProfileOf(u), u.createdAt))
  }

  /** Some user other than `me` already has this email. */
  ghost predicate EmailTakenByOther(users: seq<User>, me: Id, email: string) {
    exists u :: u in users && u.id != me && u.email == email
  }

  /** `PUT /profile`. A missing row is the ORM's not-found error (500); an
      email another user has is the unique-constraint error. */
  method UpdateProfile(db: Database, me: Id, form: ProfileForm) returns (out: Reply<ProfileView>)
    requires db.Valid()
    modifies db
    ensures db.Valid()
    ensures !(Truthy(form.name) && Truthy(form.email)) ==> out == Err(400, NameAndEmailRequired)
    ensures Truthy(form.name) && Truthy(form.email) && !HasKey(old(db.users), UserId, me) ==>
      out == Err(500, ProfileUpdateFailed)
    ensures (Truthy(form.name) && Truthy(form.email) && HasKey(old(db.users), UserId, me)
             && EmailTakenByOther(old(db.users), me, form.email.value)) ==> out == Err(400, EmailExists)
    ensures out.Ok? <==> (Truthy(form.name) && Truthy(form.email) && HasKey(old(db.users), UserId, me)
                          && !EmailTakenByOther(old(db.users), me, form.email.value))
    ensures out.Err? ==> unchanged(db)
    ensures out.Ok? ==>
      var k := IndexOfKey(old(db.users), UserId, me).value;
      var u := old(db.users)[k].(name := form.name.value, email := form.email.value, phone := OrNull(form.phone));
      && out == Ok(200, ProfileOf(u))
      && db.Snapshot() == old(db.Snapshot()).(users := old(db.users)[k := u])
  {
    if !(Truthy(form.name) && Truthy(form.email)) {
      return Err(400, NameAndEmailRequired);
    }
    var found := IndexOfKey(db.users, UserId, me);
    if found.None? {
      return Err(500, ProfileUpdateFailed);
    }
    var k := found.value;
    var clash := FindFirst(db.users, (v: User) => v.id != me && v.email == form.email.value);
    if clash.Some? {
      return Err(400, EmailExists);
    }
    var u := db.users[k].(name := form.name.value, email := form.email.value, phone := OrNull(form.phone));
    forall i | 0 <= i < |db.users| && i != k ensures db.users[i].email != u.email {
      assert db.users[i] in db.users;
      assert UserId(db.users[i]) != UserId(db.users[k]);
    }
    ReplaceUserKeepsConsistent(db.Snapshot(), k, u);
    db.users := db.users[k := u];
    out := Ok(200, ProfileOf(u));
  }

  /** `PUT /profile/picture`. The upload middleware runs first: a file its
      filter refuses is passed to the application's error handler. */
  method UpdatePicture(db: Database, me: Id, file: Option<UploadedFile>) returns (out: Reply<PictureView>)
    requires db.Valid()
    modifies db
    ensures db.Valid()
    ensures file.Some? && !FileFilter(file.value.mimetype) ==> out == Err(500, NotAnImage)
    ensures file.None? ==> out == Err(400, NoImage)
    ensures file.Some? && FileFilter(file.value.mimetype) && !HasKey(old(db.users), UserId, me) ==>
      out == Err(500, PictureUpdateFailed)
    ensures out.Ok? <==> file.Some? && FileFilter(file.value.mimetype) && HasKey(old(db.users), UserId, me)
    ensures out.Err? ==> unchanged(db)
    ensures out.Ok? ==>
      var k := IndexOfKey(old(db.users), UserId, me).value;
      var u := old(db.users)[k].(profileImage := Some(UploadPath(file.value)));
      && out == Ok(200, PictureView(u.id, u.name, u.profileImage))
      && db.Snapshot() == old(db.Snapshot()).(users := old(db.users)[k := u])
  {
    if file.Some? && !FileFilter(file.value.mimetype) {
      return Err(500, NotAnImage);
    }
    if file.None? {
      return Err(400, NoImage);
    }
    var found := IndexOfKey(db.users, UserId, me);
    if found.None? {
      return Err(500, PictureUpdateFailed);
    }
    var k := found.value;
    var u := db.users[k].(profileImage := Some(UploadPath(file.value)));
    forall i | 0 <= i < |db.users| && i != k ensures db.users[i].email != u.email {
      assert UserEmail(db.users[i]) != UserEmail(db.users[k]);
    }
    ReplaceUserKeepsConsistent(db.Snapshot(), k, u);
    db.users := db.users[k := u];
    out := Ok(200, PictureView(u.id, u.name, u.profileImage));
  }

  /** `GET /results`: the caller's results, newest first. */
  function ListResults(results: seq<ResultEntry>, me: Id): (r: seq<ResultEntry>)
    ensures forall x :: x in r <==> x in results && x.studentId == me
    ensures forall x: ResultEntry :: x.studentId == me ==> multiset(r)[x] == multiset(results)[x]
    ensures NewestFirst(r, ResultCreatedAt)
  {
    FindMany(results, (x: ResultEntry) => x.studentId == me, ResultCreatedAt)
  }

  /** Some archive already links this student and this announcement. */
  ghost predicate IsArchived(archives: seq<Archive>, student: Id, announcement: Id) {
    exists a :: a in archives && a.studentId == student && a.announcementId == announcement
  }

  /** `POST /archives/:announcementId`. `now` stamps `archivedAt`. */
  method ArchiveAnnouncement(db: Database, me: Id, announcementId: Id, now: int) returns (out: Reply<ArchiveBody>)
    requires db.Valid()
    modifies db
    ensures db.Valid()
    ensures !HasKey(old(db.announcements), AnnouncementId, announcementId) ==> out == Err(404, AnnouncementNotFound)
    ensures (HasKey(old(db.announcements), AnnouncementId, announcementId)
             && IsArchived(old(db.archives), me, announcementId)) ==> out == Err(400, AlreadyArchived)
    ensures out.Ok? <==> (HasKey(old(db.announcements), AnnouncementId, announcementId)
                          && !IsArchived(old(db.archives), me, announcementId))
    ensures out.Err? ==> unchanged(db)
    ensures out.Ok? ==>
      var a := Archive(old(db.nextId), me, announcementId, now);
      && out.status == 200 && out.body.archive == a
      && out.body.announcement in old(db.announcements) && out.body.announcement.id == announcementId
      && db.Snapshot() == old(db.Snapshot()).(archives := old(db.archives) + [a], nextId := old(db.nextId) + 1)
  {
    var announcement := FindFirst(db.announcements, (x: Announcement) => x.id == announcementId);
    if announcement.None? {
      assert !HasKey(db.announcements, AnnouncementId, announcementId) by {
        forall i | 0 <= i < |db.announcements| ensures db.announcements[i].id != announcementId {
          assert db.announcements[i] in db.announcements;
        }
      }
      return Err(404, AnnouncementNotFound);
    }
    assert HasKey(db.announcements, AnnouncementId, announcementId) by {
      var i :| 0 <= i < |db.announcements| && db.announcements[i] == announcement.value;
    }
    var existing := FindFirst(db.archives, (x: Archive) => x.studentId == me && x.announcementId == announcementId);
    if existing.Some? {
      return Err(400, AlreadyArchived);
    }
    var a := Archive(db.nextId, me, announcementId, now);
    AddArchiveKeepsConsistent(db.Snapshot(), a);
    db.archives := db.archives + [a];
    db.nextId := db.nextId + 1;
    out := Ok(200, ArchiveBody(a, announcement.value));
  }

  /** `GET /archives`: the caller's archives, most recently archived first. */
  function ListArchives(archives: seq<Archive>, me: Id): (r: seq<Archive>)
    ensures forall x :: x in r <==> x in archives && x.studentId == me
    ensures forall x: Archive :: x.studentId == me ==> multiset(r)[x] == multiset(archives)[x]
    ensures NewestFirst(r, ArchivedAt)
  {
    FindMany(archives, (x: Archive) => x.studentId == me, ArchivedAt)
  }

  /** `DELETE /archives/:archiveId`. No check that the archive belongs to the
      caller is made. */
  method RemoveArchive(db: Database, archiveId: Id) returns (out: Reply<()>)
    requires db.Valid()
    modifies db
    ensures db.Valid()
    ensures out.Ok? <==> HasKey(old(db.archives), ArchiveId, archiveId)
    ensures out.Err? ==> out == Err(500, RemoveFailed) && unchanged(db)
    ensures out.Ok? ==>
      && out.status == 200
      && db.Snapshot() == old(db.Snapshot()).(archives := Without(old(db.archives), ArchiveId, archiveId))
      && |db.archives| == |old(db.archives)| - 1
  {
    var found := IndexOfKey(db.archives, ArchiveId, archiveId);
    if found.None? {
      return Err(500, RemoveFailed);
    }
    DeleteArchiveKeepsConsistent(db.Snapshot(), archiveId);
    WithoutCount(db.archives, ArchiveId, archiveId);
    db.archives := Without(db.archives, ArchiveId, archiveId);
    out := Ok(200, ());
  }

  /** The caller's level, when the caller exists and the level is truthy. */
  function KnownLevel(users: seq<User>, me: Id): (r: Option<int>)
    ensures r.Some? <==> exists u :: u in users && u.id == me && u.level.Some? && u.level.value != 0 && FindUser(users, me) == Some(u)
    ensures r.Some? ==> r.value != 0
    ensures r.Some? ==> FindUser(users, me).Some? && FindUser(users, me).value.level == r
  {
    match FindUser(users, me)
    case Some(u) => if u.level.Some? && u.level.value != 0 then u.level else None
    case None => None
  }

  /** `GET /timetable`: the newest timetable for the caller's level, in any
      semester. */
  function MyTimetable(users: seq<User>, timetables: seq<Timetable>, me: Id): (r: Reply<Timetable>)
    ensures KnownLevel(users, me).None? <==> r == Err(400, LevelNotFound)
    ensures r == Err(404, NoTimetableForLevel) <==>
      KnownLevel(users, me).Some? && forall t :: t in timetables ==> t.level != KnownLevel(users, me).value
    ensures r.Ok? ==>
      && r.status == 200
      && r.body in timetables && r.body.level == KnownLevel(users, me).value
      && forall t :: t in timetables && t.level == r.body.level ==> t.createdAt <= r.body.createdAt
    ensures r.Ok? <==> KnownLevel(users, me).Some? && exists t :: t in timetables && t.level == KnownLevel(users, me).value
  {
    match KnownLevel(users, me)
    case None => Err(400, LevelNotFound)
    case Some(level) =>
      match Newest(Filter(timetables, (t: Timetable) => t.level == level), TimetableCreatedAt)
      case None => Err(404, NoTimetableForLevel)
      case Some(t) => Ok(200, t)
  }
}
