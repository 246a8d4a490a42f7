/** Properties that span several handlers: what one request's change to the
    store means for the answers later requests get. */
module Flows {
  import opened Seqs
  import opened Schema
  import opened Store
  import Students
  import Admin
  import Announcements
  import Timetables

  /** After `PUT /announcements/:id` rewrites row `k`, `GET /:id` serves the
      rewritten row. */
  lemma UpdatedAnnouncementIsServed(table: seq<Announcement>, k: nat, a: Announcement)
    requires KeysUnique(table, AnnouncementId) && k < |table| && a.id == table[k].id
    ensures Announcements.GetAnnouncement(table[k := a], a.id) == Ok(200, a)
  {
    var s := table[k := a];
    var r := Announcements.GetAnnouncement(s, a.id);
    assert s[k] == a;
    var i :| 0 <= i < |s| && s[i] == r.body;
  }

  /** After `DELETE /announcements/:id`, `GET /:id` answers 404 and no list
      shows a row with that id. */
  lemma DeletedAnnouncementIsGone(table: seq<Announcement>, id: Id, q: Announcements.Query)
    ensures Announcements.GetAnnouncement(Without(table, AnnouncementId, id), id) == Err(404, Announcements.NotFound)
    ensures forall a :: a in Announcements.ListAnnouncements(Without(table, AnnouncementId, id), q) ==> a.id != id
    ensures forall a :: a in Announcements.Featured(Without(table, AnnouncementId, id)) ==> a.id != id
  {
  }

  /** A newly created announcement is served by its id and appears in every
      list whose filters it passes. */
  lemma CreatedAnnouncementIsPublished(table: seq<Announcement>, a: Announcement, q: Announcements.Query)
    requires KeysBelow(table, AnnouncementId, a.id)
    ensures Announcements.GetAnnouncement(table + [a], a.id) == Ok(200, a)
    ensures a in Announcements.ListAnnouncements(table + [a], q) <==> Announcements.Selected(q, a)
  {
  }

  /** After `PUT /profile` rewrites the caller's row, `GET /profile` reads
      the new name, email and phone. */
  lemma UpdatedProfileIsRead(users: seq<User>, k: nat, u: User)
    requires KeysUnique(users, UserId) && k < |users| && u.id == users[k].id
    ensures Students.GetProfile(users[k := u], u.id) == Ok(200, Students.StoredProfile(Students.ProfileOf(u), u.createdAt))
  {
    var s := users[k := u];
    var r := Students.GetProfile(s, u.id);
    assert s[k] == u;
    var v :| v in s && v.id == u.id && r.body == Students.StoredProfile(Students.ProfileOf(v), v.createdAt);
    var i :| 0 <= i < |s| && s[i] == v;
  }

  /** An archive just created is in its owner's archive list, and a second
      request to archive the same announcement is refused. */
  lemma ArchivedIsListedOnce(archives: seq<Archive>, a: Archive)
    ensures a in Students.ListArchives(archives + [a], a.studentId)
    ensures Students.IsArchived(archives + [a], a.studentId, a.announcementId)
  {
  }

  /** After `DELETE /archives/:archiveId`, no archive list holds that id. */
  lemma RemovedArchiveIsUnlisted(archives: seq<Archive>, id: Id, me: Id)
    ensures forall x :: x in Students.ListArchives(Without(archives, ArchiveId, id), me) ==> x.id != id
  {
  }

  /** An uploaded result is in its student's result list. */
  lemma UploadedResultIsListed(results: seq<ResultEntry>, x: ResultEntry)
    ensures x in Students.ListResults(results + [x], x.studentId)
  {
  }

  /** The student's own timetable, which ignores the semester, is never older
      than the public first-semester timetable of the same level. */
  lemma OwnTimetableNoOlderThanPublic(users: seq<User>, timetables: seq<Timetable>, me: Id)
    requires Students.KnownLevel(users, me).Some?
    requires Timetables.LatestFirstSemester(timetables, Students.KnownLevel(users, me)).Ok?
    ensures Students.MyTimetable(users, timetables, me).Ok?
    ensures Timetables.LatestFirstSemester(timetables, Students.KnownLevel(users, me)).body.createdAt
            <= Students.MyTimetable(users, timetables, me).body.createdAt
  {
  }

  /** The public lookup's answer is one of the timetables the admin listing
      of that level shows. */
  lemma PublicTimetableIsListed(timetables: seq<Timetable>, level: int)
    requires Timetables.LatestFirstSemester(timetables, Some(level)).Ok?
    ensures Timetables.LatestFirstSemester(timetables, Some(level)).body in Admin.TimetablesByLevel(timetables, Some(level)).body
  {
  }
}
