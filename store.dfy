/** The relational store: one table per entity, the integrity the database
    enforces on them (primary keys, the unique email and matric number of a
    user, the unique (student, announcement) pair of an archive), and a class
    holding the tables that the request handlers update in place. */
module Store {
  import opened Seqs
  import opened Schema

  /** The contents of all tables at one moment, and the next unused id. */
  datatype Tables = Tables(
    users: seq<User>,
    announcements: seq<Announcement>,
    archives: seq<Archive>,
    timetables: seq<Timetable>,
    results: seq<ResultEntry>,
    events: seq<Event>,
    nextId: nat)

  /** No two users share a matric number; users without one (admins) are
      exempt. */
  ghost predicate MatricsUnique(users: seq<User>) {
    forall i, j :: 0 <= i < |users| && 0 <= j < |users| && i != j && users[i].matricNumber.Some? ==>
      users[i].matricNumber != users[j].matricNumber
  }

  /** Every table's primary key is unique and below the id counter. */
  ghost predicate IdsFresh(t: Tables) {
    && KeysUnique(t.users, UserId) && KeysBelow(t.users, UserId, t.nextId)
    && KeysUnique(t.announcements, AnnouncementId) && KeysBelow(t.announcements, AnnouncementId, t.nextId)
    && KeysUnique(t.archives, ArchiveId) && KeysBelow(t.archives, ArchiveId, t.nextId)
    && KeysUnique(t.timetables, TimetableId) && KeysBelow(t.timetables, TimetableId, t.nextId)
    && KeysUnique(t.results, ResultId) && KeysBelow(t.results, ResultId, t.nextId)
    && KeysUnique(t.events, EventId) && KeysBelow(t.events, EventId, t.nextId)
  }

  /** The integrity constraints of the schema. */
  ghost predicate Consistent(t: Tables) {
    && IdsFresh(t)
    && KeysUnique(t.users, UserEmail)
    && MatricsUnique(t.users)
    && KeysUnique(t.archives, ArchivePair)
  }

  /** `user.findUnique({ where: { id } })`. */
  function FindUser(users: seq<User>, id: Id): (r: Option<User>)
    ensures r.Some? ==> r.value in users && r.value.id == id
    ensures r.None? <==> forall u :: u in users ==> u.id != id
  {
    FindFirst(users, (u: User) => u.id == id)
  }

  /** A student whose email and matric number no user has yet can be added
      without breaking either uniqueness constraint. */
  lemma AddUserKeepsConsistent(t: Tables, u: User)
    requires Consistent(t) && u.id == t.nextId
    requires forall v :: v in t.users ==> v.email != u.email && (u.matricNumber.Some? ==> v.matricNumber != u.matricNumber)
    ensures Consistent(t.(users := t.users + [u], nextId := t.nextId + 1))
  {
  }

  /** Replacing a user's row by one with the same id, the same matric number,
      and an email no other user has keeps the table consistent. */
  lemma ReplaceUserKeepsConsistent(t: Tables, k: nat, u: User)
    requires Consistent(t) && k < |t.users|
    requires u.id == t.users[k].id && u.matricNumber == t.users[k].matricNumber
    requires forall i :: 0 <= i < |t.users| && i != k ==> t.users[i].email != u.email
    ensures Consistent(t.(users := t.users[k := u]))
  {
    var s := t.users[k := u];
    ReplaceUnique(t.users, UserId, k, u);
    forall x | x in s ensures UserId(x) < t.nextId {
      var i :| 0 <= i < |s| && s[i] == x;
      assert i != k ==> s[i] == t.users[i];
      assert t.users[i] in t.users;
    }
    forall i, j | 0 <= i < |s| && 0 <= j < |s| && i != j ensures s[i].email != s[j].email {
      if i != k && j != k {
        assert s[i] == t.users[i] && s[j] == t.users[j];
      }
    }
    assert KeysUnique(s, UserEmail);
  }

  /** Archiving a (student, announcement) pair not yet archived keeps pairs
      unique. */
  lemma AddArchiveKeepsConsistent(t: Tables, a: Archive)
    requires Consistent(t) && a.id == t.nextId
    requires forall b :: b in t.archives ==> (b.studentId, b.announcementId) != (a.studentId, a.announcementId)
    ensures Consistent(t.(archives := t.archives + [a], nextId := t.nextId + 1))
  {
  }

  /** New announcements, timetables, results and events take the next id. */
  lemma AddAnnouncementKeepsConsistent(t: Tables, a: Announcement)
    requires Consistent(t) && a.id == t.nextId
    ensures Consistent(t.(announcements := t.announcements + [a], nextId := t.nextId + 1))
  {
  }

  lemma AddTimetableKeepsConsistent(t: Tables, x: Timetable)
    requires Consistent(t) && x.id == t.nextId
    ensures Consistent(t.(timetables := t.timetables + [x], nextId := t.nextId + 1))
  {
  }

  lemma AddResultKeepsConsistent(t: Tables, x: ResultEntry)
    requires Consistent(t) && x.id == t.nextId
    ensures Consistent(t.(results := t.results + [x], nextId := t.nextId + 1))
  {
  }

  lemma AddEventKeepsConsistent(t: Tables, x: Event)
    requires Consistent(t) && x.id == t.nextId
    ensures Consistent(t.(events := t.events + [x], nextId := t.nextId + 1))
  {
  }

  /** Rewriting an announcement in place, keeping its id, keeps the table
      consistent. */
  lemma ReplaceAnnouncementKeepsConsistent(t: Tables, k: nat, a: Announcement)
    requires Consistent(t) && k < |t.announcements| && a.id == t.announcements[k].id
    ensures Consistent(t.(announcements := t.announcements[k := a]))
  {
    var s := t.announcements[k := a];
    ReplaceUnique(t.announcements, AnnouncementId, k, a);
    forall x | x in s ensures AnnouncementId(x) < t.nextId {
      var i :| 0 <= i < |s| && s[i] == x;
      assert t.announcements[i] in t.announcements;
    }
  }

  /** Deleting an announcement by id keeps the table consistent. */
  lemma DeleteAnnouncementKeepsConsistent(t: Tables, id: Id)
    requires Consistent(t)
    ensures Consistent(t.(announcements := Without(t.announcements, AnnouncementId, id)))
  {
    WithoutUnique(t.announcements, AnnouncementId, id);
  }

  /** Deleting an archive by id keeps ids and (student, announcement) pairs
      unique. */
  lemma DeleteArchiveKeepsConsistent(t: Tables, id: Id)
    requires Consistent(t)
    ensures Consistent(t.(archives := Without(t.archives, ArchiveId, id)))
  {
    WithoutUnique(t.archives, ArchiveId, id);
    var w := Without(t.archives, ArchiveId, id);
    forall i, j | 0 <= i < |w| && 0 <= j < |w| && i != j ensures ArchivePair(w[i]) != ArchivePair(w[j]) {
      assert w[i] in t.archives && w[j] in t.archives;
      var a :| 0 <= a < |t.archives| && t.archives[a] == w[i];
      var b :| 0 <= b < |t.archives| && t.archives[b] == w[j];
      assert a != b by {
        assert ArchiveId(w[i]) != ArchiveId(w[j]);
      }
    }
  }

  /** The tables the handlers read and write. Each handler changes them only
      when it succeeds. */
  class Database {
    var users: seq<User>
    var announcements: seq<Announcement>
    var archives: seq<Archive>
    var timetables: seq<Timetable>
    var results: seq<ResultEntry>
    var events: seq<Event>
    var nextId: nat

    function Snapshot(): (t: Tables)
      reads this
    {
      Tables(users, announcements, archives, timetables, results, events, nextId)
    }

    ghost predicate Valid()
      reads this
    {
      Consistent(Snapshot())
    }

    /** An empty database. */
    constructor ()
      ensures Valid()
      ensures Snapshot() == Tables([], [], [], [], [], [], 0)
    {
      users, announcements, archives, timetables, results, events := [], [], [], [], [], [];
      nextId := 0;
    }
  }
}
