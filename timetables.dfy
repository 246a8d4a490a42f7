/** The public timetable lookup: the newest first-semester timetable of one
    level. The level arrives as a route parameter; `levelValue` is what
    `parseInt` makes of it (`None` for NaN). */
module Timetables {
  import opened Seqs
  import opened Schema

  const FirstSemester := "first"
  const NotFoundForLevel := "Timetable not found for this level"
  const FetchFailed := "Failed to fetch timetable"

  /** The `where` of the lookup: the level and the first semester. */
  predicate FirstSemesterOf(level: int, t: Timetable) {
    t.level == level && t.semester == FirstSemester
  }

  /** `GET /:level`. A NaN level makes the ORM query fail. */
  function LatestFirstSemester(table: seq<Timetable>, levelValue: Option<int>): (r: Reply<Timetable>)
    ensures levelValue.None? ==> r == Err(500, FetchFailed)
    ensures levelValue.Some? ==>
      (r.Err? <==> forall t :: t in table ==> !FirstSemesterOf(levelValue.value, t))
    ensures levelValue.Some? && r.Err? ==> r == Err(404, NotFoundForLevel)
    ensures r.Ok? ==>
      && r.status == 200
      && r.body in table
      && r.body.level == levelValue.value && r.body.semester == FirstSemester
      && forall t :: t in table && FirstSemesterOf(levelValue.value, t) ==> t.createdAt <= r.body.createdAt
  {
    match levelValue
    case None => Err(500, FetchFailed)
    case Some(level) =>
      match Newest(Matching(table, level), TimetableCreatedAt)
      case None => Err(404, NotFoundForLevel)
      case Some(t) => Ok(200, t)
  }

  /** The rows the lookup's `where` selects, in table order. */
  function Matching(table: seq<Timetable>, level: int): (r: seq<Timetable>)
    ensures forall t :: t in r <==> t in table && FirstSemesterOf(level, t)
  {
    Filter(table, (t: Timetable) => FirstSemesterOf(level, t))
  }

  /** A row appended to the table joins the selection exactly when it
      matches. */
  lemma MatchingAppend(table: seq<Timetable>, x: Timetable, level: int)
    ensures Matching(table + [x], level) == Matching(table, level) + (if FirstSemesterOf(level, x) then [x] else [])
  {
    FilterAppend(table, x, (t: Timetable) => FirstSemesterOf(level, t));
  }

  /** A first-semester timetable uploaded after every stored one is what the
      lookup for its level returns from then on. */
  lemma NewUploadIsFound(table: seq<Timetable>, x: Timetable)
    requires x.semester == FirstSemester
    requires forall t :: t in table ==> t.createdAt < x.createdAt
    ensures LatestFirstSemester(table + [x], Some(x.level)) == Ok(200, x)
  {
    var r := LatestFirstSemester(table + [x], Some(x.level));
    assert x in table + [x];
    assert r.Ok?;
    assert r.body in table || r.body == x;
  }

  /** Uploading a timetable for another level or another semester leaves the
      lookup's answer as it was. */
  lemma OtherUploadIgnored(table: seq<Timetable>, x: Timetable, level: int)
    requires !FirstSemesterOf(level, x)
    ensures LatestFirstSemester(table + [x], Some(level)) == LatestFirstSemester(table, Some(level))
  {
    MatchingAppend(table, x, level);
    assert Matching(table + [x], level) == Matching(table, level) + [];
    assert Matching(table, level) + [] == Matching(table, level);
  }
}
