/** The public announcement routes: the filtered list, the featured list for
    the home page, and one announcement by id. All of them only read. */
module Announcements {
  import opened Seqs
  import opened Schema

  /** The query string of `GET /`; `None` is a parameter that is not given. */
  datatype Query = Query(search: Option<string>, category: Option<string>, featured: Option<string>, urgent: Option<string>)

  /** The ORM `where` object the handler builds: each part is present only when
      its query parameter asked for it. */
  datatype Where = Where(search: Option<string>, category: Option<string>, isFeatured: Option<bool>, isUrgent: Option<bool>)

  const FeaturedLimit := 5
  const NotFound := "Announcement not found"

  /** ASCII lower-casing, the case folding of `mode: 'insensitive'`. */
  function LowerChar(c: char): char {
    if 'A' <= c <= 'Z' then (c as int + 32) as char else c
  }

  function Lower(s: string): (r: string)
    ensures |r| == |s| && forall i :: 0 <= i < |s| ==> r[i] == LowerChar(s[i])
  {
    seq(|s|, i requires 0 <= i < |s| => LowerChar(s[i]))
  }

  /** `term` occurs in `text` as a contiguous substring. */
  predicate Contains(text: string, term: string) {
    exists i :: 0 <= i <= |text| - |term| && OccursAt(text, term, i)
  }

  /** `term` occurs in `text` starting at position `i`. */
  predicate OccursAt(text: string, term: string, i: int) {
    0 <= i <= |text| - |term| && text[i..i + |term|] == term
  }

  /** `{ contains: term, mode: 'insensitive' }`. */
  predicate ContainsInsensitive(text: string, term: string) {
    Contains(Lower(text), Lower(term))
  }

  /** The handler's conditional assignments to `where`. */
  function BuildWhere(q: Query): (w: Where)
    ensures w.search.Some? <==> Truthy(q.search)
    ensures w.category.Some? <==> Truthy(q.category)
    ensures w.isFeatured.Some? <==> q.featured.Some?
    ensures w.isUrgent.Some? <==> q.urgent.Some?
    ensures w.search.Some? ==> w.search == q.search
    ensures w.category.Some? ==> w.category == q.category
    ensures w.isFeatured.Some? ==> w.isFeatured.value == (q.featured.value == "true")
    ensures w.isUrgent.Some? ==> w.isUrgent.value == (q.urgent.value == "true")
  {
    Where(if Truthy(q.search) then q.search else None,
          if Truthy(q.category) then q.category else None,
          if q.featured.Some? then Some(q.featured.value == "true") else None,
          if q.urgent.Some? then Some(q.urgent.value == "true") else None)
  }

  /** How the ORM evaluates a `where` object against one row. */
  predicate Satisfies(w: Where, a: Announcement) {
    && (w.search.Some? ==> ContainsInsensitive(a.title, w.search.value) || ContainsInsensitive(a.content, w.search.value))
    && (w.category.Some? ==> a.category == w.category.value)
    && (w.isFeatured.Some? ==> a.isFeatured == w.isFeatured.value)
    && (w.isUrgent.Some? ==> a.isUrgent == w.isUrgent.value)
  }

  /** What the query asks for, stated on the query parameters themselves:
      every filter that is given holds. */
  ghost predicate Selected(q: Query, a: Announcement) {
    && (Truthy(q.search) ==> ContainsInsensitive(a.title, q.search.value) || ContainsInsensitive(a.content, q.search.value))
    && (Truthy(q.category) ==> a.category == q.category.value)
    && (q.featured.Some? ==> a.isFeatured == (q.featured.value == "true"))
    && (q.urgent.Some? ==> a.isUrgent == (q.urgent.value == "true"))
  }

  /** `GET /`: the announcements passing every given filter, newest first. */
  function ListAnnouncements(table: seq<Announcement>, q: Query): (r: seq<Announcement>)
    ensures forall a :: a in r <==> a in table && Selected(q, a)
    ensures forall a :: Selected(q, a) ==> multiset(r)[a] == multiset(table)[a]
    ensures NewestFirst(r, AnnouncementCreatedAt)
  {
    var w := BuildWhere(q);
    assert forall a :: Satisfies(w, a) <==> Selected(q, a);
    FindMany(table, (a: Announcement) => Satisfies(w, a), AnnouncementCreatedAt)
  }

  /** With no query parameters the list holds every announcement, newest
      first. */
  lemma {:induction false} NoFilterListsAll(table: seq<Announcement>)
    ensures multiset(ListAnnouncements(table, Query(None, None, None, None))) == multiset(table)
  {
  }

  /** Dropping any one filter can only widen the list: the filters combine
      by conjunction. */
  lemma FiltersNarrow(table: seq<Announcement>, q: Query)
    ensures forall a :: a in ListAnnouncements(table, q) ==> a in ListAnnouncements(table, q.(search := None))
    ensures forall a :: a in ListAnnouncements(table, q) ==> a in ListAnnouncements(table, q.(category := None))
    ensures forall a :: a in ListAnnouncements(table, q) ==> a in ListAnnouncements(table, q.(featured := None))
    ensures forall a :: a in ListAnnouncements(table, q) ==> a in ListAnnouncements(table, q.(urgent := None))
  {
    forall a | a in ListAnnouncements(table, q) ensures a in ListAnnouncements(table, q.(search := None)) {
      assert Selected(q.(search := None), a);
    }
    forall a | a in ListAnnouncements(table, q) ensures a in ListAnnouncements(table, q.(category := None)) {
      assert Selected(q.(category := None), a);
    }
    forall a | a in ListAnnouncements(table, q) ensures a in ListAnnouncements(table, q.(featured := None)) {
      assert Selected(q.(featured := None), a);
    }
    forall a | a in ListAnnouncements(table, q) ensures a in ListAnnouncements(table, q.(urgent := None)) {
      assert Selected(q.(urgent := None), a);
    }
  }

  /** Featured or urgent: the home page's `OR` filter. */
  predicate Highlighted(a: Announcement) {
    a.isFeatured || a.isUrgent
  }

  /** `GET /featured`: the five newest featured or urgent announcements. */
  function Featured(table: seq<Announcement>): (r: seq<Announcement>)
    ensures |r| <= FeaturedLimit
    ensures forall a :: a in r ==> a in table && Highlighted(a)
    ensures multiset(r) <= multiset(table)
    ensures NewestFirst(r, AnnouncementCreatedAt)
    ensures forall a :: a in table && Highlighted(a) && a !in r ==>
      |r| == FeaturedLimit && forall b :: b in r ==> a.createdAt <= b.createdAt
  {
    var all := FindMany(table, Highlighted, AnnouncementCreatedAt);
    var r := Take(all, FeaturedLimit);
    TakeNewestFirst(all, AnnouncementCreatedAt, FeaturedLimit);
    assert forall a :: a in r ==> a in all;
    TakeSubMultiset(all, FeaturedLimit);
    FindManySubMultiset(table, Highlighted, AnnouncementCreatedAt);
    forall a | a in table && Highlighted(a) && a !in r
      ensures |r| == FeaturedLimit && forall b :: b in r ==> a.createdAt <= b.createdAt
    {
      TakeOmitsOlder(all, AnnouncementCreatedAt, FeaturedLimit, a);
    }
    r
  }

  /** `GET /:id`. */
  function GetAnnouncement(table: seq<Announcement>, id: Id): (r: Reply<Announcement>)
    ensures r.Err? <==> forall a :: a in table ==> a.id != id
    ensures r.Err? ==> r == Err(404, NotFound)
    ensures r.Ok? ==> r.status == 200 && r.body in table && r.body.id == id
  {
    match FindFirst(table, (a: Announcement) => a.id == id)
    case None => Err(404, NotFound)
    case Some(a) => Ok(200, a)
  }

  /** Search ignores ASCII case in both the text and the term. */
  lemma SearchIgnoresCase(text: string, term: string)
    ensures ContainsInsensitive(text, term) <==> ContainsInsensitive(Lower(text), Lower(term))
  {
    assert Lower(Lower(text)) == Lower(text);
    assert Lower(Lower(term)) == Lower(term);
  }
}
