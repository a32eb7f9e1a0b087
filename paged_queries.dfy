/** The list queries of the user repositories (`findAll` in the resident,
    service and analyst repositories): the status filter, the items query
    built from a Pageable, and the page assembled from the per-document steps
    of the loop. */
module PagedQueries {
  import opened Common
  import opened Paging
  import opened Firebase

  function StatusNames(ss: seq<UserStatus>): (r: seq<string>)
    ensures |r| == |ss|
    ensures forall i :: 0 <= i < |ss| ==> r[i] == StatusName(ss[i])
  {
    if ss == [] then [] else [StatusName(ss[0])] + StatusNames(ss[1..])
  }

  /** `whereIn("status", names)` when a status list is given, else the whole
      collection. */
  function StatusFilter(statuses: Option<seq<UserStatus>>): Filter {
    if statuses.Some? then FieldIn("status", StatusNames(statuses.value)) else AllDocs
  }

  /** The items query: ordered by "status" when filtering, else by the
      Pageable's sort field (null makes `orderBy` throw), then offset and
      limit from the Pageable. */
  function ItemsQuery(statuses: Option<seq<UserStatus>>, p: Pageable): (r: Result<Query>)
    ensures r.Err? <==> statuses.None? && p.sortBy.None?
    ensures r.Ok? ==> r.value.offset == Offset(p) as int && r.value.limit == p.size as int
    ensures r.Ok? ==> r.value.filter == StatusFilter(statuses)
    ensures r.Ok? && statuses.Some? ==> r.value.ordering == ByField("status", p.sortDirection)
    ensures r.Ok? && statuses.None? ==> r.value.ordering == ByField(p.sortBy.value, p.sortDirection)
  {
    if statuses.Some? then
      Ok(Query(StatusFilter(statuses), ByField("status", p.sortDirection), Offset(p) as int, p.size as int))
    else if p.sortBy.None? then Err(NullPointer)
    else Ok(Query(AllDocs, ByField(p.sortBy.value, p.sortDirection), Offset(p) as int, p.size as int))
  }

  /** The page a list method returns: the items of the loop, the count and
      the page count; any exception, in the queries or in the loop, yields the
      items gathered so far with zero totals. */
  function Listing<T>(p: Pageable, total: Result<nat>, steps: Result<seq<Step<T>>>): PagedResult<T>
    requires Clamped(p)
  {
    if total.Err? || steps.Err? then PagedResult([], p.page as int, 0, 0)
    else
      var c := Collect(steps.value);
      if c.error.Some? then PagedResult(c.items, p.page as int, 0, 0)
      else PagedResult(c.items, p.page as int, total.value, CeilDiv(total.value, p.size as int))
  }

  /** The page is the requested one; with no exception the totals are the
      count and its ceiling division by the page size; after an exception
      they are zero; every item came from a kept document, and a page never
      holds more items than documents. */
  lemma {:induction false} ListingFacts<T>(p: Pageable, total: Result<nat>, steps: Result<seq<Step<T>>>)
    requires Clamped(p)
    ensures Listing(p, total, steps).currentPage == p.page as int
    ensures total.Ok? && steps.Ok? && Collect(steps.value).error.None? ==>
              Listing(p, total, steps).totalItems == total.value
              && Listing(p, total, steps).totalPages == CeilDiv(total.value, p.size as int)
    ensures total.Err? || steps.Err? || Collect(steps.value).error.Some? ==>
              Listing(p, total, steps).totalItems == 0 && Listing(p, total, steps).totalPages == 0
    ensures steps.Ok? ==> |Listing(p, total, steps).items| <= |steps.value|
    ensures steps.Ok? ==> forall x :: x in Listing(p, total, steps).items ==> Keep(x) in steps.value
    ensures steps.Err? || total.Err? ==> Listing(p, total, steps).items == []
  {
    if steps.Ok? {
      CollectBounds(steps.value);
    }
  }

  /** The ids of the requested page of a user collection: the items query
      run against the collection. */
  function PageIds(store: Backend, c: CollectionName, statuses: Option<seq<UserStatus>>, p: Pageable): (r: Result<seq<Uid>>)
    reads store
    ensures r.Ok? ==> |r.value| <= p.size as int
    ensures r.Ok? ==> forall id :: id in r.value ==> id in store.Coll(c) && Matches(store.Coll(c)[id], StatusFilter(statuses))
  {
    var q :- ItemsQuery(statuses, p);
    store.RunQuery(c, q)
  }

  /** The totals of a listing against the query's real results. The ordered
      query returns each matching document that holds the sort field exactly
      once, and the pages 0 .. totalPages - 1, one after another, return
      exactly those. The count never falls short of them, and matches them
      exactly when every matching document holds the sort field. */
  lemma {:induction false} ListingPagesCover(store: Backend, c: CollectionName, filter: Filter, ordering: Ordering, size: nat)
    requires size >= 1 && Count(store.Coll(c), filter).Ok?
    ensures var sel := Select(store.Coll(c), filter);
            var ids := store.Ordered(c, filter, ordering);
            var total := Count(store.Coll(c), filter).value;
            Enumerates(ids, Sortable(sel, ordering).Keys)
            && Pages(ids, size, 0, CeilDiv(total, size)) == ids
            && |ids| <= total
            && (|ids| == total <==> forall id :: id in sel ==> ordering.ById? || ordering.field in sel[id])
  {
    var sel := Select(store.Coll(c), filter);
    var ids := store.Ordered(c, filter, ordering);
    var total := Count(store.Coll(c), filter).value;
    SortableCount(sel, ordering);
    CeilDivIsLeast(|ids|, size, CeilDiv(total, size));
    PagesPastEnd(ids, size, CeilDiv(total, size));
  }

  /** An ordering keeps at most the matching documents, and all of them
      exactly when each holds the field it sorts on. */
  lemma SortableCount(sel: map<Uid, Doc>, ordering: Ordering)
    ensures |Sortable(sel, ordering).Keys| <= |sel.Keys|
    ensures |Sortable(sel, ordering).Keys| == |sel.Keys| <==>
              forall id :: id in sel ==> ordering.ById? || ordering.field in sel[id]
  {
    var sortable := Sortable(sel, ordering);
    SubsetCard(sortable.Keys, sel.Keys);
    if exists id :: id in sel && !(ordering.ById? || ordering.field in sel[id]) {
      var id :| id in sel && !(ordering.ById? || ordering.field in sel[id]);
      SubsetCard(sortable.Keys, sel.Keys - {id});
      assert |sel.Keys - {id}| == |sel.Keys| - 1;
    } else {
      assert sortable.Keys == sel.Keys;
    }
  }

  /** A status-filtered listing is ordered by "status", which every matching
      document holds, so its count is exactly what its pages return. */
  lemma StatusListingIsExact(coll: map<Uid, Doc>, statuses: seq<UserStatus>, direction: Direction)
    ensures var sel := Select(coll, StatusFilter(Some(statuses)));
            Sortable(sel, ByField("status", direction)) == sel
  {
    var sel := Select(coll, StatusFilter(Some(statuses)));
    assert Sortable(sel, ByField("status", direction)).Keys == sel.Keys;
  }
}
