/** The dialog that adds news-item aggregates to a report: paged fetching
    (pages of 20, offset 0 replaces the list), the load-more guard, check-box
    selection, and the items handed back to the report. */
module AddNewsItems {
  import opened Wrappers
  import opened Lists

  /** A news-item aggregate as listed; only its id matters here. */
  datatype Aggregate = Aggregate(id: int, title: string, description: string, created: string)

  datatype Dialog = Dialog(items: seq<Aggregate>, offset: nat, hasMore: bool, loading: bool,
                           loadingMore: bool, failed: bool, selected: set<int>)

  /** The page size `limit`. */
  const Limit: nat := 20

  /** Opening the dialog: the list, the offset and the selection are reset,
      and the first page is requested. */
  function Open(d: Dialog): (r: Dialog)
    ensures r.items == [] && r.offset == 0 && r.selected == {}
    ensures r.loading && !r.failed && r.hasMore == d.hasMore
  {
    StartFetch(d.(items := [], offset := 0, selected := {}), 0)
  }

  /** The start of `fetchItems(offset)`: the first page shows the main
      spinner, any later page the load-more one; the error is cleared. */
  function StartFetch(d: Dialog, offset: nat): (r: Dialog)
    ensures offset == 0 ==> r.loading && r.loadingMore == d.loadingMore
    ensures offset != 0 ==> r.loadingMore && r.loading == d.loading
    ensures !r.failed && r.items == d.items && r.offset == d.offset && r.hasMore == d.hasMore
    ensures r.selected == d.selected
  {
    if offset == 0 then d.(loading := true, failed := false) else d.(loadingMore := true, failed := false)
  }

  /** The end of `fetchItems(offset)`. `page` is the reply's `items`, `None`
      when the member is missing or null (`|| []`); `reply` is `None` when the
      request failed, which leaves list, offset and `hasMore` alone. Both
      spinners stop either way. */
  function FinishFetch(d: Dialog, offset: nat, reply: Option<Option<seq<Aggregate>>>): (r: Dialog)
    ensures !r.loading && !r.loadingMore && r.selected == d.selected
    ensures reply.None? ==> r.failed && r.items == d.items && r.offset == d.offset && r.hasMore == d.hasMore
    ensures reply.Some? ==>
              var page := if reply.value.Some? then reply.value.value else [];
              r.failed == d.failed &&
              (offset == 0 ==> r.items == page) &&
              (offset != 0 ==> r.items == d.items + page) &&
              (r.hasMore <==> |page| == Limit) &&
              r.offset == offset + |page|
  {
    var d' := d.(loading := false, loadingMore := false);
    match reply
    case None => d'.(failed := true)
    case Some(items) =>
      var page := if items.Some? then items.value else [];
      d'.(items := if offset == 0 then page else d.items + page, hasMore := |page| == Limit,
          offset := offset + |page|)
  }

  /** `handleLoadMore`: the offset to fetch, or `None` while a later page is
      loading or when the last page was short. */
  function LoadMore(d: Dialog): (r: Option<nat>)
    ensures r.Some? <==> !d.loadingMore && d.hasMore
    ensures r.Some? ==> r.value == d.offset
  {
    if !d.loadingMore && d.hasMore then Some(d.offset) else None
  }

  /** The offset counts the items listed. */
  ghost predicate Counted(d: Dialog) {
    d.offset == |d.items|
  }

  /** A successful fetch at the dialog's own offset keeps the count. */
  lemma FetchKeepsCount(d: Dialog, items: Option<seq<Aggregate>>)
    requires Counted(d)
    ensures Counted(FinishFetch(StartFetch(d, d.offset), d.offset, Some(items)))
  {
  }

  /** All the pages fetched one after the other. */
  function Concat(pages: seq<seq<Aggregate>>): seq<Aggregate> {
    if |pages| == 0 then [] else Concat(pages[..|pages| - 1]) + pages[|pages| - 1]
  }

  /** Opening the dialog and pressing load-more after every page; `pages`
      are the replies, the first one to the opening request. */
  function Browse(d: Dialog, pages: seq<seq<Aggregate>>): (r: Dialog)
    requires |pages| > 0
    decreases |pages|
  {
    if |pages| == 1 then FinishFetch(Open(d), 0, Some(Some(pages[0])))
    else
      var before := Browse(d, pages[..|pages| - 1]);
      FinishFetch(StartFetch(before, before.offset), before.offset, Some(Some(pages[|pages| - 1])))
  }

  /** While every page but the last is full, load-more stays enabled, each
      request asks for the next offset, the dialog lists every page in the
      order received, and the offset is their total length. */
  lemma {:induction false} BrowseListsEveryPage(d: Dialog, pages: seq<seq<Aggregate>>)
    requires |pages| > 0
    requires forall i :: 0 <= i < |pages| - 1 ==> |pages[i]| == Limit
    ensures var r := Browse(d, pages);
            r.items == Concat(pages) && r.offset == |Concat(pages)| &&
            (r.hasMore <==> |pages[|pages| - 1]| == Limit)
    decreases |pages|
  {
    if |pages| == 1 {
      assert Concat(pages) == Concat([]) + pages[0];
      assert [] + pages[0] == pages[0];
    } else {
      var init := pages[..|pages| - 1];
      BrowseListsEveryPage(d, init);
      assert LoadMore(Browse(d, init)) == Some(|Concat(init)|);
    }
  }

  /** `handleCheckboxChange`. */
  function Check(d: Dialog, id: int): (r: Dialog)
    ensures id in r.selected <==> id !in d.selected
    ensures forall y :: y != id ==> (y in r.selected <==> y in d.selected)
    ensures r.items == d.items
  {
    d.(selected := ToggleSet(d.selected, id))
  }

  function IsSelected(selected: set<int>): Aggregate -> bool {
    (a: Aggregate) => a.id in selected
  }

  /** `handleAddClick`: the listed items whose ids are checked, in list
      order (not in the order they were checked). */
  function ItemsToAdd(d: Dialog): (r: seq<Aggregate>)
    ensures forall a :: a in r <==> a in d.items && a.id in d.selected
    ensures |r| <= |d.items|
  {
    Filter(d.items, IsSelected(d.selected))
  }

  /** The items are added in list order: listing `xs + ys` adds the
      checked items of `xs` and then those of `ys`. */
  lemma ItemsToAddAppend(d: Dialog, xs: seq<Aggregate>, ys: seq<Aggregate>)
    ensures ItemsToAdd(d.(items := xs + ys)) == ItemsToAdd(d.(items := xs)) + ItemsToAdd(d.(items := ys))
  {
    FilterAppend(xs, ys, IsSelected(d.selected));
  }

  /** A single listed item is added exactly when its id is checked. */
  lemma ItemsToAddOfOne(d: Dialog, a: Aggregate)
    ensures ItemsToAdd(d.(items := [a])) == if a.id in d.selected then [a] else []
  {
    FilterSingle(a, IsSelected(d.selected));
  }

  /** Checking a box twice adds nothing and removes nothing. */
  lemma CheckTwiceChangesNothing(d: Dialog, id: int)
    ensures ItemsToAdd(Check(Check(d, id), id)) == ItemsToAdd(d)
  {
    ToggleSetTwice(d.selected, id);
  }

  /** With every listed id checked, the whole list is added, in order. */
  lemma AllCheckedAddsList(d: Dialog)
    requires forall i :: 0 <= i < |d.items| ==> d.items[i].id in d.selected
    ensures ItemsToAdd(d) == d.items
  {
    FilterAll(d.items, IsSelected(d.selected));
  }

  /** The order of the result follows the list: items checked in the
      reverse order still come out in list order. */
  lemma AddedInListOrder(a: Aggregate, b: Aggregate, d: Dialog)
    requires a.id != b.id && d.items == [a, b] && d.selected == {}
    ensures ItemsToAdd(Check(Check(d, b.id), a.id)) == [a, b]
  {
    var r := Check(Check(d, b.id), a.id);
    AllCheckedAddsList(r);
  }
}
