/**
  The admin dashboard (`AdminDashboard`): the filtered item table, adding
  an item under a fresh id, replacing, deleting (after a confirmation) and
  enabling or disabling items by id, and the item form's price field and
  modification list.
 */
module AdminDashboard {
  import opened Seqs
  import opened Catalog
  import opened Text
  import Homepage

  // ---------------------------------------------------------------------------
  // The filtered table
  // ---------------------------------------------------------------------------

  predicate InCategory(category: string, item: MenuItem) {
    category == Homepage.AllCategories || item.category == category
  }

  /** The search of the admin table: the lower-cased query in the name or in the description. */
  predicate MatchesQuery(query: string, item: MenuItem) {
    Contains(ToLower(item.name), ToLower(query)) || Contains(ToLower(item.description), ToLower(query))
  }

  function InCategoryBy(category: string): MenuItem -> bool {
    item => InCategory(category, item)
  }

  function MatchesQueryBy(query: string): MenuItem -> bool {
    item => MatchesQuery(query, item)
  }

  /**
    The filter effect: the category filter unless the tab is "All", then the
    search filter unless the query is empty.
   */
  function AdminFilter(items: seq<MenuItem>, category: string, query: string): (r: seq<MenuItem>)
    ensures forall item :: item in r <==>
      && item in items
      && (category == Homepage.AllCategories || item.category == category)
      && (query == "" || MatchesQuery(query, item))
    ensures IsSubseq(r, items)
  {
    var byCategory := if category != Homepage.AllCategories then Filter(items, InCategoryBy(category)) else items;
    var r := if query != "" then Filter(byCategory, MatchesQueryBy(query)) else byCategory;
    assert IsSubseq(r, items) by {
      if category == Homepage.AllCategories {
        SubseqRefl(items);
      }
      if query == "" {
        SubseqRefl(byCategory);
      }
      SubseqTransitive(r, byCategory, items);
    }
    r
  }

  /** With the "All" tab and no query the table lists every item, in order. */
  lemma UnfilteredShowsEverything(items: seq<MenuItem>)
    ensures AdminFilter(items, Homepage.AllCategories, "") == items
  {
  }

  /**
    The admin search is wider than the customer search: whatever the menu
    page shows for a tab and a query, the admin table shows too.
   */
  lemma CustomerViewWithinAdminView(items: seq<MenuItem>, category: string, query: string)
    ensures forall item :: item in Homepage.FilteredItems(items, category, query) ==>
      item in AdminFilter(items, category, query)
  {
  }

  /** An item matched only through its description is listed for the admin and not for the customer. */
  lemma DescriptionSearchedOnlyByAdmin(items: seq<MenuItem>, category: string, query: string, item: MenuItem)
    requires item in items && InCategory(category, item) && query != ""
    requires !Contains(ToLower(item.name), ToLower(query)) && Contains(ToLower(item.description), ToLower(query))
    ensures item in AdminFilter(items, category, query)
    ensures item !in Homepage.FilteredItems(items, category, query)
  {
  }

  // ---------------------------------------------------------------------------
  // Ids
  // ---------------------------------------------------------------------------

  predicate IdsUnique(items: seq<MenuItem>) {
    forall i, j :: 0 <= i < j < |items| ==> items[i].id != items[j].id
  }

  predicate HasId(items: seq<MenuItem>, id: int) {
    exists i :: 0 <= i < |items| && items[i].id == id
  }

  /** `Math.max(...ids)` on a non-empty list. */
  function MaxId(items: seq<MenuItem>): (r: int)
    requires |items| > 0
    ensures forall i :: 0 <= i < |items| ==> items[i].id <= r
    ensures HasId(items, r)
  {
    if |items| == 1 then items[0].id
    else
      var m := MaxId(items[1..]);
      assert forall i :: 1 <= i < |items| ==> items[i] == items[1..][i - 1];
      if items[0].id >= m then items[0].id else m
  }

  /** A JavaScript number as `Math.max` sees it here: an integer, or `-Infinity`. */
  datatype ExtInt = NegInf | Fin(n: int)

  /** `Math.max(...ids)`: `-Infinity` for no arguments. */
  function MaxIdAsWritten(ids: seq<ExtInt>): (r: ExtInt)
    ensures ids == [] ==> r == NegInf
    ensures forall i :: 0 <= i < |ids| && ids[i].Fin? ==> r.Fin? && ids[i].n <= r.n
  {
    if ids == [] then NegInf
    else
      var m := MaxIdAsWritten(ids[1..]);
      assert forall i :: 1 <= i < |ids| ==> ids[i] == ids[1..][i - 1];
      match (ids[0], m)
      case (NegInf, _) => m
      case (Fin(a), NegInf) => ids[0]
      case (Fin(a), Fin(b)) => if a >= b then ids[0] else m
  }

  /** `+ 1` on such a number: `-Infinity + 1` is `-Infinity`. */
  function Succ(x: ExtInt): ExtInt {
    match x
    case NegInf => NegInf
    case Fin(n) => Fin(n + 1)
  }

  /** The ids of the table after `handleAddItem` as written: the new id is the maximum plus one. */
  function AddIdAsWritten(ids: seq<ExtInt>): (r: seq<ExtInt>)
    ensures |r| == |ids| + 1 && r[..|ids|] == ids
    ensures r[|ids|] == Succ(MaxIdAsWritten(ids))
  {
    ids + [Succ(MaxIdAsWritten(ids))]
  }

  /**
    On a table with at least one item the id as written is fresh. Once every
    item has been deleted it is not: two adds on the empty table give two
    items the same id, `-Infinity`, which is not an integer at all.
   */
  lemma AddIdAsWrittenOnEmptyTable()
    ensures AddIdAsWritten([]) == [NegInf]
    ensures AddIdAsWritten(AddIdAsWritten([])) == [NegInf, NegInf]
  {
    assert MaxIdAsWritten([NegInf]) == NegInf;
  }

  /** The id `handleAddItem` evidently means: one past the largest, and 1 on an empty table. */
  function NewId(items: seq<MenuItem>): (r: int)
    ensures forall i :: 0 <= i < |items| ==> items[i].id < r
    ensures !HasId(items, r)
    ensures |items| > 0 ==> AddIdAsWritten(Map(items, ItemExtId))[|items|] == Fin(r)
  {
    if items == [] then 1
    else
      MaxIdAgrees(items);
      MaxId(items) + 1
  }

  function ItemExtId(item: MenuItem): ExtInt {
    Fin(item.id)
  }

  /** On a non-empty table the as-written maximum is the integer maximum. */
  lemma {:induction false} MaxIdAgrees(items: seq<MenuItem>)
    requires |items| > 0
    ensures MaxIdAsWritten(Map(items, ItemExtId)) == Fin(MaxId(items))
  {
    var ids := Map(items, ItemExtId);
    if |items| > 1 {
      MaxIdAgrees(items[1..]);
      assert ids[1..] == Map(items[1..], ItemExtId);
    } else {
      assert ids[1..] == [];
    }
  }

  /** `handleAddItem(newItem)`: the item goes at the end under a fresh id, with `inCart: false`. */
  function HandleAddItem(items: seq<MenuItem>, newItem: MenuItem): (r: seq<MenuItem>)
    ensures |r| == |items| + 1 && r[..|items|] == items
    ensures r[|items|] == newItem.(id := NewId(items), inCart := Some(false))
    ensures IdsUnique(items) ==> IdsUnique(r)
  {
    items + [newItem.(id := NewId(items), inCart := Some(false))]
  }

  /** `handleEditItem(updated)`: every entry with the same id is replaced; the rest stay. */
  function HandleEditItem(items: seq<MenuItem>, updated: MenuItem): (r: seq<MenuItem>)
    ensures |r| == |items|
    ensures forall i :: 0 <= i < |items| ==>
      r[i] == (if items[i].id == updated.id then updated else items[i])
    ensures forall i :: 0 <= i < |items| ==> r[i].id == items[i].id
  {
    seq(|items|, i requires 0 <= i < |items| => if items[i].id == updated.id then updated else items[i])
  }

  /** Editing keeps the ids, so a table with unique ids keeps them unique. */
  lemma EditKeepsIdsUnique(items: seq<MenuItem>, updated: MenuItem)
    requires IdsUnique(items)
    ensures IdsUnique(HandleEditItem(items, updated))
  {
  }

  /** Saving the same edit twice changes nothing the second time. */
  lemma EditIdempotent(items: seq<MenuItem>, updated: MenuItem)
    ensures HandleEditItem(HandleEditItem(items, updated), updated) == HandleEditItem(items, updated)
  {
  }

  function HasOtherId(id: int): MenuItem -> bool {
    (item: MenuItem) => item.id != id
  }

  /** `handleDeleteItem(id)`, with the answer to the confirmation dialog as `confirmed`. */
  function HandleDeleteItem(items: seq<MenuItem>, id: int, confirmed: bool): (r: seq<MenuItem>)
    ensures !confirmed ==> r == items
    ensures confirmed ==> forall item :: item in r <==> item in items && item.id != id
    ensures confirmed ==> forall item :: multiset(r)[item] == if item.id != id then multiset(items)[item] else 0
    ensures confirmed ==> !HasId(r, id)
    ensures IsSubseq(r, items)
  {
    SubseqRefl(items);
    FilterCount(items, HasOtherId(id));
    if confirmed then Filter(items, HasOtherId(id)) else items
  }

  /** Deleting an item right after adding it gives the table back. */
  lemma DeleteUndoesAdd(items: seq<MenuItem>, newItem: MenuItem)
    ensures HandleDeleteItem(HandleAddItem(items, newItem), NewId(items), true) == items
  {
    var added := newItem.(id := NewId(items), inCart := Some(false));
    assert HandleAddItem(items, newItem) == items + [added];
    FilterDropsOnlyAt(items + [added], HasOtherId(NewId(items)), |items|);
    assert (items + [added])[..|items|] == items;
  }

  // ---------------------------------------------------------------------------
  // Availability
  // ---------------------------------------------------------------------------

  /** The status cell: `item.available !== false`, so an item without the field shows "Available". */
  predicate DisplaysAvailable(item: MenuItem) {
    item.available != Some(false)
  }

  /** JavaScript `!x` on the `available` field: `!undefined` is `true`. */
  function Not(x: Option<bool>): bool {
    match x
    case None => true
    case Some(b) => !b
  }

  /** `toggleAvailability(id)` as written: `available: !item.available` on the matching entries. */
  function ToggleAvailabilityAsWritten(items: seq<MenuItem>, id: int): (r: seq<MenuItem>)
    ensures |r| == |items|
    ensures forall i :: 0 <= i < |items| ==>
      r[i] == (if items[i].id == id then items[i].(available := Some(Not(items[i].available))) else items[i])
  {
    seq(|items|, i requires 0 <= i < |items| =>
      if items[i].id == id then items[i].(available := Some(Not(items[i].available))) else items[i])
  }

  /**
    An item from the static menu has no `available` field: it shows
    "Available" and a "Disable" button, and pressing it stores `true`, so it
    still shows "Available".
   */
  lemma ToggleAsWrittenMissesUnsetItem(item: MenuItem)
    requires item.available == None
    ensures DisplaysAvailable(item)
    ensures DisplaysAvailable(ToggleAvailabilityAsWritten([item], item.id)[0])
  {
  }

  /** The evident intent: the entries with the id switch between shown available and shown unavailable. */
  function ToggleAvailability(items: seq<MenuItem>, id: int): (r: seq<MenuItem>)
    ensures |r| == |items|
    ensures forall i :: 0 <= i < |items| && items[i].id == id ==>
      && DisplaysAvailable(r[i]) == !DisplaysAvailable(items[i])
      && r[i] == items[i].(available := r[i].available)
    ensures forall i :: 0 <= i < |items| && items[i].id != id ==> r[i] == items[i]
  {
    seq(|items|, i requires 0 <= i < |items| =>
      if items[i].id == id then items[i].(available := Some(!DisplaysAvailable(items[i]))) else items[i])
  }

  /** Where the field is set, the two versions agree; they differ only on items that lack it. */
  lemma ToggleAgreesWhenSet(items: seq<MenuItem>, id: int)
    requires forall i :: 0 <= i < |items| ==> items[i].available.Some?
    ensures ToggleAvailability(items, id) == ToggleAvailabilityAsWritten(items, id)
  {
  }

  /** Toggling twice shows every item as it was, and restores any item whose field was set. */
  lemma ToggleTwice(items: seq<MenuItem>, id: int)
    ensures var r := ToggleAvailability(ToggleAvailability(items, id), id);
      && |r| == |items|
      && (forall i :: 0 <= i < |items| ==> DisplaysAvailable(r[i]) == DisplaysAvailable(items[i]))
      && (forall i :: 0 <= i < |items| && items[i].available.Some? ==> r[i] == items[i])
  {
    var once := ToggleAvailability(items, id);
    var r := ToggleAvailability(once, id);
    forall i | 0 <= i < |items| && items[i].available.Some? ensures r[i] == items[i] {
      if items[i].id == id {
        assert once[i] == items[i].(available := Some(!items[i].available.value));
      }
    }
  }

  // ---------------------------------------------------------------------------
  // The item form
  // ---------------------------------------------------------------------------

  /** The form's fields this model keeps (image and `popular` are left out). */
  datatype Form = Form(
    id: int,
    name: string,
    price: int,
    description: string,
    category: string,
    available: bool,
    modifications: seq<Modification>)

  /** The draft in the "new modification" inputs. */
  datatype Draft = Draft(name: string, price: int)

  const EmptyDraft := Draft("", 0)

  /** JavaScript `s || fallback` on a string. */
  function OrElse(s: string, fallback: string): string {
    if s != "" then s else fallback
  }

  /** `categories[0]?.name || "Main"` */
  function DefaultCategory(firstCategory: Option<string>): (r: string)
    ensures r != ""
    ensures firstCategory.Some? && firstCategory.value != "" ==> r == firstCategory.value
  {
    if firstCategory.Some? then OrElse(firstCategory.value, "Main") else "Main"
  }

  /**
    The form's initial data: the item's fields, with `||` defaults, and
    `available` true unless the item says `false`. `firstCategory` is the
    name of the first category, if any. A new item starts with no
    modifications; an edited one with its own.
   */
  function OpenForm(item: Option<MenuItem>, firstCategory: Option<string>): (r: Form)
    ensures item.None? ==> r == Form(0, "", 0, "", DefaultCategory(firstCategory), true, [])
    ensures item.Some? ==> r.id == item.value.id && r.name == item.value.name && r.price == item.value.price
    ensures item.Some? ==> r.description == item.value.description
    ensures item.Some? ==> r.modifications == item.value.modifications
    ensures item.Some? ==> r.available == DisplaysAvailable(item.value)
    ensures item.Some? && item.value.category != "" ==> r.category == item.value.category
    ensures r.category != ""
  {
    var fallback := DefaultCategory(firstCategory);
    match item
    case None => Form(0, "", 0, "", fallback, true, [])
    case Some(it) => Form(it.id, it.name, it.price, it.description, OrElse(it.category, fallback),
                          it.available != Some(false), it.modifications)
  }

  /** An item edited in the form without touching the availability checkbox keeps its displayed status. */
  lemma FormKeepsDisplayedStatus(item: MenuItem, firstCategory: Option<string>)
    ensures var f := OpenForm(Some(item), firstCategory);
      DisplaysAvailable(Submit(f)) == DisplaysAvailable(item)
  {
  }

  /**
    Opening an item and saving the form untouched gives the item back, up to
    the normalisations the form applies: a blank category is filled in,
    `available` is made explicit, and `inCart` is not carried.
   */
  lemma EditFormRoundTrip(item: MenuItem, firstCategory: Option<string>)
    ensures Submit(OpenForm(Some(item), firstCategory)) ==
      item.(category := OrElse(item.category, DefaultCategory(firstCategory)),
            available := Some(DisplaysAvailable(item)),
            inCart := None)
    ensures Submit(OpenForm(Some(item), firstCategory)).modifications == item.modifications
  {
  }

  /** `handleSubmit`: the record handed to the dashboard. */
  function Submit(f: Form): (r: MenuItem)
    ensures r.id == f.id && r.name == f.name && r.price == f.price
    ensures r.category == f.category && r.description == f.description
    ensures r.modifications == f.modifications
    ensures r.available == Some(f.available) && DisplaysAvailable(r) == f.available
    ensures r.inCart.None?
  {
    MenuItem(f.id, f.name, f.price, f.category, f.description, Some(f.available), None, f.modifications)
  }

  /** `handlePriceChange`: the parsed number, or 0 when the input does not parse. */
  function HandlePriceChange(f: Form, parsed: Option<int>): (r: Form)
    ensures parsed.None? ==> r.price == 0
    ensures parsed.Some? ==> r.price == parsed.value
    ensures r == f.(price := r.price)
  {
    f.(price := if parsed.Some? then parsed.value else 0)
  }

  /**
    What the price box does to the saved item: an entry that does not parse
    saves the price 0, one that does saves that price, and nothing else about
    the saved item changes.
   */
  lemma PriceEntryReachesSavedItem(f: Form, parsed: Option<int>)
    ensures parsed.None? ==> Submit(HandlePriceChange(f, parsed)).price == 0
    ensures parsed.Some? ==> Submit(HandlePriceChange(f, parsed)).price == parsed.value
    ensures Submit(HandlePriceChange(f, parsed)) == Submit(f).(price := HandlePriceChange(f, parsed).price)
  {
  }

  /**
    `handleAddModification`, with `Date.now()` as `now`: a draft whose name is
    blank after trimming is ignored; otherwise it is appended under the id
    `now` and the draft is cleared.
   */
  function HandleAddModification(f: Form, draft: Draft, now: int): (r: (Form, Draft))
    ensures Trim(draft.name) == "" ==> r == (f, draft)
    ensures Trim(draft.name) != "" ==>
      r == (f.(modifications := f.modifications + [Modification(now, draft.name, draft.price)]), EmptyDraft)
  {
    if Trim(draft.name) == "" then (f, draft)
    else (f.(modifications := f.modifications + [Modification(now, draft.name, draft.price)]), EmptyDraft)
  }

  /** A draft is added exactly when its name has a non-space character. */
  lemma AddModificationIffNotBlank(f: Form, draft: Draft, now: int)
    ensures |HandleAddModification(f, draft, now).0.modifications| == |f.modifications| + 1
      <==> !AllSpace(draft.name)
  {
    TrimEmptyIffAllSpace(draft.name);
  }

  function HasOtherModId(id: int): Modification -> bool {
    (m: Modification) => m.id != id
  }

  /** `handleRemoveModification(id)`: every modification with the id is dropped, the rest keep their order. */
  function HandleRemoveModification(f: Form, id: int): (r: Form)
    ensures forall m :: m in r.modifications <==> m in f.modifications && m.id != id
    ensures forall m :: multiset(r.modifications)[m] == if m.id != id then multiset(f.modifications)[m] else 0
    ensures IsSubseq(r.modifications, f.modifications)
    ensures r == f.(modifications := r.modifications)
  {
    FilterCount(f.modifications, HasOtherModId(id));
    f.(modifications := Filter(f.modifications, HasOtherModId(id)))
  }

  /** Removing a modification just added under a fresh id gives the list back. */
  lemma RemoveUndoesAdd(f: Form, draft: Draft, now: int)
    requires Trim(draft.name) != ""
    requires forall i :: 0 <= i < |f.modifications| ==> f.modifications[i].id != now
    ensures HandleRemoveModification(HandleAddModification(f, draft, now).0, now) == f
  {
    var p := HasOtherModId(now);
    var added := Modification(now, draft.name, draft.price);
    FilterAppend(f.modifications, [added], p);
    FilterCons([added], p);
    assert Filter(f.modifications, p) == f.modifications;
  }
}
