/**
  The product modal (`ProductModal`): where a menu item is configured with a
  quantity, a selection of modifications and free-text instructions, priced,
  and turned into the candidate line handed to the cart engine.
 */
module ProductModal {
  import opened Seqs
  import opened Catalog
  import Cart

  /** The modifications every item is offered; each costs 0.50. */
  const AvailableModifications: seq<Modification> := [
    Modification(1, "Extra Cheese", 50),
    Modification(2, "Spicy Sauce", 50),
    Modification(3, "Gluten-Free Option", 50)
  ]

  /** The modal's state: the chosen quantity, the selected modification ids in click order, the instructions. */
  datatype ModalState = ModalState(quantity: int, selected: seq<int>, instructions: string)

  /** The state the modal opens with. */
  const Opened := ModalState(1, [], "")

  // ---------------------------------------------------------------------------
  // Quantity and modification selection
  // ---------------------------------------------------------------------------

  /** `decreaseQuantity`: one less, but never below 1. */
  function DecreaseQuantity(q: int): (r: int)
    ensures q >= 1 ==> r >= 1
    ensures r == q - 1 <==> q > 1
    ensures r == q <==> q <= 1
  {
    if q > 1 then q - 1 else q
  }

  /** `increaseQuantity`: exactly one more; a decrease undoes it. */
  function IncreaseQuantity(q: int): (r: int)
    ensures r == q + 1
    ensures q >= 1 ==> DecreaseQuantity(r) == q
  {
    q + 1
  }

  /** `toggleModification`: drop the id when selected, otherwise append it. */
  function ToggleModification(selected: seq<int>, modId: int): (r: seq<int>)
    ensures modId in r <==> modId !in selected
    ensures forall x :: x != modId ==> (x in r <==> x in selected)
    ensures NoDup(selected) ==> NoDup(r)
  {
    if modId in selected then
      FilterNoDupWhenDistinct(selected, modId);
      Filter(selected, (x: int) => x != modId)
    else selected + [modId]
  }

  lemma FilterNoDupWhenDistinct(selected: seq<int>, modId: int)
    ensures NoDup(selected) ==> NoDup(Filter(selected, (x: int) => x != modId))
  {
    if NoDup(selected) {
      FilterNoDup(selected, (x: int) => x != modId);
    }
  }

  /** Toggling the same id twice restores the selection as a set, and exactly when it started unselected. */
  lemma ToggleTwice(selected: seq<int>, modId: int)
    ensures forall x :: x in ToggleModification(ToggleModification(selected, modId), modId) <==> x in selected
    ensures modId !in selected ==>
      ToggleModification(ToggleModification(selected, modId), modId) == selected
  {
    if modId !in selected {
      var p := (x: int) => x != modId;
      FilterAppend(selected, [modId], p);
      assert Filter([modId], p) == [];
      assert forall i :: 0 <= i < |selected| ==> p(selected[i]);
    }
  }

  /** The user's actions inside the modal. */
  datatype ModalEvent = Increase | Decrease | Toggle(modId: int) | EditInstructions(text: string)

  function Apply(s: ModalState, e: ModalEvent): ModalState {
    match e
    case Increase => s.(quantity := IncreaseQuantity(s.quantity))
    case Decrease => s.(quantity := DecreaseQuantity(s.quantity))
    case Toggle(id) => s.(selected := ToggleModification(s.selected, id))
    case EditInstructions(text) => s.(instructions := text)
  }

  function Run(s: ModalState, events: seq<ModalEvent>): ModalState
    decreases |events|
  {
    if |events| == 0 then s else Run(Apply(s, events[0]), events[1..])
  }

  /** What every state of an opened modal satisfies. */
  predicate Consistent(s: ModalState) {
    s.quantity >= 1 && NoDup(s.selected)
  }

  /** Whatever the customer does, the quantity stays at least 1 and no modification is selected twice. */
  lemma {:induction false} RunKeepsConsistent(s: ModalState, events: seq<ModalEvent>)
    requires Consistent(s)
    ensures Consistent(Run(s, events))
    decreases |events|
  {
    if |events| > 0 {
      RunKeepsConsistent(Apply(s, events[0]), events[1..]);
    }
  }

  lemma OpenedIsConsistent()
    ensures Consistent(Opened)
  {
  }

  // ---------------------------------------------------------------------------
  // Pricing and the candidate line
  // ---------------------------------------------------------------------------

  /** `availableModifications.find((m) => m.id === modId)`, priced; an unknown id costs 0. */
  function CatalogPrice(catalog: seq<Modification>, modId: int): int {
    if |catalog| == 0 then 0
    else if catalog[0].id == modId then catalog[0].price
    else CatalogPrice(catalog[1..], modId)
  }

  /** The `reduce` over the selected ids in `calculateTotalPrice`. */
  function SelectedPrice(catalog: seq<Modification>, selected: seq<int>): int {
    if |selected| == 0 then 0
    else SelectedPrice(catalog, selected[..|selected| - 1]) + CatalogPrice(catalog, selected[|selected| - 1])
  }

  /** `calculateTotalPrice()`: base price times quantity plus the selected modifications times quantity, in cents. */
  function CalculateTotalPrice(item: MenuItem, s: ModalState): int {
    item.price * s.quantity + SelectedPrice(AvailableModifications, s.selected) * s.quantity
  }

  /** The catalogue entries whose ids are selected, in catalogue order. */
  function SelectMods(catalog: seq<Modification>, selected: seq<int>): seq<Modification> {
    Filter(catalog, (m: Modification) => m.id in selected)
  }

  /** `handleAddToCart`: the candidate line handed to the cart. */
  function BuildCandidate(item: MenuItem, s: ModalState): (c: Cart.LineItem)
    ensures c.id == item.id && c.name == item.name && c.category == item.category && c.price == item.price
    ensures c.quantity == s.quantity && c.instructions == s.instructions
    ensures forall m :: m in c.modifications <==> m in AvailableModifications && m.id in s.selected
    ensures IsSubseq(c.modifications, AvailableModifications)
    ensures c.totalPrice == CalculateTotalPrice(item, s)
  {
    Cart.LineItem(
      item.id, item.name, item.category, item.price, s.quantity,
      SelectMods(AvailableModifications, s.selected), s.instructions,
      CalculateTotalPrice(item, s))
  }

  lemma {:induction false} CatalogPriceAbsent(catalog: seq<Modification>, modId: int)
    requires modId !in ModIds(catalog)
    ensures CatalogPrice(catalog, modId) == 0
  {
    if |catalog| > 0 {
      assert ModIds(catalog)[0] == catalog[0].id;
      assert forall i :: 0 <= i < |catalog| - 1 ==> ModIds(catalog[1..])[i] == ModIds(catalog)[i + 1];
      CatalogPriceAbsent(catalog[1..], modId);
    }
  }

  /** Prepending a catalogue entry adds its price once for every time its id is selected. */
  lemma {:induction false} SelectedPriceCons(m: Modification, rest: seq<Modification>, selected: seq<int>)
    requires m.id !in ModIds(rest)
    ensures SelectedPrice([m] + rest, selected) == SelectedPrice(rest, selected) + Count(selected, m.id) * m.price
  {
    if |selected| > 0 {
      var init, x := selected[..|selected| - 1], selected[|selected| - 1];
      SelectedPriceCons(m, rest, init);
      assert ([m] + rest)[1..] == rest;
      if x == m.id {
        CatalogPriceAbsent(rest, x);
      }
    }
  }

  /** Dropping the first entry of a catalogue with distinct ids leaves distinct ids, none of them the first's. */
  lemma DistinctTail(catalog: seq<Modification>)
    requires |catalog| > 0 && NoDup(ModIds(catalog))
    ensures NoDup(ModIds(catalog[1..]))
    ensures catalog[0].id !in ModIds(catalog[1..])
  {
    var ids, rest := ModIds(catalog), ModIds(catalog[1..]);
    assert forall i :: 0 <= i < |rest| ==> rest[i] == ids[i + 1];
    forall i, j | 0 <= i < j < |rest| ensures rest[i] != rest[j] {
      assert ids[i + 1] != ids[j + 1];
    }
    forall i | 0 <= i < |rest| ensures rest[i] != catalog[0].id {
      assert ids[0] != ids[i + 1];
    }
  }

  lemma SelectModsCons(m: Modification, rest: seq<Modification>, selected: seq<int>)
    ensures SelectMods([m] + rest, selected) ==
      (if m.id in selected then [m] else []) + SelectMods(rest, selected)
  {
    FilterAppend([m], rest, (x: Modification) => x.id in selected);
  }

  lemma ModsTotalCons(m: Modification, rest: seq<Modification>)
    ensures ModsTotal([m] + rest) == m.price + ModsTotal(rest)
  {
    SumByConcat([m], rest, ModPrice);
    assert [m] == [] + [m];
    SumByAppend([], m, ModPrice);
  }

  lemma {:induction false} SelectedPriceEmptyCatalog(selected: seq<int>)
    ensures SelectedPrice([], selected) == 0
  {
    if |selected| > 0 {
      SelectedPriceEmptyCatalog(selected[..|selected| - 1]);
    }
  }

  /**
    With no id selected twice, the price the modal shows for the selection is
    the price of the modifications the candidate carries.
   */
  lemma {:induction false} SelectedPriceMatchesSelection(catalog: seq<Modification>, selected: seq<int>)
    requires NoDup(ModIds(catalog))
    requires NoDup(selected)
    ensures SelectedPrice(catalog, selected) == ModsTotal(SelectMods(catalog, selected))
  {
    if |catalog| == 0 {
      SelectedPriceEmptyCatalog(selected);
    } else {
      var m, rest := catalog[0], catalog[1..];
      assert catalog == [m] + rest;
      DistinctTail(catalog);
      SelectedPriceCons(m, rest, selected);
      CountNoDup(selected, m.id);
      SelectedPriceMatchesSelection(rest, selected);
      SelectModsCons(m, rest, selected);
      if m.id in selected {
        ModsTotalCons(m, SelectMods(rest, selected));
      } else {
        assert SelectMods(catalog, selected) == SelectMods(rest, selected);
      }
    }
  }

  lemma CatalogIdsDistinct()
    ensures NoDup(ModIds(AvailableModifications))
  {
    assert ModIds(AvailableModifications) == [1, 2, 3];
  }

  lemma Distribute(a: int, b: int, q: int)
    ensures a * q + b * q == (a + b) * q
  {
  }

  /** Every candidate from a consistent modal is priced at (base + modifications) × quantity. */
  lemma CandidatePriced(item: MenuItem, s: ModalState)
    requires Consistent(s)
    ensures Cart.Priced(BuildCandidate(item, s))
  {
    var c := BuildCandidate(item, s);
    SelectionPriceIsModsTotal(s.selected);
    PricedFromParts(c, SelectedPrice(AvailableModifications, s.selected));
  }

  /** A line charging its base price and `extra` per piece is priced when `extra` is its modifications' total. */
  lemma PricedFromParts(c: Cart.LineItem, extra: int)
    requires c.quantity >= 1 && ModsTotal(c.modifications) == extra
    requires c.totalPrice == c.price * c.quantity + extra * c.quantity
    ensures Cart.Priced(c)
  {
    Distribute(c.price, extra, c.quantity);
  }

  /** What the modal charges for the selection is the total of the modifications it puts on the line. */
  lemma SelectionPriceIsModsTotal(selected: seq<int>)
    requires NoDup(selected)
    ensures SelectedPrice(AvailableModifications, selected) == ModsTotal(SelectMods(AvailableModifications, selected))
  {
    CatalogIdsDistinct();
    SelectedPriceMatchesSelection(AvailableModifications, selected);
  }

  lemma {:induction false} UniformTotal(mods: seq<Modification>, price: int)
    requires forall i :: 0 <= i < |mods| ==> mods[i].price == price
    ensures ModsTotal(mods) == price * |mods|
  {
    if |mods| > 0 {
      UniformTotal(mods[..|mods| - 1], price);
    }
  }

  lemma ChosenAreFlat(selected: seq<int>)
    ensures var chosen := SelectMods(AvailableModifications, selected);
      forall i :: 0 <= i < |chosen| ==> chosen[i].price == 50
  {
    var chosen := SelectMods(AvailableModifications, selected);
    forall i | 0 <= i < |chosen| ensures chosen[i].price == 50 {
      assert chosen[i] in AvailableModifications;
    }
  }

  /** With every modification at 0.50, the total is (price + 0.50·k) × quantity for the k modifications picked. */
  lemma FlatModificationPrice(item: MenuItem, s: ModalState, k: int)
    requires NoDup(s.selected)
    requires k == |SelectMods(AvailableModifications, s.selected)|
    ensures CalculateTotalPrice(item, s) == (item.price + 50 * k) * s.quantity
  {
    SelectedIsFlat(s.selected);
    TotalFromSelectedPrice(item, s, k);
  }

  lemma TotalFromSelectedPrice(item: MenuItem, s: ModalState, k: int)
    requires SelectedPrice(AvailableModifications, s.selected) == 50 * k
    ensures CalculateTotalPrice(item, s) == (item.price + 50 * k) * s.quantity
  {
    Distribute(item.price, SelectedPrice(AvailableModifications, s.selected), s.quantity);
  }

  /** Every offered modification costs 0.50, so the selection adds 0.50 for each modification it picks. */
  lemma SelectedIsFlat(selected: seq<int>)
    requires NoDup(selected)
    ensures SelectedPrice(AvailableModifications, selected) == 50 * |SelectMods(AvailableModifications, selected)|
  {
    var chosen := SelectMods(AvailableModifications, selected);
    CatalogIdsDistinct();
    SelectedPriceMatchesSelection(AvailableModifications, selected);
    ChosenAreFlat(selected);
    UniformTotal(chosen, 50);
  }

  // ---------------------------------------------------------------------------
  // Candidates carry catalogue modifications
  // ---------------------------------------------------------------------------

  /** The modifications are exactly the catalogue entries with their ids, in catalogue order. */
  predicate FromCatalog(mods: seq<Modification>) {
    mods == SelectMods(AvailableModifications, ModIds(mods))
  }

  lemma SelectionIdsAgree(catalog: seq<Modification>, selected: seq<int>, x: Modification)
    requires x in catalog
    ensures x.id in selected <==> x.id in ModIds(SelectMods(catalog, selected))
  {
    var chosen := SelectMods(catalog, selected);
    if x.id in selected {
      assert x in chosen;
      var i :| 0 <= i < |chosen| && chosen[i] == x;
      assert ModIds(chosen)[i] == x.id;
    }
    if x.id in ModIds(chosen) {
      var i :| 0 <= i < |chosen| && ModIds(chosen)[i] == x.id;
      assert chosen[i] in chosen;
    }
  }

  /** Every candidate's modifications come from the catalogue. */
  lemma CandidateFromCatalog(item: MenuItem, s: ModalState)
    ensures FromCatalog(BuildCandidate(item, s).modifications)
  {
    var chosen := SelectMods(AvailableModifications, s.selected);
    forall x | x in AvailableModifications
      ensures (x.id in s.selected) == (x.id in ModIds(chosen))
    {
      SelectionIdsAgree(AvailableModifications, s.selected, x);
    }
    FilterExt(AvailableModifications,
      (m: Modification) => m.id in s.selected,
      (m: Modification) => m.id in ModIds(chosen));
  }

  /** Catalogue modifications with the same multiset of ids are the same modifications, at the same price. */
  lemma SameIdsSameMods(a: seq<Modification>, b: seq<Modification>)
    requires FromCatalog(a) && FromCatalog(b)
    requires multiset(ModIds(a)) == multiset(ModIds(b))
    ensures a == b
    ensures ModsTotal(a) == ModsTotal(b)
  {
    forall x | x in AvailableModifications
      ensures (x.id in ModIds(a)) == (x.id in ModIds(b))
    {
      assert x.id in ModIds(a) <==> x.id in multiset(ModIds(a));
      assert x.id in ModIds(b) <==> x.id in multiset(ModIds(b));
    }
    FilterExt(AvailableModifications,
      (m: Modification) => m.id in ModIds(a),
      (m: Modification) => m.id in ModIds(b));
  }
}
