/**
  The customer menu (`Homepage`): the items shown for the selected category
  tab and the search box. Search is case-insensitive and looks at the name
  only.
 */
module Homepage {
  import opened Seqs
  import opened Catalog
  import opened Text

  /** The tab that shows every category, and the initial tab. */
  const AllCategories := "All"

  /** `matchesCategory && matchesSearch` for one item. */
  predicate Shown(category: string, query: string, item: MenuItem) {
    && (category == AllCategories || item.category == category)
    && Contains(ToLower(item.name), ToLower(query))
  }

  /** `filteredItems`: the menu items the tab and the query let through, in menu order. */
  function FilteredItems(menu: seq<MenuItem>, category: string, query: string): (r: seq<MenuItem>)
    ensures forall item :: item in r <==>
      && item in menu
      && (category == AllCategories || item.category == category)
      && Contains(ToLower(item.name), ToLower(query))
    ensures IsSubseq(r, menu)
    ensures |r| <= |menu|
  {
    Filter(menu, ShownBy(category, query))
  }

  function ShownBy(category: string, query: string): MenuItem -> bool {
    item => Shown(category, query, item)
  }

  /** The initial state, tab "All" and an empty query, shows the whole menu in order. */
  lemma InitialShowsEverything(menu: seq<MenuItem>)
    ensures FilteredItems(menu, AllCategories, "") == menu
  {
    assert ToLower("") == "";
    forall i | 0 <= i < |menu| ensures Shown(AllCategories, "", menu[i]) {
      ContainsEmpty(ToLower(menu[i].name));
    }
  }

  /** Only the name is searched: rewriting an item's description never changes whether it is shown. */
  lemma DescriptionIgnored(category: string, query: string, item: MenuItem, description: string)
    ensures Shown(category, query, item.(description := description)) == Shown(category, query, item)
  {
  }

  /** The search ignores the case of the query: typing it in lower case shows the same items. */
  lemma QueryCaseIgnored(menu: seq<MenuItem>, category: string, query: string)
    ensures FilteredItems(menu, category, ToLower(query)) == FilteredItems(menu, category, query)
  {
    ToLowerIdempotent(query);
    FilterExt(menu, ShownBy(category, ToLower(query)), ShownBy(category, query));
  }

  /** Typing more into the search box never brings an item back. */
  lemma {:induction false} NarrowingSearch(menu: seq<MenuItem>, category: string, query: string, more: string)
    ensures forall item :: item in FilteredItems(menu, category, query + more) ==>
      item in FilteredItems(menu, category, query)
  {
    ToLowerAppend(query, more);
    forall item | item in FilteredItems(menu, category, query + more)
      ensures item in FilteredItems(menu, category, query)
    {
      ContainsPrefixOfNeedle(ToLower(item.name), ToLower(query), ToLower(more));
    }
  }

  /** On the "Pasta" tab with no query, exactly the first and fourth shipped items pass. */
  lemma PastaTabFacts()
    ensures var p := ShownBy("Pasta", "");
      && p(MenuData[0]) && !p(MenuData[1]) && !p(MenuData[2])
      && p(MenuData[3]) && !p(MenuData[4]) && !p(MenuData[5])
  {
    assert ToLower("") == "";
    ContainsEmpty(ToLower(MenuData[0].name));
    ContainsEmpty(ToLower(MenuData[3].name));
  }

  /** Filtering six elements of which only the first and the fourth pass. */
  lemma {:induction false} FilterFirstAndFourth<T(!new)>(m: seq<T>, p: T -> bool)
    requires |m| == 6
    requires p(m[0]) && !p(m[1]) && !p(m[2]) && p(m[3]) && !p(m[4]) && !p(m[5])
    ensures Filter(m, p) == [m[0], m[3]]
  {
    var t := m[1..];
    assert forall i :: 0 <= i < |t| && i != 2 ==> !p(t[i]) by {
      forall i | 0 <= i < |t| && i != 2 ensures !p(t[i]) {
        assert t[i] == m[i + 1];
      }
    }
    FilterOnlyAt(t, p, 2);
    FilterCons(m, p);
  }

  /** The "Pasta" tab shows the two pasta dishes, in menu order, and not the burger. */
  lemma PastaTab()
    ensures FilteredItems(MenuData, "Pasta", "") == [MenuData[0], MenuData[3]]
    ensures MenuData[2] !in FilteredItems(MenuData, "Pasta", "")
  {
    PastaTabFacts();
    FilterFirstAndFourth(MenuData, ShownBy("Pasta", ""));
  }

  /** An item whose name has neither case of a letter of the lower-cased query is not shown. */
  lemma NameLacksLetter(category: string, query: string, item: MenuItem, lower: char, upper: char)
    requires lower in ToLower(query) && 'a' <= lower <= 'z' && upper as int == lower as int - 32
    requires forall i :: 0 <= i < |item.name| ==> item.name[i] != lower && item.name[i] != upper
    ensures !ShownBy(category, query)(item)
  {
    MissingLetter(item.name, lower, upper);
    ContainedCharsOccur(ToLower(item.name), ToLower(query), lower);
  }

  /** Searching "Pasta" finds Pasta Puttanesca and not the Chutney Burger. */
  lemma PastaSearch()
    ensures MenuData[0] in FilteredItems(MenuData, AllCategories, "Pasta")
    ensures MenuData[2] !in FilteredItems(MenuData, AllCategories, "Pasta")
  {
    assert ToLower("Pasta") == "pasta";
    assert ToLower(MenuData[0].name)[..5] == "pasta";
    assert ShownBy(AllCategories, "Pasta")(MenuData[0]);
    NameLacksLetter(AllCategories, "Pasta", MenuData[2], 'p', 'P');
  }

  // Each shipped dish lacks both cases of some letter of "blank", so "Blank" does not find it.

  lemma BlankMissesPastaPuttanesca()
    ensures !ShownBy(AllCategories, "Blank")(MenuData[0])
  {
    assert ToLower("Blank") == "blank";
    NameLacksLetter(AllCategories, "Blank", MenuData[0], 'b', 'B');
  }

  lemma BlankMissesSteakAvocadoBowl()
    ensures !ShownBy(AllCategories, "Blank")(MenuData[1])
  {
    assert ToLower("Blank") == "blank";
    NameLacksLetter(AllCategories, "Blank", MenuData[1], 'n', 'N');
  }

  lemma BlankMissesChutneyBurger()
    ensures !ShownBy(AllCategories, "Blank")(MenuData[2])
  {
    assert ToLower("Blank") == "blank";
    NameLacksLetter(AllCategories, "Blank", MenuData[2], 'l', 'L');
  }

  lemma BlankMissesSpaghettiAssassina()
    ensures !ShownBy(AllCategories, "Blank")(MenuData[3])
  {
    assert ToLower("Blank") == "blank";
    NameLacksLetter(AllCategories, "Blank", MenuData[3], 'b', 'B');
  }

  lemma BlankMissesGrilledChickenSalad()
    ensures !ShownBy(AllCategories, "Blank")(MenuData[4])
  {
    assert ToLower("Blank") == "blank";
    NameLacksLetter(AllCategories, "Blank", MenuData[4], 'b', 'B');
  }

  lemma BlankMissesMediterraneanSalad()
    ensures !ShownBy(AllCategories, "Blank")(MenuData[5])
  {
    assert ToLower("Blank") == "blank";
    NameLacksLetter(AllCategories, "Blank", MenuData[5], 'b', 'B');
  }

  /** Filtering six elements none of which passes. */
  lemma FilterNoneOfSix<T(!new)>(m: seq<T>, p: T -> bool)
    requires |m| == 6
    requires !p(m[0]) && !p(m[1]) && !p(m[2]) && !p(m[3]) && !p(m[4]) && !p(m[5])
    ensures Filter(m, p) == []
  {
    FilterNone(m, p);
  }

  /** Searching "Blank" finds nothing on the shipped menu. */
  lemma BlankSearchFindsNothing()
    ensures FilteredItems(MenuData, AllCategories, "Blank") == []
  {
    BlankMissesPastaPuttanesca();
    BlankMissesSteakAvocadoBowl();
    BlankMissesChutneyBurger();
    BlankMissesSpaghettiAssassina();
    BlankMissesGrilledChickenSalad();
    BlankMissesMediterraneanSalad();
    FilterNoneOfSix(MenuData, ShownBy(AllCategories, "Blank"));
  }
}
