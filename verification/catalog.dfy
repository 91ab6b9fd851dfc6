/**
  The read-only menu data the client works on: menu items and the
  modifications a customer can put on a cart line. Prices are in cents.
 */
module Catalog {
  import opened Seqs

  /** A modification of a cart line (`{ id, name, price }`). */
  datatype Modification = Modification(id: int, name: string, price: int)

  /**
    A menu item. `available` and `inCart` are absent (`None`) on the static
    menu data; the admin dashboard sets them. `modifications` is the list the
    item form edits; an item without one has the empty list.
   */
  datatype MenuItem = MenuItem(
    id: int,
    name: string,
    price: int,
    category: string,
    description: string,
    available: Option<bool>,
    inCart: Option<bool>,
    modifications: seq<Modification>)

  function ModId(m: Modification): int {
    m.id
  }

  function ModPrice(m: Modification): int {
    m.price
  }

  /** `mods.map((mod) => mod.id)` */
  function ModIds(mods: seq<Modification>): seq<int> {
    Map(mods, ModId)
  }

  /** `mods.reduce((t, mod) => t + mod.price, 0)` */
  function ModsTotal(mods: seq<Modification>): int {
    SumBy(mods, ModPrice)
  }

  function Item(id: int, name: string, price: int, category: string, description: string): MenuItem {
    MenuItem(id, name, price, category, description, None, None, [])
  }

  /** The static menu shipped with the client, used here as a fixture. */
  const PastaPuttanesca := Item(1, "Pasta Puttanesca", 1549, "Pasta", "Tomato, olives, anchovies, capers, garlic")
  const SteakAvocadoBowl := Item(2, "Steak & Avocado Bowl", 1815, "Main", "Skirt steak, chimichurri, couscous, avocado")
  const ChutneyBurger := Item(3, "Chutney Burger", 1799, "Main", "Angus beef patty, chutney, tomato, arugula")
  const SpaghettiAssassina := Item(4, "Spaghetti all'Assassina", 1545, "Pasta", "Spicy tomato sauce, garlic, chili flakes")
  const GrilledChickenSalad := Item(5, "Grilled Chicken Salad", 1499, "Main", "Ginger ale, frozen")
  const MediterraneanSalad := Item(6, "Mediterranean Salad", 1375, "Main", "Mixed greens, feta, olives, cucumber, tomato")

  const MenuData: seq<MenuItem> := [
    PastaPuttanesca, SteakAvocadoBowl, ChutneyBurger,
    SpaghettiAssassina, GrilledChickenSalad, MediterraneanSalad
  ]
}
