/** The product-category catalog: a fixed, immutable table of categories keyed by a small integer id. */
module Catalog {
  import opened Wrappers

  datatype Category = Category(id: int, title: string, shortTitle: string)

  /**
   * `catalog.first(where: { $0.id == id })`: the first category carrying `id`,
   * or None when no category does.
   */
  function Lookup(catalog: seq<Category>, id: int): (r: Option<Category>)
    ensures r.None? <==> forall i :: 0 <= i < |catalog| ==> catalog[i].id != id
    ensures r.Some? ==> r.value.id == id
    ensures r.Some? ==> exists i :: 0 <= i < |catalog| && catalog[i] == r.value &&
                                    forall j :: 0 <= j < i ==> catalog[j].id != id
    decreases |catalog|
  {
    if catalog == [] then None
    else if catalog[0].id == id then Some(catalog[0])
    else
      var r := Lookup(catalog[1..], id);
      assert r.Some? ==> exists i :: 1 <= i < |catalog| && catalog[i] == r.value &&
                                     forall j :: 0 <= j < i ==> catalog[j].id != id by {
        if r.Some? {
          var i :| 0 <= i < |catalog[1..]| && catalog[1..][i] == r.value &&
                   forall j :: 0 <= j < i ==> catalog[1..][j].id != id;
          assert catalog[i + 1] == r.value;
          forall j | 0 <= j < i + 1 ensures catalog[j].id != id {
            if j > 0 { assert catalog[j] == catalog[1..][j - 1]; }
          }
        }
      }
      r
  }

  /** The sixteen categories of the application, ids 1 to 16. */
  const All: seq<Category> := [
    Category(1, "Bread and baked goods", "Bread"),
    Category(2, "Vegetables", "Veg"),
    Category(3, "Fruits", "Fruit"),
    Category(4, "Nuts and dried fruits", "Nuts"),
    Category(5, "Dairy products", "Dairy"),
    Category(6, "Eggs", "Eggs"),
    Category(7, "Meat", "Meat"),
    Category(8, "Sauces and seasonings", "Sauces"),
    Category(9, "Fish and seafood", "Fish"),
    Category(10, "Ready meals/ fast food", "Fast food"),
    Category(11, "Cereals and pasta", "Grains"),
    Category(12, "Frozen foods", "Frozen"),
    Category(13, "Canned goods", "Canned"),
    Category(14, "Drinks", "Drinks"),
    Category(15, "Greens", "Greens"),
    Category(16, "Other", "Other")
  ]

  /** In a catalog whose ids are the positions plus one, exactly ids 1 to |catalog| resolve, each to its own position. */
  lemma {:induction false} LookupByPosition(catalog: seq<Category>, id: int)
    requires forall i :: 0 <= i < |catalog| ==> catalog[i].id == i + 1
    ensures Lookup(catalog, id).Some? <==> 1 <= id <= |catalog|
    ensures 1 <= id <= |catalog| ==> Lookup(catalog, id) == Some(catalog[id - 1])
  {
    if 1 <= id <= |catalog| {
      assert catalog[id - 1].id == id;
      var r := Lookup(catalog, id);
      var i :| 0 <= i < |catalog| && catalog[i] == r.value && forall j :: 0 <= j < i ==> catalog[j].id != id;
      assert i == id - 1;
    }
  }

  /** The application table numbers its categories 1 to 16 in order. */
  lemma AllNumberedByPosition()
    ensures |All| == 16
    ensures forall i :: 0 <= i < |All| ==> All[i].id == i + 1
  {
    assert All[0].id == 1 && All[1].id == 2 && All[2].id == 3 && All[3].id == 4;
    assert All[4].id == 5 && All[5].id == 6 && All[6].id == 7 && All[7].id == 8;
    assert All[8].id == 9 && All[9].id == 10 && All[10].id == 11 && All[11].id == 12;
    assert All[12].id == 13 && All[13].id == 14 && All[14].id == 15 && All[15].id == 16;
  }
}
