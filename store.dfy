/**
 * The waste-entry store: an append-only list of entries, the two append
 * operations, and the date-range and category queries over it.
 */
module Store {
  import opened Wrappers
  import opened Catalog

  /** A point in time: `Date` is a count of seconds, ordered like the reals. */
  type Date = real

  /** An entry identifier: the fresh value `UUID()` produced when the entry was made. */
  type Uuid = nat

  /** One recorded disposal. The weight is always kept in kilograms. */
  datatype WasteEntry = WasteEntry(id: Uuid, date: Date, categoryID: int, weightKg: real, pricePerKg: real)
  {
    /** The cost of the wasted food (a computed property, never stored). */
    function TotalPrice(): real {
      weightKg * pricePerKg
    }

    /** The entry's category: the first catalog category with `categoryID`, or else the first category of all. */
    function CategoryIn(catalog: seq<Category>): (c: Category)
      requires |catalog| > 0
      ensures c in catalog
      ensures (exists i :: 0 <= i < |catalog| && catalog[i].id == categoryID) ==>
                c.id == categoryID &&
                exists i :: 0 <= i < |catalog| && catalog[i] == c && forall j :: 0 <= j < i ==> catalog[j].id != categoryID
      ensures (forall i :: 0 <= i < |catalog| ==> catalog[i].id != categoryID) ==> c == catalog[0]
    {
      Lookup(catalog, categoryID).GetOr(catalog[0])
    }
  }

  /** The inclusive range test the store filters with: `date >= start && date <= end`. */
  predicate InRange(e: WasteEntry, start: Date, end: Date) {
    e.date >= start && e.date <= end
  }

  /** The category test of the totals: no category given, or the same category id. */
  predicate Matches(e: WasteEntry, category: Option<Category>) {
    category.None? || e.categoryID == category.value.id
  }

  /** `entries(from: start, to: end)`: the entries dated within `[start, end]`, in insertion order. */
  function EntriesInRange(entries: seq<WasteEntry>, start: Date, end: Date): (r: seq<WasteEntry>)
    ensures |r| <= |entries|
    ensures forall e :: e in r <==> e in entries && InRange(e, start, end)
    ensures start > end ==> r == []
    decreases |entries|
  {
    if entries == [] then []
    else
      var last := entries[|entries| - 1];
      assert entries == entries[..|entries| - 1] + [last];
      EntriesInRange(entries[..|entries| - 1], start, end) + (if InRange(last, start, end) then [last] else [])
  }

  /** The entries whose category id is `id`, in insertion order. */
  function OfCategory(entries: seq<WasteEntry>, id: int): (r: seq<WasteEntry>)
    ensures |r| <= |entries|
    ensures forall e :: e in r <==> e in entries && e.categoryID == id
    decreases |entries|
  {
    if entries == [] then []
    else
      var last := entries[|entries| - 1];
      assert entries == entries[..|entries| - 1] + [last];
      OfCategory(entries[..|entries| - 1], id) + (if last.categoryID == id then [last] else [])
  }

  /** `map { $0.weightKg }.reduce(0, +)`, folded from the left as `reduce` does. */
  function SumWeight(entries: seq<WasteEntry>): real
    decreases |entries|
  {
    if entries == [] then 0.0
    else SumWeight(entries[..|entries| - 1]) + entries[|entries| - 1].weightKg
  }

  /** `map { $0.totalPrice }.reduce(0, +)`, folded from the left. */
  function SumPrice(entries: seq<WasteEntry>): real
    decreases |entries|
  {
    if entries == [] then 0.0
    else SumPrice(entries[..|entries| - 1]) + entries[|entries| - 1].TotalPrice()
  }

  /** The entries the two totals add up: in range and of the given category, if any. */
  function Selection(entries: seq<WasteEntry>, start: Date, end: Date, category: Option<Category>): (r: seq<WasteEntry>)
    ensures forall e :: e in r <==> e in entries && InRange(e, start, end) && Matches(e, category)
  {
    var inRange := EntriesInRange(entries, start, end);
    if category.None? then inRange else OfCategory(inRange, category.value.id)
  }

  /** `totalWeightKg(from:to:category:)`; it is 0 when no entry is selected. */
  function TotalWeightKg(entries: seq<WasteEntry>, start: Date, end: Date, category: Option<Category>): (r: real)
    ensures (forall e :: e in entries ==> !(InRange(e, start, end) && Matches(e, category))) ==> r == 0.0
  {
    var selected := Selection(entries, start, end, category);
    assert selected != [] ==> selected[0] in selected;
    SumWeight(selected)
  }

  /** `totalPrice(from:to:category:)`: the cost of the same selection; 0 when nothing is selected. */
  function TotalPrice(entries: seq<WasteEntry>, start: Date, end: Date, category: Option<Category>): (r: real)
    ensures (forall e :: e in entries ==> !(InRange(e, start, end) && Matches(e, category))) ==> r == 0.0
  {
    var selected := Selection(entries, start, end, category);
    assert selected != [] ==> selected[0] in selected;
    SumPrice(selected)
  }

  /** Selecting by category commutes with appending one entry. */
  lemma OfCategoryAppend(entries: seq<WasteEntry>, e: WasteEntry, id: int)
    ensures OfCategory(entries + [e], id) == OfCategory(entries, id) + (if e.categoryID == id then [e] else [])
  {
    assert (entries + [e])[..|entries|] == entries;
  }

  /** The weight sum of a list with one more entry adds that entry's weight. */
  lemma SumWeightAppend(entries: seq<WasteEntry>, e: WasteEntry)
    ensures SumWeight(entries + [e]) == SumWeight(entries) + e.weightKg
  {
    assert (entries + [e])[..|entries|] == entries;
  }

  /** The cost sum of a list with one more entry adds that entry's cost. */
  lemma SumPriceAppend(entries: seq<WasteEntry>, e: WasteEntry)
    ensures SumPrice(entries + [e]) == SumPrice(entries) + e.TotalPrice()
  {
    assert (entries + [e])[..|entries|] == entries;
  }

  /** Appending an entry extends the range query by that entry exactly when it is in range. */
  lemma EntriesInRangeAppend(entries: seq<WasteEntry>, e: WasteEntry, start: Date, end: Date)
    ensures EntriesInRange(entries + [e], start, end) ==
            EntriesInRange(entries, start, end) + (if InRange(e, start, end) then [e] else [])
  {
    assert (entries + [e])[..|entries|] == entries;
  }

  /** A non-empty `b` is its prefix and its last element, also behind `a`. */
  lemma SplitLast<T>(a: seq<T>, b: seq<T>)
    requires b != []
    ensures b == b[..|b| - 1] + [b[|b| - 1]]
    ensures a + b == (a + b[..|b| - 1]) + [b[|b| - 1]]
  {
  }

  /** Concatenation is associative. */
  lemma ConcatAssociates<T>(x: seq<T>, y: seq<T>, z: seq<T>)
    ensures (x + y) + z == x + (y + z)
  {
  }

  /**
   * The range query distributes over concatenation: it keeps the in-range
   * entries of each part in their insertion order and adds nothing.
   */
  lemma {:induction false} EntriesInRangeConcat(a: seq<WasteEntry>, b: seq<WasteEntry>, start: Date, end: Date)
    ensures EntriesInRange(a + b, start, end) == EntriesInRange(a, start, end) + EntriesInRange(b, start, end)
    decreases |b|
  {
    if b == [] {
      assert a + b == a;
    } else {
      var n := |b| - 1;
      EntriesInRangeConcat(a, b[..n], start, end);
      SplitLast(a, b);
      EntriesInRangeAppend(a + b[..n], b[n], start, end);
      EntriesInRangeAppend(b[..n], b[n], start, end);
      ConcatAssociates(EntriesInRange(a, start, end), EntriesInRange(b[..n], start, end),
                       if InRange(b[n], start, end) then [b[n]] else []);
    }
  }

  /** The category filter distributes over concatenation, keeping each part's matches in order. */
  lemma {:induction false} OfCategoryConcat(a: seq<WasteEntry>, b: seq<WasteEntry>, id: int)
    ensures OfCategory(a + b, id) == OfCategory(a, id) + OfCategory(b, id)
    decreases |b|
  {
    if b == [] {
      assert a + b == a;
    } else {
      var n := |b| - 1;
      OfCategoryConcat(a, b[..n], id);
      SplitLast(a, b);
      OfCategoryAppend(a + b[..n], b[n], id);
      OfCategoryAppend(b[..n], b[n], id);
      ConcatAssociates(OfCategory(a, id), OfCategory(b[..n], id),
                       if b[n].categoryID == id then [b[n]] else []);
    }
  }

  /** The weight fold of two lists one after the other is the sum of their folds. */
  lemma {:induction false} SumWeightConcat(a: seq<WasteEntry>, b: seq<WasteEntry>)
    ensures SumWeight(a + b) == SumWeight(a) + SumWeight(b)
    decreases |b|
  {
    if b == [] {
      assert a + b == a;
    } else {
      var n := |b| - 1;
      SumWeightConcat(a, b[..n]);
      SplitLast(a, b);
      SumWeightAppend(a + b[..n], b[n]);
      SumWeightAppend(b[..n], b[n]);
    }
  }

  /** The cost fold of two lists one after the other is the sum of their folds. */
  lemma {:induction false} SumPriceConcat(a: seq<WasteEntry>, b: seq<WasteEntry>)
    ensures SumPrice(a + b) == SumPrice(a) + SumPrice(b)
    decreases |b|
  {
    if b == [] {
      assert a + b == a;
    } else {
      var n := |b| - 1;
      SumPriceConcat(a, b[..n]);
      SplitLast(a, b);
      SumPriceAppend(a + b[..n], b[n]);
      SumPriceAppend(b[..n], b[n]);
    }
  }

  /** A range covering every entry date returns the whole list, so it has one result per entry ever added. */
  lemma {:induction false} EntriesInRangeCoveringAll(entries: seq<WasteEntry>, start: Date, end: Date)
    requires forall e :: e in entries ==> InRange(e, start, end)
    ensures EntriesInRange(entries, start, end) == entries
    decreases |entries|
  {
    if entries != [] {
      var n := |entries| - 1;
      assert entries == entries[..n] + [entries[n]];
      EntriesInRangeCoveringAll(entries[..n], start, end);
    }
  }

  /** The selection of a list with one more entry gains that entry exactly when it is selected. */
  lemma SelectionAppend(entries: seq<WasteEntry>, e: WasteEntry, start: Date, end: Date, category: Option<Category>)
    ensures Selection(entries + [e], start, end, category) ==
            Selection(entries, start, end, category) + (if InRange(e, start, end) && Matches(e, category) then [e] else [])
  {
    EntriesInRangeAppend(entries, e, start, end);
    var inRange := EntriesInRange(entries, start, end);
    var inRange' := EntriesInRange(entries + [e], start, end);
    if category.Some? {
      var id := category.value.id;
      assert Selection(entries, start, end, category) == OfCategory(inRange, id);
      assert Selection(entries + [e], start, end, category) == OfCategory(inRange', id);
      if InRange(e, start, end) {
        assert inRange' == inRange + [e];
        OfCategoryAppend(inRange, e, id);
      } else {
        assert inRange' == inRange;
      }
    } else {
      assert Selection(entries, start, end, category) == inRange;
      assert Selection(entries + [e], start, end, category) == inRange';
    }
  }

  /**
   * The weight total of a list with one more entry is the old total plus that
   * entry's weight when it is selected; with the empty-list case this fixes
   * the total completely.
   */
  lemma TotalWeightKgAppend(entries: seq<WasteEntry>, e: WasteEntry, start: Date, end: Date, category: Option<Category>)
    ensures TotalWeightKg([], start, end, category) == 0.0
    ensures TotalWeightKg(entries + [e], start, end, category) ==
            TotalWeightKg(entries, start, end, category) +
            (if InRange(e, start, end) && Matches(e, category) then e.weightKg else 0.0)
  {
    SelectionAppend(entries, e, start, end, category);
    var sel := Selection(entries, start, end, category);
    var sel' := Selection(entries + [e], start, end, category);
    assert TotalWeightKg(entries, start, end, category) == SumWeight(sel);
    assert TotalWeightKg(entries + [e], start, end, category) == SumWeight(sel');
    if InRange(e, start, end) && Matches(e, category) {
      SumWeightAppend(sel, e);
      assert sel' == sel + [e];
    } else {
      assert sel' == sel;
    }
  }

  /** The cost total of a list with one more entry is the old total plus that entry's cost when it is selected. */
  lemma TotalPriceAppend(entries: seq<WasteEntry>, e: WasteEntry, start: Date, end: Date, category: Option<Category>)
    ensures TotalPrice([], start, end, category) == 0.0
    ensures TotalPrice(entries + [e], start, end, category) ==
            TotalPrice(entries, start, end, category) +
            (if InRange(e, start, end) && Matches(e, category) then e.weightKg * e.pricePerKg else 0.0)
  {
    SelectionAppend(entries, e, start, end, category);
    var sel := Selection(entries, start, end, category);
    var sel' := Selection(entries + [e], start, end, category);
    assert TotalPrice(entries, start, end, category) == SumPrice(sel);
    assert TotalPrice(entries + [e], start, end, category) == SumPrice(sel');
    if InRange(e, start, end) && Matches(e, category) {
      SumPriceAppend(sel, e);
      assert sel' == sel + [e];
    } else {
      assert sel' == sel;
    }
  }

  /** All ids in the list are different. */
  ghost predicate UniqueIds(entries: seq<WasteEntry>) {
    forall i, j :: 0 <= i < j < |entries| ==> entries[i].id != entries[j].id
  }

  /** Appending an entry with an id not used before keeps the ids unique. */
  lemma AppendFreshIdKeepsIdsUnique(entries: seq<WasteEntry>, e: WasteEntry)
    requires UniqueIds(entries)
    requires forall x :: x in entries ==> x.id != e.id
    ensures UniqueIds(entries + [e])
  {
  }

  /**
   * The store. `entries` is written only by the two append methods and by the
   * load at construction. `savedSnapshots` records every list the save hook
   * writes to persistent storage, in order.
   */
  class WasteStore {
    var entries: seq<WasteEntry>
    ghost var savedSnapshots: seq<seq<WasteEntry>>

    /**
     * `init()` runs the load: `stored` is what reading and decoding the storage
     * slot produced, None when the slot is empty or does not decode.
     */
    constructor (stored: Option<seq<WasteEntry>>)
      ensures entries == (if stored.Some? then stored.value else [])
      ensures savedSnapshots == []
    {
      entries := [];
      savedSnapshots := [];
      new;
      LoadFromDisk(stored);
    }

    /** `loadFromDisk()`: replaces the entries only when decoding succeeded. */
    method LoadFromDisk(stored: Option<seq<WasteEntry>>)
      modifies this`entries
      ensures entries == (if stored.Some? then stored.value else old(entries))
    {
      if stored.Some? {
        entries := stored.value;
      }
    }

    /** `saveToDisk()`: the whole list is written again on every save. */
    method SaveToDisk()
      modifies this`savedSnapshots
      ensures savedSnapshots == old(savedSnapshots) + [entries]
    {
      savedSnapshots := savedSnapshots + [entries];
    }

    /**
     * `addEntry`: builds an entry from the category's id and the values as
     * given (no sign check), appends it and saves the whole list.
     */
    method AddEntry(category: Category, weightKg: real, pricePerKg: real, date: Date, freshId: Uuid)
      modifies this
      ensures entries == old(entries) + [WasteEntry(freshId, date, category.id, weightKg, pricePerKg)]
      ensures |entries| == |old(entries)| + 1
      ensures savedSnapshots == old(savedSnapshots) + [entries]
    {
      var entry := WasteEntry(freshId, date, category.id, weightKg, pricePerKg);
      entries := entries + [entry];
      SaveToDisk();
    }

    /** `addEntryWithoutSaving`: appends a ready-made entry and does not save. */
    method AddEntryWithoutSaving(entry: WasteEntry)
      modifies this
      ensures entries == old(entries) + [entry]
      ensures savedSnapshots == old(savedSnapshots)
    {
      entries := entries + [entry];
    }
  }
}
