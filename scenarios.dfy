/**
 * Concrete situations worked through the model: a week with two entries,
 * an empty period, a negative weight, and the label threshold.
 */
module Scenarios {
  import opened Wrappers
  import opened Catalog
  import opened Store
  import opened Statistics

  const Day: Date := 86400.0
  const Now: Date := 1000000.0
  const WeekStart: Date := Now - 6.0 * Day

  /** Half a kilogram of vegetables at 2.0 today, a quarter kilogram of fruit at 4.0 two days ago. */
  const WeekEntries: seq<WasteEntry> := [
    WasteEntry(1, Now, 2, 0.5, 2.0),
    WasteEntry(2, Now - 2.0 * Day, 3, 0.25, 4.0)
  ]

  /** The week's totals: 0.75 kg and 0.5 * 2.0 + 0.25 * 4.0 = 2.0. */
  lemma WeekTotals()
    ensures TotalWeightKg(WeekEntries, WeekStart, Now, None) == 0.75
    ensures TotalPrice(WeekEntries, WeekStart, Now, None) == 2.0
    ensures PeriodTotalPrice(WeekEntries, WeekStart, Now) == 2.0
  {
    var a, b := WeekEntries[0], WeekEntries[1];
    assert [] + [a] == [a] && [a] + [b] == WeekEntries;
    TotalWeightKgAppend([], a, WeekStart, Now, None);
    TotalWeightKgAppend([a], b, WeekStart, Now, None);
    TotalPriceAppend([], a, WeekStart, Now, None);
    TotalPriceAppend([a], b, WeekStart, Now, None);
  }

  /** Limited to vegetables, the week's weight is the vegetables' 0.5 kg. */
  lemma WeekVegetableWeight(vegetables: Category)
    requires vegetables.id == 2
    ensures TotalWeightKg(WeekEntries, WeekStart, Now, Some(vegetables)) == 0.5
  {
    var a, b := WeekEntries[0], WeekEntries[1];
    assert [] + [a] == [a] && [a] + [b] == WeekEntries;
    TotalWeightKgAppend([], a, WeekStart, Now, Some(vegetables));
    TotalWeightKgAppend([a], b, WeekStart, Now, Some(vegetables));
  }

  /** The week's weight of category `id`: 0.5 kg of vegetables, 0.25 kg of fruit, nothing else. */
  function WeekWeight(id: int): real {
    if id == 2 then 0.5 else if id == 3 then 0.25 else 0.0
  }

  /** The entries of the week weigh `WeekWeight` per category. */
  lemma WeekCategoryWeights(id: int)
    ensures CategoryWeight(EntriesInRange(WeekEntries, WeekStart, Now), id) == WeekWeight(id)
  {
    EntriesInRangeCoveringAll(WeekEntries, WeekStart, Now);
    var a, b := WeekEntries[0], WeekEntries[1];
    assert [] + [a] == [a] && [a] + [b] == WeekEntries;
    CategoryWeightAppend([], a, id);
    CategoryWeightAppend([a], b, id);
  }

  /** Vegetables (id 2) and fruit (id 3) are the catalog's second and third categories. */
  lemma WeekCategoriesKnown()
    ensures Lookup(All, 2) == Some(All[1])
    ensures Lookup(All, 3) == Some(All[2])
  {
    AllNumberedByPosition();
    LookupByPosition(All, 2);
    LookupByPosition(All, 3);
  }

  /**
   * Under a catalog whose categories 2 and 3 are `vegetables` and `fruit`, a
   * correct slice of entries weighing `WeekWeight` is one of those two.
   */
  lemma WeekSlice(catalog: seq<Category>, vegetables: Category, fruit: Category, inRange: seq<WasteEntry>, s: CategorySlice)
    requires Lookup(catalog, 2) == Some(vegetables) && Lookup(catalog, 3) == Some(fruit)
    requires forall id :: CategoryWeight(inRange, id) == WeekWeight(id)
    requires SoundSlice(catalog, inRange, s)
    ensures s == CategorySlice(vegetables, 0.5) || s == CategorySlice(fruit, 0.25)
  {
    assert CategoryWeight(inRange, s.category.id) == WeekWeight(s.category.id);
  }

  /** A correct slice list of entries weighing `WeekWeight` names exactly categories 2 and 3. */
  lemma WeekSliceIds(catalog: seq<Category>, vegetables: Category, fruit: Category, inRange: seq<WasteEntry>, slices: seq<CategorySlice>)
    requires Lookup(catalog, 2) == Some(vegetables) && Lookup(catalog, 3) == Some(fruit)
    requires forall id :: CategoryWeight(inRange, id) == WeekWeight(id)
    requires IsSlicing(catalog, inRange, slices)
    ensures SliceIds(slices) == {2, 3}
  {
    assert CategoryWeight(inRange, 2) == 0.5 && CategoryWeight(inRange, 3) == 0.25;
    assert 2 in SliceIds(slices) && 3 in SliceIds(slices);
    forall id | id in SliceIds(slices) ensures id == 2 || id == 3 {
      var i :| 0 <= i < |slices| && slices[i].category.id == id;
      assert slices[i] in slices;
      WeekSlice(catalog, vegetables, fruit, inRange, slices[i]);
    }
  }

  /** The only correct slice list of entries weighing `WeekWeight` is vegetables 0.5, then fruit 0.25. */
  lemma WeekSliceOrder(catalog: seq<Category>, vegetables: Category, fruit: Category, inRange: seq<WasteEntry>, slices: seq<CategorySlice>)
    requires Lookup(catalog, 2) == Some(vegetables) && Lookup(catalog, 3) == Some(fruit)
    requires forall id :: CategoryWeight(inRange, id) == WeekWeight(id)
    requires IsSlicing(catalog, inRange, slices)
    ensures slices == [CategorySlice(vegetables, 0.5), CategorySlice(fruit, 0.25)]
  {
    WeekSliceIds(catalog, vegetables, fruit, inRange, slices);
    DistinctIdsCount(slices);
    assert |slices| == 2;
    assert slices[0] in slices && slices[1] in slices;
    WeekSlice(catalog, vegetables, fruit, inRange, slices[0]);
    WeekSlice(catalog, vegetables, fruit, inRange, slices[1]);
  }

  /** The statistics screen's slices for the week: vegetables 0.5, then fruit 0.25. */
  method WeekChart() returns (slices: seq<CategorySlice>)
    ensures slices == [CategorySlice(All[1], 0.5), CategorySlice(All[2], 0.25)]
  {
    slices := Slices(All, WeekEntries, WeekStart, Now);
    forall id ensures CategoryWeight(EntriesInRange(WeekEntries, WeekStart, Now), id) == WeekWeight(id) {
      WeekCategoryWeights(id);
    }
    WeekCategoriesKnown();
    WeekSliceOrder(All, All[1], All[2], EntriesInRange(WeekEntries, WeekStart, Now), slices);
  }

  /** A period without entries has no slices, so the "No data" text is shown and no segment is laid out. */
  lemma EmptyPeriodHasNoSlices(catalog: seq<Category>, slices: seq<CategorySlice>)
    requires IsSlicing(catalog, [], slices)
    ensures slices == []
    ensures SliceTotal(slices) == 0.0
  {
    NoPositiveWeightNoSlices(catalog, [], slices);
  }

  /** The week's first entry followed by a correction of -0.7 kg of vegetables. */
  const CorrectedEntries := [WeekEntries[0], WasteEntry(3, Now, 2, -0.7, 2.0)]

  /** Nothing rejects a negative weight: after the correction the store's total is -0.2 kg. */
  lemma NegativeWeightIsCounted()
    ensures TotalWeightKg(CorrectedEntries, WeekStart, Now, None) == -0.2
  {
    var a, b := CorrectedEntries[0], CorrectedEntries[1];
    assert [] + [a] == [a] && [a] + [b] == CorrectedEntries;
    TotalWeightKgAppend([], a, WeekStart, Now, None);
    TotalWeightKgAppend([a], b, WeekStart, Now, None);
  }

  /** After the correction vegetables weigh -0.2 kg and every other category nothing. */
  lemma CorrectedCategoryWeights(id: int)
    ensures CategoryWeight(EntriesInRange(CorrectedEntries, WeekStart, Now), id) ==
            if id == 2 then -0.2 else 0.0
  {
    EntriesInRangeCoveringAll(CorrectedEntries, WeekStart, Now);
    var a, b := CorrectedEntries[0], CorrectedEntries[1];
    assert [] + [a] == [a] && [a] + [b] == CorrectedEntries;
    CategoryWeightAppend([], a, id);
    CategoryWeightAppend([a], b, id);
  }

  /** With no positive category weight after the correction, the statistics screen has no slices. */
  method CorrectedChart() returns (slices: seq<CategorySlice>)
    ensures slices == []
  {
    slices := Slices(All, CorrectedEntries, WeekStart, Now);
    var inRange := EntriesInRange(CorrectedEntries, WeekStart, Now);
    forall id ensures CategoryWeight(inRange, id) <= 0.0 {
      CorrectedCategoryWeights(id);
    }
    NoPositiveWeightNoSlices(All, inRange, slices);
  }

  /** A span of exactly 12 degrees gets no label; 12.01 degrees does. */
  lemma LabelThreshold(slice: CategorySlice)
    ensures !ShowsLabel(Segment(slice, -90.0, -78.0))
    ensures ShowsLabel(Segment(slice, -90.0, -77.99))
  {
  }
}
