/**
 * The statistics screen: per-category weight slices of the entries in the
 * selected period, the two headline totals, and the donut chart's angular
 * layout with its label rule.
 */
module Statistics {
  import opened Wrappers
  import opened Catalog
  import opened Store

  /** One chart slice: a catalog category and the kilograms wasted in it. */
  datatype CategorySlice = CategorySlice(category: Category, value: real)

  /** One donut segment: its slice and its start and end angles, in degrees. */
  datatype Segment = Segment(slice: CategorySlice, start: real, end: real)

  /** Where the first segment starts: 12 o'clock. */
  const ChartStartDegrees: real := -90.0

  /** A full turn. */
  const FullCircleDegrees: real := 360.0

  /** A segment's label is drawn only when its span is strictly greater than this. */
  const LabelMinSpanDegrees: real := 12.0

  // ---------------------------------------------------------------------------
  // Grouping by category

  /** The category ids that occur in `entries`. */
  function CategoryIDs(entries: seq<WasteEntry>): set<int>
    decreases |entries|
  {
    if entries == [] then {}
    else CategoryIDs(entries[..|entries| - 1]) + {entries[|entries| - 1].categoryID}
  }

  /** The kilograms recorded under category `id`, summed in entry order. */
  function CategoryWeight(entries: seq<WasteEntry>, id: int): real {
    SumWeight(OfCategory(entries, id))
  }

  /** A category id that no entry carries weighs nothing. */
  lemma {:induction false} AbsentCategoryWeighsNothing(entries: seq<WasteEntry>, id: int)
    requires id !in CategoryIDs(entries)
    ensures OfCategory(entries, id) == []
    ensures CategoryWeight(entries, id) == 0.0
    decreases |entries|
  {
    if entries != [] {
      var n := |entries| - 1;
      AbsentCategoryWeighsNothing(entries[..n], id);
      assert entries == entries[..n] + [entries[n]];
      OfCategoryAppend(entries[..n], entries[n], id);
    }
  }

  /** The per-category weight of a list with one more entry adds that entry's weight to its own category only. */
  lemma CategoryWeightAppend(entries: seq<WasteEntry>, e: WasteEntry, id: int)
    ensures CategoryWeight(entries + [e], id) ==
            CategoryWeight(entries, id) + (if e.categoryID == id then e.weightKg else 0.0)
  {
    OfCategoryAppend(entries, e, id);
    if e.categoryID == id {
      SumWeightAppend(OfCategory(entries, id), e);
    } else {
      assert OfCategory(entries + [e], id) == OfCategory(entries, id);
    }
  }

  /** `dict` has a key for exactly the category ids of `entries`, mapped to that category's weight. */
  ghost predicate Groups(entries: seq<WasteEntry>, dict: map<int, real>) {
    && dict.Keys == CategoryIDs(entries)
    && forall id :: id in dict ==> dict[id] == CategoryWeight(entries, id)
  }

  /** One more entry adds its category id. */
  lemma CategoryIDsAppend(entries: seq<WasteEntry>, e: WasteEntry)
    ensures CategoryIDs(entries + [e]) == CategoryIDs(entries) + {e.categoryID}
  {
    assert (entries + [e])[..|entries|] == entries;
  }

  /** The ids occurring in two lists one after the other are the ids of either. */
  lemma {:induction false} CategoryIDsConcat(a: seq<WasteEntry>, b: seq<WasteEntry>)
    ensures CategoryIDs(a + b) == CategoryIDs(a) + CategoryIDs(b)
    decreases |b|
  {
    if b == [] {
      assert a + b == a;
    } else {
      var n := |b| - 1;
      CategoryIDsConcat(a, b[..n]);
      SplitLast(a, b);
      CategoryIDsAppend(a + b[..n], b[n]);
      CategoryIDsAppend(b[..n], b[n]);
    }
  }

  /** The update `dict[e.categoryID, default: 0] += e.weightKg` turns a grouping of `entries` into one of `entries + [e]`. */
  lemma GroupStep(entries: seq<WasteEntry>, e: WasteEntry, dict: map<int, real>, sofar: real)
    requires Groups(entries, dict)
    requires sofar == if e.categoryID in dict then dict[e.categoryID] else 0.0
    ensures Groups(entries + [e], dict[e.categoryID := sofar + e.weightKg])
  {
    CategoryIDsAppend(entries, e);
    var updated := dict[e.categoryID := sofar + e.weightKg];
    assert updated.Keys == dict.Keys + {e.categoryID};
    forall id | id in updated ensures updated[id] == CategoryWeight(entries + [e], id) {
      CategoryWeightAppend(entries, e, id);
      if id == e.categoryID && id !in dict {
        AbsentCategoryWeighsNothing(entries, id);
      }
    }
  }

  /** A prefix one element longer is the shorter prefix and that element. */
  lemma PrefixExtend(entries: seq<WasteEntry>, i: nat)
    requires i < |entries|
    ensures entries[..i + 1] == entries[..i] + [entries[i]]
  {
  }

  /**
   * The grouping loop of `slices`: `dict[entry.categoryID, default: 0] += entry.weightKg`
   * for every entry. The result has a key for exactly the ids that occur and
   * maps each to its category's weight.
   */
  method GroupByCategory(entries: seq<WasteEntry>) returns (dict: map<int, real>)
    ensures dict.Keys == CategoryIDs(entries)
    ensures forall id :: id in dict ==> dict[id] == CategoryWeight(entries, id)
  {
    dict := map[];
    for i := 0 to |entries|
      invariant Groups(entries[..i], dict)
    {
      var e := entries[i];
      var sofar := if e.categoryID in dict then dict[e.categoryID] else 0.0;
      GroupStep(entries[..i], e, dict, sofar);
      PrefixExtend(entries, i);
      dict := dict[e.categoryID := sofar + e.weightKg];
    }
    assert entries[..|entries|] == entries;
  }

  // ---------------------------------------------------------------------------
  // What a correct slice list is

  /** Slices come in non-increasing order of value. */
  ghost predicate NonIncreasing(slices: seq<CategorySlice>) {
    forall i, j :: 0 <= i < j < |slices| ==> slices[i].value >= slices[j].value
  }

  /** No category id appears twice. */
  ghost predicate DistinctIds(slices: seq<CategorySlice>) {
    forall i, j :: 0 <= i < j < |slices| ==> slices[i].category.id != slices[j].category.id
  }

  /** A slice names a catalog category (the first with its id) and carries that category's positive weight. */
  ghost predicate SoundSlice(catalog: seq<Category>, inRange: seq<WasteEntry>, s: CategorySlice) {
    && Lookup(catalog, s.category.id) == Some(s.category)
    && s.value == CategoryWeight(inRange, s.category.id)
    && s.value > 0.0
  }

  /** Every catalog category with positive weight has a slice. */
  ghost predicate CompleteSlices(catalog: seq<Category>, inRange: seq<WasteEntry>, slices: seq<CategorySlice>) {
    forall id :: Lookup(catalog, id).Some? && CategoryWeight(inRange, id) > 0.0 ==>
      exists i :: 0 <= i < |slices| && slices[i].category.id == id
  }

  /**
   * `slices` for the entries `inRange`: one slice per catalog category whose
   * weight is positive and nothing else, sorted by value, ties in any order.
   */
  ghost predicate IsSlicing(catalog: seq<Category>, inRange: seq<WasteEntry>, slices: seq<CategorySlice>) {
    && NonIncreasing(slices)
    && DistinctIds(slices)
    && (forall s :: s in slices ==> SoundSlice(catalog, inRange, s))
    && CompleteSlices(catalog, inRange, slices)
  }

  // ---------------------------------------------------------------------------
  // Sorting by value, descending (`sorted { $0.value > $1.value }`)

  /** Inserts `x` after every leading slice with a value at least as large. */
  function InsertByValue(slices: seq<CategorySlice>, x: CategorySlice): (r: seq<CategorySlice>)
    ensures multiset(r) == multiset(slices) + multiset{x}
    decreases |slices|
  {
    if slices == [] then [x]
    else if slices[0].value < x.value then [x] + slices
    else
      assert slices == [slices[0]] + slices[1..];
      [slices[0]] + InsertByValue(slices[1..], x)
  }

  /** Putting a slice at least as heavy as all others in front of a sorted list keeps it sorted. */
  lemma ConsKeepsOrder(y: CategorySlice, rest: seq<CategorySlice>)
    requires NonIncreasing(rest)
    requires forall z :: z in rest ==> y.value >= z.value
    ensures NonIncreasing([y] + rest)
  {
    var r := [y] + rest;
    forall i, j | 0 <= i < j < |r| ensures r[i].value >= r[j].value {
      assert r[j] == rest[j - 1];
      if i == 0 {
        assert rest[j - 1] in rest;
      } else {
        assert r[i] == rest[i - 1];
      }
    }
  }

  /** Inserting into a list sorted by value keeps it sorted. */
  lemma {:induction false} InsertByValueKeepsOrder(slices: seq<CategorySlice>, x: CategorySlice)
    requires NonIncreasing(slices)
    ensures NonIncreasing(InsertByValue(slices, x))
    decreases |slices|
  {
    if slices == [] {
    } else if slices[0].value < x.value {
      forall z | z in slices ensures x.value >= z.value {
        var k :| 0 <= k < |slices| && slices[k] == z;
      }
      ConsKeepsOrder(x, slices);
    } else {
      var rest := InsertByValue(slices[1..], x);
      assert NonIncreasing(slices[1..]) by {
        forall i, j | 0 <= i < j < |slices[1..]| ensures slices[1..][i].value >= slices[1..][j].value {
          assert slices[1..][i] == slices[i + 1] && slices[1..][j] == slices[j + 1];
        }
      }
      InsertByValueKeepsOrder(slices[1..], x);
      forall y | y in rest ensures slices[0].value >= y.value {
        assert y in multiset(rest);
        if y != x {
          assert y in multiset(slices[1..]);
          var k :| 0 <= k < |slices[1..]| && slices[1..][k] == y;
          assert slices[k + 1] == y;
        }
      }
      ConsKeepsOrder(slices[0], rest);
    }
  }

  /** `sorted { $0.value > $1.value }`: a permutation of the input in non-increasing order of value. */
  function SortedByValue(slices: seq<CategorySlice>): (r: seq<CategorySlice>)
    ensures multiset(r) == multiset(slices)
    ensures NonIncreasing(r)
    decreases |slices|
  {
    if slices == [] then []
    else
      var n := |slices| - 1;
      assert slices == slices[..n] + [slices[n]];
      var sorted := SortedByValue(slices[..n]);
      InsertByValueKeepsOrder(sorted, slices[n]);
      InsertByValue(sorted, slices[n])
  }

  /** A list with distinct ids holds each slice at most once. */
  lemma {:induction false} DistinctIdsOccurOnce(slices: seq<CategorySlice>)
    requires DistinctIds(slices)
    ensures forall x :: multiset(slices)[x] <= 1
    decreases |slices|
  {
    if slices != [] {
      var n := |slices| - 1;
      assert slices == slices[..n] + [slices[n]];
      DistinctIdsOccurOnce(slices[..n]);
      assert slices[n] !in slices[..n];
    }
  }

  /** A list holding each slice at most once has different slices at different positions. */
  lemma OccurOnceApart(slices: seq<CategorySlice>)
    requires forall x :: multiset(slices)[x] <= 1
    ensures forall i, j :: 0 <= i < j < |slices| ==> slices[i] != slices[j]
  {
    forall i, j | 0 <= i < j < |slices| ensures slices[i] != slices[j] {
      var x := slices[j];
      assert slices == slices[..j] + [x] + slices[j + 1..];
      assert slices[..j][i] == slices[i];
      assert multiset(slices[..j])[slices[i]] >= 1;
      assert multiset(slices)[x] == multiset(slices[..j])[x] + 1 + multiset(slices[j + 1..])[x];
    }
  }

  // ---------------------------------------------------------------------------
  // The slices

  /**
   * The `compactMap` of `slices`: visits the dictionary in an unspecified
   * order and keeps a slice for each id that resolves in the catalog and
   * weighs more than zero.
   */
  method KeepKnownPositive(catalog: seq<Category>, inRange: seq<WasteEntry>, dict: map<int, real>)
    returns (kept: seq<CategorySlice>)
    requires forall id :: id in dict ==> dict[id] == CategoryWeight(inRange, id)
    ensures forall i :: 0 <= i < |kept| ==> SoundSlice(catalog, inRange, kept[i])
    ensures DistinctIds(kept)
    ensures forall id :: id in dict.Keys && Lookup(catalog, id).Some? && dict[id] > 0.0 ==> id in SliceIds(kept)
  {
    var remaining := dict.Keys;
    kept := [];
    while remaining != {}
      invariant remaining <= dict.Keys
      invariant SliceIds(kept) !! remaining
      invariant forall i :: 0 <= i < |kept| ==> SoundSlice(catalog, inRange, kept[i])
      invariant DistinctIds(kept)
      invariant forall id :: id in dict.Keys - remaining && Lookup(catalog, id).Some? && dict[id] > 0.0 ==>
                  id in SliceIds(kept)
      decreases remaining
    {
      var id :| id in remaining;
      remaining := remaining - {id};
      var found := Lookup(catalog, id);
      if found.Some? && dict[id] > 0.0 {
        var slice := CategorySlice(found.value, dict[id]);
        AppendNewIdKeepsDistinct(kept, slice);
        kept := kept + [slice];
      }
    }
  }

  /**
   * `slices`: groups the entries of `[start, end]` by category, keeps the
   * categories that resolve in the catalog and weigh more than zero, and
   * sorts them by weight, heaviest first. The dictionary is visited in an
   * unspecified order, so the order among equal weights is unspecified too.
   */
  method Slices(catalog: seq<Category>, entries: seq<WasteEntry>, start: Date, end: Date)
    returns (slices: seq<CategorySlice>)
    ensures IsSlicing(catalog, EntriesInRange(entries, start, end), slices)
  {
    var inRange := EntriesInRange(entries, start, end);
    var dict := GroupByCategory(inRange);
    var kept := KeepKnownPositive(catalog, inRange, dict);
    slices := SortedByValue(kept);
    SortedKeptIsSlicing(catalog, inRange, dict, kept);
  }

  /** Appending a slice whose id is new keeps the ids distinct and adds that id. */
  lemma AppendNewIdKeepsDistinct(slices: seq<CategorySlice>, x: CategorySlice)
    requires DistinctIds(slices)
    requires x.category.id !in SliceIds(slices)
    ensures DistinctIds(slices + [x])
    ensures SliceIds(slices + [x]) == SliceIds(slices) + {x.category.id}
  {
    assert (slices + [x])[..|slices|] == slices;
  }

  /** A reordering of sound slices has only sound slices. */
  lemma PermutationKeepsSoundness(catalog: seq<Category>, inRange: seq<WasteEntry>,
                                  kept: seq<CategorySlice>, slices: seq<CategorySlice>)
    requires multiset(slices) == multiset(kept)
    requires forall i :: 0 <= i < |kept| ==> SoundSlice(catalog, inRange, kept[i])
    ensures forall s :: s in slices ==> SoundSlice(catalog, inRange, s)
  {
    forall s | s in slices ensures SoundSlice(catalog, inRange, s) {
      assert s in multiset(kept);
      var k :| 0 <= k < |kept| && kept[k] == s;
    }
  }

  /** A reordering of sound slices with distinct ids has distinct ids, as a sound slice is determined by its id. */
  lemma PermutationKeepsDistinctIds(catalog: seq<Category>, inRange: seq<WasteEntry>,
                                    kept: seq<CategorySlice>, slices: seq<CategorySlice>)
    requires multiset(slices) == multiset(kept)
    requires DistinctIds(kept)
    requires forall s :: s in slices ==> SoundSlice(catalog, inRange, s)
    ensures DistinctIds(slices)
  {
    DistinctIdsOccurOnce(kept);
    OccurOnceApart(slices);
    forall i, j | 0 <= i < j < |slices| ensures slices[i].category.id != slices[j].category.id {
      assert slices[i] in slices && slices[j] in slices;
    }
  }

  /** A reordering names the same ids. */
  lemma PermutationKeepsIds(kept: seq<CategorySlice>, slices: seq<CategorySlice>)
    requires multiset(slices) == multiset(kept)
    ensures SliceIds(slices) == SliceIds(kept)
  {
    forall id | id in SliceIds(kept) ensures id in SliceIds(slices) {
      var i :| 0 <= i < |kept| && kept[i].category.id == id;
      assert kept[i] in multiset(slices);
      var j :| 0 <= j < |slices| && slices[j] == kept[i];
    }
    forall id | id in SliceIds(slices) ensures id in SliceIds(kept) {
      var i :| 0 <= i < |slices| && slices[i].category.id == id;
      assert slices[i] in multiset(kept);
      var j :| 0 <= j < |kept| && kept[j] == slices[i];
    }
  }

  /**
   * Sorting the kept slices of a complete grouping gives a correct slice list:
   * sorting keeps the elements, so it keeps soundness, completeness and, as
   * a sound slice is determined by its id, distinct ids.
   */
  lemma SortedKeptIsSlicing(catalog: seq<Category>, inRange: seq<WasteEntry>, dict: map<int, real>,
                            kept: seq<CategorySlice>)
    requires dict.Keys == CategoryIDs(inRange)
    requires forall id :: id in dict ==> dict[id] == CategoryWeight(inRange, id)
    requires forall i :: 0 <= i < |kept| ==> SoundSlice(catalog, inRange, kept[i])
    requires DistinctIds(kept)
    requires forall id :: id in dict.Keys && Lookup(catalog, id).Some? && dict[id] > 0.0 ==> id in SliceIds(kept)
    ensures IsSlicing(catalog, inRange, SortedByValue(kept))
  {
    var slices := SortedByValue(kept);
    PermutationKeepsSoundness(catalog, inRange, kept, slices);
    PermutationKeepsDistinctIds(catalog, inRange, kept, slices);
    PermutationKeepsIds(kept, slices);
    forall id | Lookup(catalog, id).Some? && CategoryWeight(inRange, id) > 0.0
      ensures id in SliceIds(slices)
    {
      if id !in dict.Keys {
        AbsentCategoryWeighsNothing(inRange, id);
      }
    }
  }

  /** A slice's value is the store's weight total for the period limited to that slice's category. */
  lemma SliceValueIsCategoryTotal(catalog: seq<Category>, entries: seq<WasteEntry>, start: Date, end: Date,
                                  slices: seq<CategorySlice>, s: CategorySlice)
    requires IsSlicing(catalog, EntriesInRange(entries, start, end), slices)
    requires s in slices
    ensures s.value == Store.TotalWeightKg(entries, start, end, Some(s.category))
    ensures s.value > 0.0
  {
  }

  /** A list is empty or holds its first element. */
  lemma EmptyOrHoldsFirst<T>(s: seq<T>)
    ensures s == [] || s[0] in s
  {
  }

  /** When no category weighs more than zero there is no slice. */
  lemma NoPositiveWeightNoSlices(catalog: seq<Category>, inRange: seq<WasteEntry>, slices: seq<CategorySlice>)
    requires IsSlicing(catalog, inRange, slices)
    requires forall id :: CategoryWeight(inRange, id) <= 0.0
    ensures slices == []
  {
    EmptyOrHoldsFirst(slices);
  }

  // ---------------------------------------------------------------------------
  // Totals

  /** `slices.map { $0.value }.reduce(0, +)`, folded from the left. */
  function SliceTotal(slices: seq<CategorySlice>): real
    decreases |slices|
  {
    if slices == [] then 0.0
    else SliceTotal(slices[..|slices| - 1]) + slices[|slices| - 1].value
  }

  /**
   * The "No data" branch is taken when the slice total is not positive; as
   * every slice weighs more than zero, that is exactly when there are no slices.
   */
  lemma {:induction false} NoDataExactlyWhenNoSlices(slices: seq<CategorySlice>)
    requires forall s :: s in slices ==> s.value > 0.0
    ensures SliceTotal(slices) >= 0.0
    ensures SliceTotal(slices) <= 0.0 <==> slices == []
    decreases |slices|
  {
    if slices != [] {
      var n := |slices| - 1;
      assert slices[n] in slices;
      forall s | s in slices[..n] ensures s.value > 0.0 { assert s in slices; }
      NoDataExactlyWhenNoSlices(slices[..n]);
    }
  }

  /** The statistics screen's cost total: every entry of the period, whatever its category id. */
  function PeriodTotalPrice(entries: seq<WasteEntry>, start: Date, end: Date): (r: real)
    ensures r == Store.TotalPrice(entries, start, end, None)
  {
    SumPrice(EntriesInRange(entries, start, end))
  }

  /**
   * An in-range entry adds its cost to the screen's cost total even when its
   * category id is unknown to the catalog, and so has no slice.
   */
  lemma PeriodTotalPriceCountsEveryEntry(entries: seq<WasteEntry>, e: WasteEntry, start: Date, end: Date)
    requires InRange(e, start, end)
    ensures PeriodTotalPrice(entries + [e], start, end) == PeriodTotalPrice(entries, start, end) + e.TotalPrice()
  {
    TotalPriceAppend(entries, e, start, end, None);
  }

  /** The ids of the slices. */
  function SliceIds(slices: seq<CategorySlice>): (ids: set<int>)
    ensures forall id :: id in ids <==> exists i :: 0 <= i < |slices| && slices[i].category.id == id
    decreases |slices|
  {
    if slices == [] then {}
    else
      var n := |slices| - 1;
      var ids := SliceIds(slices[..n]);
      assert forall i :: 0 <= i < n ==> slices[..n][i] == slices[i];
      ids + {slices[n].category.id}
  }

  /** Slices with distinct ids have as many ids as slices. */
  lemma {:induction false} DistinctIdsCount(slices: seq<CategorySlice>)
    requires DistinctIds(slices)
    ensures |SliceIds(slices)| == |slices|
    decreases |slices|
  {
    if slices != [] {
      var n := |slices| - 1;
      assert DistinctIds(slices[..n]);
      DistinctIdsCount(slices[..n]);
      assert slices[n].category.id !in SliceIds(slices[..n]);
    }
  }

  /** The weights of the slices' categories, recomputed from the entries, summed in slice order. */
  function WeightOfSliceIds(entries: seq<WasteEntry>, slices: seq<CategorySlice>): real
    decreases |slices|
  {
    if slices == [] then 0.0
    else WeightOfSliceIds(entries, slices[..|slices| - 1]) + CategoryWeight(entries, slices[|slices| - 1].category.id)
  }

  lemma {:induction false} WeightOfSliceIdsOfNothing(slices: seq<CategorySlice>)
    ensures WeightOfSliceIds([], slices) == 0.0
    decreases |slices|
  {
    if slices != [] {
      WeightOfSliceIdsOfNothing(slices[..|slices| - 1]);
    }
  }

  /** One more entry adds its weight to the per-id sum exactly once when its id is among distinct slice ids. */
  lemma {:induction false} WeightOfSliceIdsAppend(entries: seq<WasteEntry>, e: WasteEntry, slices: seq<CategorySlice>)
    requires DistinctIds(slices)
    ensures WeightOfSliceIds(entries + [e], slices) ==
            WeightOfSliceIds(entries, slices) + (if e.categoryID in SliceIds(slices) then e.weightKg else 0.0)
    decreases |slices|
  {
    if slices != [] {
      var n := |slices| - 1;
      var x := slices[n];
      assert DistinctIds(slices[..n]);
      WeightOfSliceIdsAppend(entries, e, slices[..n]);
      CategoryWeightAppend(entries, e, x.category.id);
      assert SliceIds(slices) == SliceIds(slices[..n]) + {x.category.id};
      if x.category.id == e.categoryID {
        assert e.categoryID !in SliceIds(slices[..n]);
      }
    }
  }

  /** Summing the per-id weights over ids that cover every entry, each once, gives the total weight. */
  lemma {:induction false} WeightOfSliceIdsCovers(entries: seq<WasteEntry>, slices: seq<CategorySlice>)
    requires DistinctIds(slices)
    requires forall e :: e in entries ==> e.categoryID in SliceIds(slices)
    ensures WeightOfSliceIds(entries, slices) == SumWeight(entries)
    decreases |entries|
  {
    if entries == [] {
      WeightOfSliceIdsOfNothing(slices);
    } else {
      var n := |entries| - 1;
      assert entries == entries[..n] + [entries[n]];
      WeightOfSliceIdsCovers(entries[..n], slices);
      WeightOfSliceIdsAppend(entries[..n], entries[n], slices);
    }
  }

  /** When every slice carries its category's weight, the slice total is the per-id weight sum. */
  lemma {:induction false} SliceTotalIsWeightOfSliceIds(entries: seq<WasteEntry>, slices: seq<CategorySlice>)
    requires forall s :: s in slices ==> s.value == CategoryWeight(entries, s.category.id)
    ensures SliceTotal(slices) == WeightOfSliceIds(entries, slices)
    decreases |slices|
  {
    if slices != [] {
      var n := |slices| - 1;
      assert slices[n] in slices;
      forall s | s in slices[..n] ensures s.value == CategoryWeight(entries, s.category.id) { assert s in slices; }
      SliceTotalIsWeightOfSliceIds(entries, slices[..n]);
    }
  }

  /** With positive weights, a category that occurs weighs more than zero. */
  lemma {:induction false} OccurringCategoryWeighsSomething(entries: seq<WasteEntry>, e: WasteEntry)
    requires e in entries
    requires forall x :: x in entries ==> x.weightKg > 0.0
    ensures CategoryWeight(entries, e.categoryID) > 0.0
    decreases |entries|
  {
    var n := |entries| - 1;
    var p := entries[..n];
    assert entries == p + [entries[n]];
    CategoryWeightAppend(p, entries[n], e.categoryID);
    forall x | x in p ensures x.weightKg > 0.0 { assert x in entries; }
    if e in p {
      OccurringCategoryWeighsSomething(p, e);
    } else {
      assert e == entries[n];
      NonNegativeCategoryWeight(p, e.categoryID);
    }
  }

  /** With positive weights no category weight is negative. */
  lemma {:induction false} NonNegativeCategoryWeight(entries: seq<WasteEntry>, id: int)
    requires forall x :: x in entries ==> x.weightKg > 0.0
    ensures CategoryWeight(entries, id) >= 0.0
    decreases |entries|
  {
    if entries != [] {
      var n := |entries| - 1;
      var p := entries[..n];
      assert entries == p + [entries[n]];
      CategoryWeightAppend(p, entries[n], id);
      forall x | x in p ensures x.weightKg > 0.0 { assert x in entries; }
      NonNegativeCategoryWeight(p, id);
    }
  }

  /**
   * The chart's total agrees with the store's weight total for the period
   * when every entry of the period has a catalog category and a positive
   * weight; otherwise the slices leave out unknown ids and non-positive sums.
   */
  lemma SliceTotalMatchesStoreTotal(catalog: seq<Category>, entries: seq<WasteEntry>, start: Date, end: Date,
                                    slices: seq<CategorySlice>)
    requires IsSlicing(catalog, EntriesInRange(entries, start, end), slices)
    requires forall e :: e in EntriesInRange(entries, start, end) ==>
               Lookup(catalog, e.categoryID).Some? && e.weightKg > 0.0
    ensures SliceTotal(slices) == Store.TotalWeightKg(entries, start, end, None)
  {
    var inRange := EntriesInRange(entries, start, end);
    forall e | e in inRange ensures e.categoryID in SliceIds(slices) {
      OccurringCategoryWeighsSomething(inRange, e);
    }
    SliceTotalIsWeightOfSliceIds(inRange, slices);
    WeightOfSliceIdsCovers(inRange, slices);
  }

  // ---------------------------------------------------------------------------
  // The donut layout

  /**
   * `result` lays out the first `|result|` slices: in slice order, the first
   * starting at -90 degrees, each starting where the previous one ended and
   * spanning its share of `total` in degrees.
   */
  ghost predicate LaidOut(slices: seq<CategorySlice>, total: real, result: seq<Segment>)
    requires total > 0.0
  {
    && |result| <= |slices|
    && (forall k :: 0 <= k < |result| ==> result[k].slice == slices[k])
    && (|result| > 0 ==> result[0].start == ChartStartDegrees)
    && (forall k :: 0 < k < |result| ==> result[k].start == result[k - 1].end)
    && (forall k :: 0 <= k < |result| ==> result[k].end - result[k].start == slices[k].value / total * FullCircleDegrees)
  }

  /** Appending the next slice's segment, starting where the last one ended, keeps the layout. */
  lemma LaidOutStep(slices: seq<CategorySlice>, total: real, result: seq<Segment>, currentStart: real)
    requires total > 0.0 && |result| < |slices|
    requires LaidOut(slices, total, result)
    requires |result| == 0 ==> currentStart == ChartStartDegrees
    requires |result| > 0 ==> result[|result| - 1].end == currentStart
    ensures LaidOut(slices, total, result + [Segment(slices[|result|], currentStart,
                                                     currentStart + slices[|result|].value / total * FullCircleDegrees)])
  {
  }

  /**
   * `DonutChartView.segments`: nothing when the slice total is not positive;
   * otherwise one segment per slice, in slice order, starting at -90 degrees,
   * each starting where the previous one ended, each spanning its share of
   * 360 degrees, the last one ending at 270 degrees.
   */
  method Segments(slices: seq<CategorySlice>) returns (result: seq<Segment>)
    ensures SliceTotal(slices) <= 0.0 ==> result == []
    ensures SliceTotal(slices) > 0.0 ==> |result| == |slices|
    ensures forall i :: 0 <= i < |result| ==> result[i].slice == slices[i]
    ensures |result| > 0 ==> result[0].start == ChartStartDegrees
    ensures forall i :: 0 < i < |result| ==> result[i].start == result[i - 1].end
    ensures forall i :: 0 <= i < |result| ==>
              result[i].end - result[i].start == slices[i].value / SliceTotal(slices) * FullCircleDegrees
    ensures |result| > 0 ==> result[|result| - 1].end == ChartStartDegrees + FullCircleDegrees
  {
    result := [];
    var total := SliceTotal(slices);
    if total <= 0.0 {
      return;
    }
    var currentStart := ChartStartDegrees;
    for i := 0 to |slices|
      invariant |result| == i
      invariant LaidOut(slices, total, result)
      invariant currentStart == ChartStartDegrees + SliceTotal(slices[..i]) / total * FullCircleDegrees
      invariant i > 0 ==> result[i - 1].end == currentStart
    {
      var angleDelta := (slices[i].value / total) * FullCircleDegrees;
      LaidOutStep(slices, total, result, currentStart);
      ShareStep(slices, i, total);
      result := result + [Segment(slices[i], currentStart, currentStart + angleDelta)];
      currentStart := currentStart + angleDelta;
    }
    LaidOutWhole(slices, result, currentStart);
  }

  /** A layout of every slice ends where it started, a full turn later. */
  lemma LaidOutWhole(slices: seq<CategorySlice>, result: seq<Segment>, currentStart: real)
    requires SliceTotal(slices) > 0.0
    requires LaidOut(slices, SliceTotal(slices), result) && |result| == |slices|
    requires currentStart == ChartStartDegrees + SliceTotal(slices[..|slices|]) / SliceTotal(slices) * FullCircleDegrees
    requires |result| > 0 ==> result[|result| - 1].end == currentStart
    ensures |result| > 0 ==> result[|result| - 1].end == ChartStartDegrees + FullCircleDegrees
  {
    WholeShare(SliceTotal(slices));
  }

  /** Adding one slice's span to the span of a prefix gives the span of the longer prefix. */
  lemma ShareStep(slices: seq<CategorySlice>, i: nat, total: real)
    requires i < |slices| && total > 0.0
    ensures ChartStartDegrees + SliceTotal(slices[..i]) / total * FullCircleDegrees + slices[i].value / total * FullCircleDegrees ==
            ChartStartDegrees + SliceTotal(slices[..i + 1]) / total * FullCircleDegrees
  {
    assert slices[..i + 1][..i] == slices[..i];
    var before, value := SliceTotal(slices[..i]), slices[i].value;
    assert SliceTotal(slices[..i + 1]) == before + value;
    assert before / total + value / total == (before + value) / total;
  }

  /** All slices together span the full circle. */
  lemma WholeShare(total: real)
    requires total > 0.0
    ensures ChartStartDegrees + total / total * FullCircleDegrees == ChartStartDegrees + FullCircleDegrees
  {
    assert total / total == 1.0;
  }

  /** Whether a segment's short title is drawn: its span is strictly greater than the threshold. */
  predicate ShowsLabel(segment: Segment) {
    segment.end - segment.start > LabelMinSpanDegrees
  }

  /**
   * For a laid-out segment the label rule is a share rule: the label is drawn
   * exactly when the slice is more than one thirtieth of the total.
   */
  lemma LabelShownExactlyAboveOneThirtieth(segment: Segment, total: real)
    requires total > 0.0
    requires segment.end - segment.start == segment.slice.value / total * FullCircleDegrees
    ensures ShowsLabel(segment) <==> segment.slice.value * 30.0 > total
  {
    var v := segment.slice.value;
    assert v / total * 360.0 == (v * 30.0 / total) * 12.0;
    if v * 30.0 > total {
      assert v * 30.0 / total > 1.0;
    } else {
      assert v * 30.0 / total <= 1.0;
    }
  }
}
