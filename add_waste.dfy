/**
 * The add-entry form: cleaning and parsing the two number fields, the form's
 * validity rule, the grams-to-kilograms conversion, and the save action that
 * hands the converted values to the store.
 */
module AddWaste {
  import opened Wrappers
  import opened Catalog
  import opened Store

  /** The form collects grams; the store keeps kilograms. */
  const GramsPerKilogram: real := 1000.0

  /** `replacingOccurrences(of: " ", with: "")`, scanning from the front. */
  function RemovingSpaces(text: string): string
    decreases |text|
  {
    if text == [] then []
    else (if text[0] == ' ' then [] else [text[0]]) + RemovingSpaces(text[1..])
  }

  /** Removing spaces leaves no space and every other character as often as before. */
  lemma {:induction false} RemovingSpacesKeepsOthers(text: string)
    ensures ' ' !in RemovingSpaces(text)
    ensures |RemovingSpaces(text)| == |text| - multiset(text)[' ']
    ensures forall c :: c != ' ' ==> multiset(RemovingSpaces(text))[c] == multiset(text)[c]
    decreases |text|
  {
    if text != [] {
      assert text == [text[0]] + text[1..];
      RemovingSpacesKeepsOthers(text[1..]);
    }
  }

  /** `replacingOccurrences(of: ",", with: ".")`, scanning from the front. */
  function CommasToDots(text: string): string
    decreases |text|
  {
    if text == [] then []
    else [if text[0] == ',' then '.' else text[0]] + CommasToDots(text[1..])
  }

  /** Replacing commas leaves no comma, one dot more per comma, and every other character as often as before. */
  lemma {:induction false} CommasToDotsKeepsOthers(text: string)
    ensures ',' !in CommasToDots(text)
    ensures |CommasToDots(text)| == |text|
    ensures multiset(CommasToDots(text))['.'] == multiset(text)['.'] + multiset(text)[',']
    ensures forall c :: c != ',' && c != '.' ==> multiset(CommasToDots(text))[c] == multiset(text)[c]
    decreases |text|
  {
    if text != [] {
      assert text == [text[0]] + text[1..];
      CommasToDotsKeepsOthers(text[1..]);
    }
  }

  /**
   * The cleaning step of `parseLocalizedDouble`: spaces removed, then commas
   * turned into dots. The result has neither, one dot more for every comma,
   * and every other character as often as before.
   */
  function Cleaned(text: string): (r: string)
    ensures ' ' !in r && ',' !in r
    ensures |r| == |text| - multiset(text)[' ']
    ensures multiset(r)['.'] == multiset(text)['.'] + multiset(text)[',']
    ensures forall c :: c != ' ' && c != ',' && c != '.' ==> multiset(r)[c] == multiset(text)[c]
  {
    var spaceless := RemovingSpaces(text);
    RemovingSpacesKeepsOthers(text);
    CommasToDotsKeepsOthers(spaceless);
    var r := CommasToDots(spaceless);
    assert multiset(spaceless)[' '] == 0;
    assert multiset(r)[' '] == 0;
    r
  }

  /** Removing spaces distributes over concatenation. */
  lemma {:induction false} RemovingSpacesConcat(a: string, b: string)
    ensures RemovingSpaces(a + b) == RemovingSpaces(a) + RemovingSpaces(b)
    decreases |a|
  {
    if a == [] {
      assert a + b == b;
    } else {
      assert (a + b)[0] == a[0];
      assert (a + b)[1..] == a[1..] + b;
      RemovingSpacesConcat(a[1..], b);
    }
  }

  /** Replacing commas distributes over concatenation. */
  lemma {:induction false} CommasToDotsConcat(a: string, b: string)
    ensures CommasToDots(a + b) == CommasToDots(a) + CommasToDots(b)
    decreases |a|
  {
    if a == [] {
      assert a + b == b;
    } else {
      assert (a + b)[0] == a[0];
      assert (a + b)[1..] == a[1..] + b;
      CommasToDotsConcat(a[1..], b);
    }
  }

  /** Cleaning distributes over concatenation, so it keeps the order of what it keeps. */
  lemma CleanedConcat(a: string, b: string)
    ensures Cleaned(a + b) == Cleaned(a) + Cleaned(b)
  {
    RemovingSpacesConcat(a, b);
    CommasToDotsConcat(RemovingSpaces(a), RemovingSpaces(b));
  }

  /** Cleaning a single character: a space disappears, a comma becomes a dot, anything else stays. */
  lemma CleanedOneChar(c: char)
    ensures Cleaned([c]) == if c == ' ' then [] else if c == ',' then ['.'] else [c]
  {
    assert [c][1..] == [];
  }

  /** Removing spaces from a text without spaces changes nothing. */
  lemma {:induction false} RemovingSpacesFixesSpaceless(text: string)
    requires ' ' !in text
    ensures RemovingSpaces(text) == text
    decreases |text|
  {
    if text != [] {
      assert text == [text[0]] + text[1..];
      assert text[0] != ' ';
      assert ' ' !in text[1..];
      RemovingSpacesFixesSpaceless(text[1..]);
    }
  }

  /** Replacing commas in a text without commas changes nothing. */
  lemma {:induction false} CommasToDotsFixesCommaless(text: string)
    requires ',' !in text
    ensures CommasToDots(text) == text
    decreases |text|
  {
    if text != [] {
      assert text == [text[0]] + text[1..];
      assert text[0] != ',';
      assert ',' !in text[1..];
      CommasToDotsFixesCommaless(text[1..]);
    }
  }

  /** Cleaning an already cleaned text changes nothing. */
  lemma CleanedIdempotent(text: string)
    ensures Cleaned(Cleaned(text)) == Cleaned(text)
  {
    var once := Cleaned(text);
    RemovingSpacesFixesSpaceless(once);
    CommasToDotsFixesCommaless(once);
  }

  /** `parseLocalizedDouble`: `parse` stands for the library conversion `Double(_:)`. */
  function ParseLocalizedDouble(parse: string -> Option<real>, text: string): Option<real> {
    parse(Cleaned(text))
  }

  /** `isFormValid`: a category is chosen, both texts parse, and neither is empty. */
  predicate IsFormValid(parse: string -> Option<real>, selected: Option<Category>,
                        weightGramsText: string, pricePerKgText: string)
  {
    && selected.Some?
    && ParseLocalizedDouble(parse, weightGramsText).Some?
    && ParseLocalizedDouble(parse, pricePerKgText).Some?
    && weightGramsText != []
    && pricePerKgText != []
  }

  /** `weightKg`: the parsed grams in kilograms, or 0 when the text does not parse. */
  function WeightKg(parse: string -> Option<real>, weightGramsText: string): (r: real)
    ensures ParseLocalizedDouble(parse, weightGramsText).Some? ==>
              r * GramsPerKilogram == ParseLocalizedDouble(parse, weightGramsText).value
    ensures ParseLocalizedDouble(parse, weightGramsText).None? ==> r == 0.0
  {
    ParseLocalizedDouble(parse, weightGramsText).GetOr(0.0) / GramsPerKilogram
  }

  /** The arguments `save` passes to `addEntry`. */
  datatype AddRequest = AddRequest(category: Category, weightKg: real, pricePerKg: real)

  /**
   * The guard and conversion of `save`: nothing when no category is chosen
   * or a text does not parse; otherwise the category, the weight in
   * kilograms (equal to what the unused `weightKg` property computes) and
   * the price as parsed.
   * No sign check is made.
   */
  function SaveRequest(parse: string -> Option<real>, selected: Option<Category>,
                       weightGramsText: string, pricePerKgText: string): (r: Option<AddRequest>)
    ensures r.None? <==> selected.None? || ParseLocalizedDouble(parse, weightGramsText).None? ||
                         ParseLocalizedDouble(parse, pricePerKgText).None?
    ensures r.Some? ==> && r.value.category == selected.value
                        && r.value.weightKg * GramsPerKilogram == ParseLocalizedDouble(parse, weightGramsText).value
                        && r.value.weightKg == WeightKg(parse, weightGramsText)
                        && r.value.pricePerKg == ParseLocalizedDouble(parse, pricePerKgText).value
  {
    match (selected, ParseLocalizedDouble(parse, weightGramsText), ParseLocalizedDouble(parse, pricePerKgText))
    case (Some(category), Some(weightGrams), Some(pricePerKg)) =>
      Some(AddRequest(category, weightGrams / GramsPerKilogram, pricePerKg))
    case _ => None
  }

  /**
   * A valid form always saves. Conversely a form that saves is valid as soon
   * as the number conversion rejects the empty text, as `Double("")` does:
   * the emptiness tests of `isFormValid` then add nothing to the guard.
   */
  lemma FormValidityMatchesSave(parse: string -> Option<real>, selected: Option<Category>,
                                weightGramsText: string, pricePerKgText: string)
    ensures IsFormValid(parse, selected, weightGramsText, pricePerKgText) ==>
              SaveRequest(parse, selected, weightGramsText, pricePerKgText).Some?
    ensures parse([]) == None ==>
              (SaveRequest(parse, selected, weightGramsText, pricePerKgText).Some? ==>
                 IsFormValid(parse, selected, weightGramsText, pricePerKgText))
  {
    assert Cleaned([]) == [];
  }

  /**
   * `save`: when the guard passes, calls `addEntry` once with the converted
   * values (the date and the new id are those `addEntry` takes by default);
   * otherwise leaves the store as it was.
   */
  method Save(store: WasteStore, parse: string -> Option<real>, selected: Option<Category>,
              weightGramsText: string, pricePerKgText: string, date: Date, freshId: Uuid)
    modifies store
    ensures SaveRequest(parse, selected, weightGramsText, pricePerKgText).None? ==>
              store.entries == old(store.entries) && store.savedSnapshots == old(store.savedSnapshots)
    ensures SaveRequest(parse, selected, weightGramsText, pricePerKgText).Some? ==>
              var request := SaveRequest(parse, selected, weightGramsText, pricePerKgText).value;
              && store.entries == old(store.entries) +
                                  [WasteEntry(freshId, date, request.category.id, request.weightKg, request.pricePerKg)]
              && store.savedSnapshots == old(store.savedSnapshots) + [store.entries]
  {
    var request := SaveRequest(parse, selected, weightGramsText, pricePerKgText);
    if request.Some? {
      store.AddEntry(request.value.category, request.value.weightKg, request.value.pricePerKg, date, freshId);
    }
  }
}
