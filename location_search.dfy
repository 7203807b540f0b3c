/**
 * The search panel: the label shown beside each candidate, the location a chosen candidate
 * becomes, and the panel's query / results / dropdown state as the user types, searches and
 * picks. The geocoder's two answers are parameters of a search, as in `Mapbox.SearchPlaces`.
 */
module LocationSearch {
  import opened Wrappers
  import opened Text
  import opened Types
  import opened Mapbox

  // ---------------------------------------------------------------------------------------
  // The place-type label
  // ---------------------------------------------------------------------------------------

  /** `word.charAt(0).toUpperCase() + word.slice(1)`, with the upper-casing restricted to ASCII. */
  function Capitalize(w: string): (r: string)
    ensures |r| == |w|
  {
    if w == [] then [] else [UpperAscii(w[0])] + w[1..]
  }

  /** Every word capitalised, in order. */
  function CapitalizeAll(words: seq<string>): (r: seq<string>)
    ensures |r| == |words|
    ensures forall i :: 0 <= i < |r| ==> r[i] == Capitalize(words[i])
  {
    if words == [] then [] else [Capitalize(words[0])] + CapitalizeAll(words[1..])
  }

  /** The label of a category: split on `_`, each word capitalised, joined with single spaces. */
  function CategoryLabel(category: string): string {
    Join(CapitalizeAll(Split(category, '_')), " ")
  }

  /**
   * What the category label holds at position `i` of the category: a space for `_`, the
   * upper-cased character at the start of a word, the character itself elsewhere.
   */
  function LabelChar(category: string, i: nat): char
    requires i < |category|
  {
    if category[i] == '_' then ' '
    else if i == 0 || category[i - 1] == '_' then UpperAscii(category[i])
    else category[i]
  }

  /**
   * `getPlaceTypeLabel`: the first of poi, address, place, locality among the feature's tags
   * decides the label; a poi shows its category's label, or "Business" when the category is
   * absent or empty; no known tag gives "Location".
   */
  function PlaceTypeLabel(placeType: seq<string>, category: Option<string>): (shown: string)
    ensures "poi" !in placeType && "address" in placeType ==> shown == "Address"
    ensures "poi" in placeType && (category.None? || category.value == []) ==> shown == "Business"
    ensures "poi" in placeType && category.Some? && category.value != [] ==> shown == CategoryLabel(category.value)
  {
    if "poi" in placeType then
      if category.Some? && category.value != [] then CategoryLabel(category.value) else "Business"
    else if "address" in placeType then "Address"
    else if "place" in placeType then "Place"
    else if "locality" in placeType then "City"
    else "Location"
  }

  /** The tags in the order in which they take precedence, and the fixed label of each. */
  const Precedence: seq<string> := ["poi", "address", "place", "locality"]
  const FixedLabels: seq<string> := ["Business", "Address", "Place", "City"]

  /** The position in `order` of the first entry that is among `tags`, if any. */
  function FirstPresent(order: seq<string>, tags: seq<string>): (k: Option<nat>)
    ensures k.Some? ==> k.value < |order| && order[k.value] in tags
    ensures k.Some? ==> forall j :: 0 <= j < k.value ==> order[j] !in tags
    ensures k.None? ==> forall j :: 0 <= j < |order| ==> order[j] !in tags
  {
    if order == [] then None
    else if order[0] in tags then Some(0)
    else match FirstPresent(order[1..], tags)
      case None => None
      case Some(k) => Some(k + 1)
  }

  /**
   * The label from the precedence table: the fixed label of the first tag present, except that a
   * poi with a non-empty category shows the category's label.
   */
  function TableLabel(placeType: seq<string>, category: Option<string>): string {
    match FirstPresent(Precedence, placeType)
    case None => "Location"
    case Some(k) =>
      if k == 0 && category.Some? && category.value != [] then CategoryLabel(category.value)
      else FixedLabels[k]
  }

  /** The chain of tests in the component agrees with the precedence table. */
  lemma PlaceTypeLabelIsTable(placeType: seq<string>, category: Option<string>)
    ensures PlaceTypeLabel(placeType, category) == TableLabel(placeType, category)
  {
    var k := FirstPresent(Precedence, placeType);
    assert Precedence[0] == "poi" && Precedence[1] == "address";
    assert Precedence[2] == "place" && Precedence[3] == "locality";
    if k.Some? {
      assert Precedence[k.value] in placeType;
      if k.value >= 1 { assert Precedence[0] !in placeType; }
      if k.value >= 2 { assert Precedence[1] !in placeType; }
      if k.value >= 3 { assert Precedence[2] !in placeType; }
    } else {
      assert Precedence[0] !in placeType && Precedence[1] !in placeType;
      assert Precedence[2] !in placeType && Precedence[3] !in placeType;
    }
  }

  /** Only which tags are present matters, not their order or repetition. */
  lemma LabelDependsOnTagsOnly(t1: seq<string>, t2: seq<string>, category: Option<string>)
    requires forall x :: x in t1 <==> x in t2
    ensures PlaceTypeLabel(t1, category) == PlaceTypeLabel(t2, category)
  {
  }

  /** The category is read only for a poi. */
  lemma CategoryOnlyForPoi(placeType: seq<string>, c1: Option<string>, c2: Option<string>)
    requires "poi" !in placeType
    ensures PlaceTypeLabel(placeType, c1) == PlaceTypeLabel(placeType, c2)
    ensures PlaceTypeLabel(placeType, c1) in ["Address", "Place", "City", "Location"]
  {
  }

  /** Joining two or more parts puts the separator after the first. */
  lemma JoinCons(first: string, rest: seq<string>, sep: string)
    requires |rest| >= 1
    ensures Join([first] + rest, sep) == first + sep + Join(rest, sep)
  {
    assert ([first] + rest)[1..] == rest;
  }

  /** Splitting at the first `_` peels off the first word of the label. */
  lemma CategoryLabelStep(category: string)
    requires '_' in category
    ensures var k := IndexOfChar(category, '_');
      CategoryLabel(category) == Capitalize(category[..k]) + " " + CategoryLabel(category[k + 1..])
  {
    var k := IndexOfChar(category, '_');
    var rest := Split(category[k + 1..], '_');
    SplitAtFirst(category, '_');
    CapitalizeAllCons(category[..k], rest);
    JoinCons(Capitalize(category[..k]), CapitalizeAll(rest), " ");
  }

  lemma SplitAtFirst(s: string, sep: char)
    requires sep in s
    ensures Split(s, sep) == [s[..IndexOfChar(s, sep)]] + Split(s[IndexOfChar(s, sep) + 1..], sep)
  {
  }

  lemma CapitalizeAllCons(word: string, rest: seq<string>)
    ensures CapitalizeAll([word] + rest) == [Capitalize(word)] + CapitalizeAll(rest)
  {
    assert ([word] + rest)[1..] == rest;
  }

  /**
   * The label keeps the category's length and, position by position, is `LabelChar`: every `_`
   * becomes a space, the first character of each word is upper-cased, and nothing else changes.
   */
  lemma {:induction false} CategoryLabelByPosition(category: string)
    ensures |CategoryLabel(category)| == |category|
    ensures forall i :: 0 <= i < |category| ==> CategoryLabel(category)[i] == LabelChar(category, i)
    decreases |category|
  {
    if '_' !in category {
      OneWordByPosition(category);
    } else {
      var k := IndexOfChar(category, '_');
      CategoryLabelByPosition(category[k + 1..]);
      LaterWordsByPosition(category);
    }
  }

  /** A category without `_` is shown with its first character upper-cased. */
  lemma OneWordByPosition(category: string)
    requires '_' !in category
    ensures |CategoryLabel(category)| == |category|
    ensures forall i :: 0 <= i < |category| ==> CategoryLabel(category)[i] == LabelChar(category, i)
  {
    assert Split(category, '_') == [category];
    assert CapitalizeAll([category]) == [Capitalize(category)];
    forall i | 0 <= i < |category| ensures CategoryLabel(category)[i] == LabelChar(category, i) {
      if i > 0 {
        assert category[i - 1] in category;
      }
    }
  }

  /** When the words after the first `_` are shown position by position, so is the whole category. */
  lemma LaterWordsByPosition(category: string)
    requires '_' in category
    requires var rest := category[IndexOfChar(category, '_') + 1..];
      |CategoryLabel(rest)| == |rest|
      && forall i :: 0 <= i < |rest| ==> CategoryLabel(rest)[i] == LabelChar(rest, i)
    ensures |CategoryLabel(category)| == |category|
    ensures forall i :: 0 <= i < |category| ==> CategoryLabel(category)[i] == LabelChar(category, i)
  {
    var k := IndexOfChar(category, '_');
    var head := category[..k];
    var rest := category[k + 1..];
    CategoryLabelStep(category);
    var lbl := CategoryLabel(category);
    assert lbl == Capitalize(head) + " " + CategoryLabel(rest);
    forall i | 0 <= i < |category| ensures lbl[i] == LabelChar(category, i) {
      if i < k {
        assert category[i] == head[i] && category[i] in head;
        if i > 0 {
          assert category[i - 1] == head[i - 1] && category[i - 1] in head;
        }
      } else if i > k {
        assert lbl[i] == CategoryLabel(rest)[i - k - 1];
        assert rest[i - k - 1] == category[i];
        if i > k + 1 {
          assert rest[i - k - 2] == category[i - 1];
        }
      }
    }
  }


  /** A category of two words separated by one `_` is shown as the two words capitalised. */
  lemma TwoWordLabel(first: string, second: string)
    requires '_' !in first && '_' !in second
    ensures CategoryLabel(first + "_" + second) == Capitalize(first) + " " + Capitalize(second)
  {
    var c := first + "_" + second;
    assert c[|first|] == '_';
    assert '_' !in c[..|first|];
    assert IndexOfChar(c, '_') == |first|;
    assert c[..|first|] == first && c[|first| + 1..] == second;
    CategoryLabelStep(c);
    SplitAtFirst(c, '_');
    assert Split(second, '_') == [second];
    assert CapitalizeAll([second]) == [Capitalize(second)];
  }

  /** The example from the component: `coffee_shop` is shown as `Coffee Shop`. */
  lemma CoffeeShopLabel()
    ensures CategoryLabel("coffee" + "_" + "shop") == "Coffee Shop"
  {
    TwoWordLabel("coffee", "shop");
    assert Capitalize("coffee") == "Coffee" && Capitalize("shop") == "Shop";
  }

  /** A query worth searching: its trimmed text is at least two UTF-16 code units long. */
  predicate SearchableQuery(value: string) {
    Utf16Length(Trim(value)) >= 2
  }

  /**
   * The search threshold counts UTF-16 code units: one character outside the Basic Multilingual
   * Plane, such as an emoji, is already long enough, while one ordinary letter is not.
   */
  lemma ThresholdCountsCodeUnits(c: char, d: char)
    requires c >= '\U{10000}' && d < '\U{10000}' && !IsJsWhitespace(d)
    ensures SearchableQuery([c])
    ensures !SearchableQuery([d])
  {
    assert !IsJsWhitespace(c);
    TrimTrimmed([c]);
    TrimTrimmed([d]);
    AstralCharLength(c);
  }

  // ---------------------------------------------------------------------------------------
  // The panel state
  // ---------------------------------------------------------------------------------------

  /** The search panel. An absent token is the empty string. */
  class SearchPanel {
    const mapboxToken: string
    var query: string
    var results: seq<Feature>
    var isLoading: bool
    var error: Option<string>
    var showDropdown: bool

    /** The dropdown is open only over a non-empty list of candidates. */
    predicate DropdownHasResults()
      reads this
    {
      showDropdown ==> |results| > 0
    }

    constructor(token: string)
      ensures mapboxToken == token
      ensures query == [] && results == [] && !isLoading && error.None? && !showDropdown
      ensures DropdownHasResults()
    {
      mapboxToken := token;
      query := [];
      results := [];
      isLoading := false;
      error := None;
      showDropdown := false;
    }

    /**
     * `handleInputChange`: the query follows the input; a search is scheduled (returned `true`)
     * exactly when the trimmed input is at least two UTF-16 code units long (so one emoji is
     * enough), and otherwise the candidates are cleared and the dropdown closed.
     */
    method HandleInputChange(value: string) returns (scheduled: bool)
      requires DropdownHasResults()
      modifies this
      ensures query == value
      ensures scheduled <==> SearchableQuery(value)
      ensures scheduled ==> results == old(results) && showDropdown == old(showDropdown)
      ensures !scheduled ==> results == [] && !showDropdown
      ensures isLoading == old(isLoading) && error == old(error)
      ensures DropdownHasResults()
    {
      query := value;
      if SearchableQuery(value) {
        scheduled := true;
      } else {
        scheduled := false;
        results := [];
        showDropdown := false;
      }
    }

    /**
     * `performSearch`, given what the two geocoder requests come to. A blank query or a missing
     * token changes nothing. Otherwise the candidates are the ranked answer and the dropdown opens
     * when there is at least one; on an error the error's message is shown, the candidates are
     * cleared and the dropdown closed. Loading is off at the end either way.
     */
    method PerformSearch(searchQuery: string, narrow: HttpReply, broad: HttpReply)
      requires DropdownHasResults()
      modifies this
      ensures query == old(query)
      ensures Trim(searchQuery) == [] || mapboxToken == [] ==>
        results == old(results) && isLoading == old(isLoading) && error == old(error)
        && showDropdown == old(showDropdown)
      ensures Trim(searchQuery) != [] && mapboxToken != [] ==> !isLoading
      ensures Trim(searchQuery) != [] && mapboxToken != []
              && SearchPlaces(searchQuery, mapboxToken, narrow, broad).Success? ==>
        results == SearchPlaces(searchQuery, mapboxToken, narrow, broad).value.features
        && error.None? && (showDropdown <==> |results| > 0)
      ensures Trim(searchQuery) != [] && mapboxToken != []
              && SearchPlaces(searchQuery, mapboxToken, narrow, broad).Failure? ==>
        results == [] && !showDropdown
        && error == Some(SearchPlaces(searchQuery, mapboxToken, narrow, broad).error.message)
      ensures DropdownHasResults()
    {
      if Trim(searchQuery) == [] || mapboxToken == [] {
        return;
      }
      isLoading := true;
      error := None;
      var response := SearchPlaces(searchQuery, mapboxToken, narrow, broad);
      ShowResponse(response);
    }

    /** The settling half of `performSearch`: the answer, or the error's message, replaces the candidates. */
    method ShowResponse(response: Result<MapboxResponse, MapboxError>)
      modifies this
      ensures query == old(query) && !isLoading
      ensures response.Success? ==>
        results == response.value.features && error.None? && (showDropdown <==> |results| > 0)
      ensures response.Failure? ==>
        results == [] && !showDropdown && error == Some(response.error.message)
      ensures DropdownHasResults()
    {
      match response {
        case Success(data) =>
          results := data.features;
          showDropdown := |data.features| > 0;
          error := None;
        case Failure(e) =>
          error := Some(e.message);
          results := [];
          showDropdown := false;
      }
      isLoading := false;
    }

    /**
     * `handleResultSelect`: returns the location handed to `onLocationAdd`, which keeps the
     * feature's id; the query and the candidates are cleared and the dropdown closed.
     */
    method HandleResultSelect(feature: Feature) returns (location: Location)
      modifies this
      ensures location == FeatureLocation(feature, feature.id)
      ensures location.id == feature.id && location.name == feature.text && location.address == feature.placeName
      ensures location.coordinates == Coordinates(feature.geometry.0, feature.geometry.1)
      ensures query == [] && results == [] && !showDropdown
      ensures isLoading == old(isLoading) && error == old(error)
      ensures DropdownHasResults()
    {
      location := FeatureLocation(feature, feature.id);
      query := [];
      results := [];
      showDropdown := false;
    }
  }
}
