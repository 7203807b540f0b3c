/**
 * The place search: input guards, the HTTP status to error mapping, the widen-on-demand merge of
 * a narrow (POI only) and a broad geocoding answer, and the POI-first, relevance-descending sort.
 * The two HTTP exchanges are parameters: what each request would have answered.
 */
module Mapbox {
  import opened Wrappers
  import opened Text
  import opened Types

  /** `MapboxError`: a message and, for HTTP failures, the status. */
  datatype MapboxError = MapboxError(message: string, status: Option<nat>)

  /**
   * What one `fetch` came to: a response with its status, status text and parsed body, or a
   * rejection. `fetchTypeError` tells whether the rejection was a `TypeError` whose message
   * mentions `fetch` (how the host reports a network failure).
   */
  datatype HttpReply =
    | Reply(status: nat, statusText: string, body: MapboxResponse)
    | Rejected(fetchTypeError: bool)

  /** `response.ok`. */
  predicate IsOk(status: nat) {
    200 <= status <= 299
  }

  /** Below this many narrow results the broad request is made. */
  const MinNarrowResults: nat := 3
  /** The merged list is cut to this many features. */
  const MaxResults: nat := 10

  /** The two guards checked before any request, in their order. */
  function InputError(query: string, token: string): (e: Option<MapboxError>)
    ensures Trim(query) == [] ==> e == Some(MapboxError("Query cannot be empty", None))
    ensures Trim(query) != [] && token == [] ==> e == Some(MapboxError("Mapbox token is required", None))
    ensures e.None? <==> Trim(query) != [] && token != []
  {
    if Trim(query) == [] then Some(MapboxError("Query cannot be empty", None))
    else if token == [] then Some(MapboxError("Mapbox token is required", None))
    else None
  }

  /** The error a non-OK status of the narrow request becomes. */
  function StatusError(status: nat, statusText: string): (e: MapboxError)
    ensures e.status == Some(status)
    ensures status == 401 ==> e.message == "Invalid Mapbox token"
    ensures status == 429 ==> e.message == "Rate limit exceeded. Please try again later."
    ensures status != 401 && status != 429 ==>
      e.message == "HTTP " + NatToString(status) + ": " + statusText
  {
    if status == 401 then MapboxError("Invalid Mapbox token", Some(401))
    else if status == 429 then MapboxError("Rate limit exceeded. Please try again later.", Some(429))
    else MapboxError("HTTP " + NatToString(status) + ": " + statusText, Some(status))
  }

  /** The generic `HTTP <status>: <text>` message spells the status in decimal, so it can be read back. */
  lemma {:induction false} StatusMessageNamesStatus(status: nat, statusText: string)
    requires status != 401 && status != 429
    ensures var m := StatusError(status, statusText).message;
      var digits := m[5..5 + |NatToString(status)|];
      StartsWith(m, "HTTP ") && IsDigits(digits) && DigitsValue(digits) == status
  {
    var d := NatToString(status);
    SpelledBetween("HTTP ", d, ": ", statusText);
    DigitsRoundTrip(status);
  }

  lemma SpelledBetween(p: string, d: string, q: string, r: string)
    ensures StartsWith(p + d + q + r, p) && (p + d + q + r)[|p|..|p| + |d|] == d
  {
    assert (p + d + q + r)[..|p|] == p;
  }

  // ---------------------------------------------------------------------------------------
  // Ranking
  // ---------------------------------------------------------------------------------------

  /** `place_type.includes('poi')`. */
  predicate IsPoi(f: Feature) {
    "poi" in f.placeType
  }

  /**
   * `properties?.relevance || relevance || 0`: an absent relevance and a relevance of 0 both
   * fall through to the next candidate.
   */
  function Score(f: Feature): (s: real)
    ensures f.properties.relevance.Some? && f.properties.relevance.value != 0.0 ==>
      s == f.properties.relevance.value
    ensures (f.properties.relevance.None? || f.properties.relevance.value == 0.0) ==>
      s == (if f.relevance.Some? then f.relevance.value else 0.0)
  {
    if f.properties.relevance.Some? && f.properties.relevance.value != 0.0 then f.properties.relevance.value
    else if f.relevance.Some? && f.relevance.value != 0.0 then f.relevance.value
    else 0.0
  }

  /** The comparator handed to `sort`: negative puts `a` first, positive puts `b` first. */
  function Compare(a: Feature, b: Feature): real {
    if IsPoi(a) && !IsPoi(b) then -1.0
    else if !IsPoi(a) && IsPoi(b) then 1.0
    else Score(b) - Score(a)
  }

  /** `a` may stand before `b` in the sorted output. */
  predicate NotAfter(a: Feature, b: Feature) {
    Compare(a, b) <= 0.0
  }

  /** The comparator orders by the key (POI first, then higher score), and ties exactly on equal keys. */
  lemma CompareIsKeyOrder(a: Feature, b: Feature)
    ensures NotAfter(a, b) <==>
      (IsPoi(a) && !IsPoi(b)) || (IsPoi(a) == IsPoi(b) && Score(a) >= Score(b))
    ensures Compare(a, b) == 0.0 <==> IsPoi(a) == IsPoi(b) && Score(a) == Score(b)
    ensures Compare(a, b) == -Compare(b, a)
  {
  }

  predicate Sorted(s: seq<Feature>) {
    forall i, j :: 0 <= i < j < |s| ==> NotAfter(s[i], s[j])
  }

  /** Places `x` before the first element it does not come after: before its equals, so earlier input stays earlier. */
  function Insert(x: Feature, s: seq<Feature>): (r: seq<Feature>)
    requires Sorted(s)
    ensures multiset(r) == multiset(s) + multiset{x}
    ensures Sorted(r)
  {
    if s == [] then [x]
    else if NotAfter(x, s[0]) then
      BeforeAll(x, s);
      ConsSorted(x, s);
      [x] + s
    else
      var ins := Insert(x, s[1..]);
      HeadBeforeInserted(x, s, ins);
      ConsSorted(s[0], ins);
      assert s == [s[0]] + s[1..];
      [s[0]] + ins
  }

  /** What may stand before the head of a sorted list may stand before all of it. */
  lemma BeforeAll(x: Feature, s: seq<Feature>)
    requires Sorted(s) && s != [] && NotAfter(x, s[0])
    ensures forall j :: 0 <= j < |s| ==> NotAfter(x, s[j])
  {
    forall j | 0 <= j < |s| ensures NotAfter(x, s[j]) {
      assert NotAfter(s[0], s[j]) || j == 0;
    }
  }

  /** When `x` comes after the head, the head may stand before the tail with `x` inserted. */
  lemma HeadBeforeInserted(x: Feature, s: seq<Feature>, ins: seq<Feature>)
    requires Sorted(s) && s != [] && !NotAfter(x, s[0])
    requires multiset(ins) == multiset(s[1..]) + multiset{x}
    ensures forall j :: 0 <= j < |ins| ==> NotAfter(s[0], ins[j])
  {
    forall j | 0 <= j < |ins| ensures NotAfter(s[0], ins[j]) {
      InsertedMember(ins[j], x, s[1..], ins);
      if ins[j] != x {
        var k :| 0 <= k < |s[1..]| && s[1..][k] == ins[j];
        assert s[k + 1] == ins[j];
      }
    }
  }

  /** An element of a list whose multiset is `rest` plus `x` is `x` or an element of `rest`. */
  lemma InsertedMember(y: Feature, x: Feature, rest: seq<Feature>, ins: seq<Feature>)
    requires multiset(ins) == multiset(rest) + multiset{x}
    requires y in ins
    ensures y == x || y in rest
  {
    assert y in multiset(ins);
  }

  /** A sorted list stays sorted behind a head that may stand before all of it. */
  lemma ConsSorted(h: Feature, s: seq<Feature>)
    requires Sorted(s)
    requires forall j :: 0 <= j < |s| ==> NotAfter(h, s[j])
    ensures Sorted([h] + s)
  {
    forall i, j | 0 <= i < j < |[h] + s| ensures NotAfter(([h] + s)[i], ([h] + s)[j]) {
      assert ([h] + s)[j] == s[j - 1];
      if i > 0 {
        assert ([h] + s)[i] == s[i - 1];
      }
    }
  }

  /**
   * `features.sort(Compare)`: `Array.prototype.sort` is stable, so this is the stable sort by the
   * comparator, written as an insertion sort.
   */
  function RankSort(s: seq<Feature>): (r: seq<Feature>)
    ensures multiset(r) == multiset(s)
    ensures Sorted(r)
  {
    if s == [] then []
    else
      assert s == [s[0]] + s[1..];
      Insert(s[0], RankSort(s[1..]))
  }

  /** Every POI precedes every non-POI in a sorted list. */
  lemma PoiFirst(s: seq<Feature>, i: int, j: int)
    requires Sorted(s) && 0 <= i < j < |s| && IsPoi(s[j])
    ensures IsPoi(s[i])
  {
    assert NotAfter(s[i], s[j]);
  }

  /** Within one class (POI or not) the effective score never increases along a sorted list. */
  lemma ScoreNonIncreasing(s: seq<Feature>, i: int, j: int)
    requires Sorted(s) && 0 <= i < j < |s| && IsPoi(s[i]) == IsPoi(s[j])
    ensures Score(s[i]) >= Score(s[j])
  {
    assert NotAfter(s[i], s[j]);
  }

  /** The features whose key (POI flag, score) is `k`, in list order. */
  function WithKey(s: seq<Feature>, k: (bool, real)): (r: seq<Feature>)
    ensures forall f :: f in r ==> f in s && IsPoi(f) == k.0 && Score(f) == k.1
  {
    if s == [] then []
    else (if IsPoi(s[0]) == k.0 && Score(s[0]) == k.1 then [s[0]] else []) + WithKey(s[1..], k)
  }

  lemma {:induction false} InsertWithKey(x: Feature, s: seq<Feature>, k: (bool, real))
    requires Sorted(s)
    ensures WithKey(Insert(x, s), k)
         == (if IsPoi(x) == k.0 && Score(x) == k.1 then [x] else []) + WithKey(s, k)
  {
    var hit := IsPoi(x) == k.0 && Score(x) == k.1;
    var xs: seq<Feature> := if hit then [x] else [];
    if s == [] {
      assert Insert(x, s) == [x];
      assert WithKey([x], k) == xs + WithKey([x][1..], k);
    } else if NotAfter(x, s[0]) {
      assert Insert(x, s) == [x] + s;
      assert ([x] + s)[0] == x && ([x] + s)[1..] == s;
      assert WithKey([x] + s, k) == xs + WithKey(s, k);
    } else {
      var tail := Insert(x, s[1..]);
      var r := [s[0]] + tail;
      assert Insert(x, s) == r;
      assert r[0] == s[0] && r[1..] == tail;
      InsertWithKey(x, s[1..], k);
      var head := if IsPoi(s[0]) == k.0 && Score(s[0]) == k.1 then [s[0]] else [];
      assert WithKey(r, k) == head + (xs + WithKey(s[1..], k));
      assert WithKey(s, k) == head + WithKey(s[1..], k);
      // s[0] comes strictly before x, so when x has key k, s[0] does not
      assert hit ==> head == [];
      SwapEmpty(head, xs, WithKey(s[1..], k));
    }
  }

  lemma SwapEmpty<T>(a: seq<T>, b: seq<T>, w: seq<T>)
    requires a == [] || b == []
    ensures a + (b + w) == b + (a + w)
  {
  }

  /** Stability: features with equal keys keep their relative input order. */
  lemma {:induction false} RankSortStable(s: seq<Feature>, k: (bool, real))
    ensures WithKey(RankSort(s), k) == WithKey(s, k)
  {
    if s != [] {
      RankSortStable(s[1..], k);
      InsertWithKey(s[0], RankSort(s[1..]), k);
    }
  }

  // ---------------------------------------------------------------------------------------
  // Merge
  // ---------------------------------------------------------------------------------------

  function PoiOnly(s: seq<Feature>): (r: seq<Feature>)
    ensures forall f :: f in r <==> f in s && IsPoi(f)
  {
    if s == [] then [] else (if IsPoi(s[0]) then [s[0]] else []) + PoiOnly(s[1..])
  }

  function NonPoiOnly(s: seq<Feature>): (r: seq<Feature>)
    ensures forall f :: f in r <==> f in s && !IsPoi(f)
  {
    if s == [] then [] else (if IsPoi(s[0]) then [] else [s[0]]) + NonPoiOnly(s[1..])
  }

  /** On one feature, each filter keeps it exactly when it is in the filter's class. */
  lemma FiltersOfOne(f: Feature)
    ensures PoiOnly([f]) == if IsPoi(f) then [f] else []
    ensures NonPoiOnly([f]) == if IsPoi(f) then [] else [f]
  {
    assert [f][1..] == [];
  }

  /** The filters keep order and repeats: they distribute over concatenation. */
  lemma FiltersAppend(a: seq<Feature>, b: seq<Feature>)
    ensures PoiOnly(a + b) == PoiOnly(a) + PoiOnly(b)
    ensures NonPoiOnly(a + b) == NonPoiOnly(a) + NonPoiOnly(b)
  {
    PoiOnlyAppend(a, b);
    NonPoiOnlyAppend(a, b);
  }

  lemma {:induction false} PoiOnlyAppend(a: seq<Feature>, b: seq<Feature>)
    ensures PoiOnly(a + b) == PoiOnly(a) + PoiOnly(b)
    decreases |a|
  {
    if a != [] {
      var h := if IsPoi(a[0]) then [a[0]] else [];
      assert (a + b)[0] == a[0] && (a + b)[1..] == a[1..] + b;
      calc {
        PoiOnly(a + b);
        h + PoiOnly(a[1..] + b);
      == { PoiOnlyAppend(a[1..], b); }
        h + (PoiOnly(a[1..]) + PoiOnly(b));
        (h + PoiOnly(a[1..])) + PoiOnly(b);
        PoiOnly(a) + PoiOnly(b);
      }
    } else {
      assert a + b == b;
    }
  }

  lemma {:induction false} NonPoiOnlyAppend(a: seq<Feature>, b: seq<Feature>)
    ensures NonPoiOnly(a + b) == NonPoiOnly(a) + NonPoiOnly(b)
    decreases |a|
  {
    if a != [] {
      var h := if IsPoi(a[0]) then [] else [a[0]];
      assert (a + b)[0] == a[0] && (a + b)[1..] == a[1..] + b;
      calc {
        NonPoiOnly(a + b);
        h + NonPoiOnly(a[1..] + b);
      == { NonPoiOnlyAppend(a[1..], b); }
        h + (NonPoiOnly(a[1..]) + NonPoiOnly(b));
        (h + NonPoiOnly(a[1..])) + NonPoiOnly(b);
        NonPoiOnly(a) + NonPoiOnly(b);
      }
    } else {
      assert a + b == b;
    }
  }


  /** `slice(0, n)`. */
  function Take(s: seq<Feature>, n: nat): (r: seq<Feature>)
    ensures |r| == if |s| < n then |s| else n
    ensures r == s[..|r|]
  {
    if |s| <= n then s else s[..n]
  }

  /**
   * The features before sorting. With at least three narrow features the broad answer is never
   * looked at; otherwise an OK broad answer contributes its non-POI features after the narrow
   * POI features, cut to ten, and any other broad outcome keeps the narrow features as they are.
   */
  function Merge(narrow: seq<Feature>, broad: HttpReply): (r: seq<Feature>)
    ensures |narrow| >= MinNarrowResults ==> r == narrow
    ensures |narrow| < MinNarrowResults && broad.Reply? && IsOk(broad.status) ==>
      r == Take(PoiOnly(narrow) + NonPoiOnly(broad.body.features), MaxResults)
    ensures !(broad.Reply? && IsOk(broad.status)) ==> r == narrow
  {
    if |narrow| >= MinNarrowResults then narrow
    else if broad.Reply? && IsOk(broad.status) then
      Take(PoiOnly(narrow) + NonPoiOnly(broad.body.features), MaxResults)
    else narrow
  }

  /**
   * Only narrow POI features and broad non-POI features survive a merge: a broad POI feature
   * that is not also a narrow feature never appears, nor does a narrow non-POI feature.
   */
  lemma MergedFrom(narrow: seq<Feature>, broad: HttpReply, f: Feature)
    requires |narrow| < MinNarrowResults && broad.Reply? && IsOk(broad.status)
    requires f in Merge(narrow, broad)
    ensures (f in narrow && IsPoi(f)) || (f in broad.body.features && !IsPoi(f))
  {
    var all := PoiOnly(narrow) + NonPoiOnly(broad.body.features);
    var r := Merge(narrow, broad);
    assert r == all[..|r|];
    assert f in all;
  }

  /**
   * `searchPlaces`. `narrow` is what the POI request came to and `broad` what the wider request
   * would come to; the latter matters only when the narrow answer has fewer than three features.
   */
  function SearchPlaces(query: string, token: string, narrow: HttpReply, broad: HttpReply)
    : (r: Result<MapboxResponse, MapboxError>)
    ensures InputError(query, token).Some? ==> r == Failure(InputError(query, token).value)
    ensures InputError(query, token).None? && narrow.Rejected? ==>
      r == Failure(MapboxError(
        if narrow.fetchTypeError then "Network error. Please check your connection."
        else "An unexpected error occurred while searching places.", None))
    ensures InputError(query, token).None? && narrow.Reply? && !IsOk(narrow.status) ==>
      r == Failure(StatusError(narrow.status, narrow.statusText))
    ensures r.Success? <==> InputError(query, token).None? && narrow.Reply? && IsOk(narrow.status)
    ensures r.Success? ==>
      r.value.query == narrow.body.query && r.value.attribution == narrow.body.attribution
      && multiset(r.value.features) == multiset(Merge(narrow.body.features, broad))
      && Sorted(r.value.features)
  {
    if InputError(query, token).Some? then Failure(InputError(query, token).value)
    else if narrow.Rejected? then
      Failure(MapboxError(
        if narrow.fetchTypeError then "Network error. Please check your connection."
        else "An unexpected error occurred while searching places.", None))
    else if !IsOk(narrow.status) then Failure(StatusError(narrow.status, narrow.statusText))
    else
      var data := narrow.body;
      Success(data.(features := RankSort(Merge(data.features, broad))))
  }

  /** With three or more narrow features the result is a reordering of them, whatever `broad` is. */
  lemma NarrowSufficesIgnoresBroad(query: string, token: string, narrow: HttpReply, b1: HttpReply, b2: HttpReply)
    requires narrow.Reply? && |narrow.body.features| >= MinNarrowResults
    ensures SearchPlaces(query, token, narrow, b1) == SearchPlaces(query, token, narrow, b2)
    ensures SearchPlaces(query, token, narrow, b1).Success? ==>
      multiset(SearchPlaces(query, token, narrow, b1).value.features) == multiset(narrow.body.features)
  {
  }

  /** A failed broad request leaves the narrow features, only reordered. */
  lemma BroadFailureKeepsNarrow(query: string, token: string, narrow: HttpReply, broad: HttpReply)
    requires !(broad.Reply? && IsOk(broad.status))
    ensures SearchPlaces(query, token, narrow, broad).Success? ==>
      multiset(SearchPlaces(query, token, narrow, broad).value.features) == multiset(narrow.body.features)
  {
  }

  /** The result equals the stable sort of the merged list: features with equal keys keep merge order. */
  lemma SearchKeepsMergeOrderOnTies(query: string, token: string, narrow: HttpReply, broad: HttpReply, k: (bool, real))
    requires SearchPlaces(query, token, narrow, broad).Success?
    ensures WithKey(SearchPlaces(query, token, narrow, broad).value.features, k)
         == WithKey(Merge(narrow.body.features, broad), k)
  {
    RankSortStable(Merge(narrow.body.features, broad), k);
  }
}
