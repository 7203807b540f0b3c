/**
 * The ordered list of saved locations held by the home page, and its three handlers: add one
 * location (rejected only when its id is already present), add a batch (each member kept only
 * when it is outside a small box around every location already saved) and remove by id.
 */
module LocationSet {
  import opened Types

  /** The half-width, in degrees on each axis, of the box that makes two points duplicates. */
  const Tolerance: real := 0.0001

  function Abs(x: real): (r: real)
    ensures r >= 0.0 && (r == x || r == -x)
  {
    if x < 0.0 then -x else x
  }

  /** `locations.some(loc => loc.id === id)`. */
  predicate HasId(locs: seq<Location>, id: string) {
    exists i :: 0 <= i < |locs| && locs[i].id == id
  }

  /** Both coordinate differences strictly below the tolerance. */
  predicate Near(a: Coordinates, b: Coordinates) {
    Abs(a.latitude - b.latitude) < Tolerance && Abs(a.longitude - b.longitude) < Tolerance
  }

  /** Some saved location lies within the box around `loc`. */
  predicate NearAny(existing: seq<Location>, loc: Location) {
    exists i :: 0 <= i < |existing| && Near(existing[i].coordinates, loc.coordinates)
  }

  predicate UniqueIds(locs: seq<Location>) {
    forall i, j :: 0 <= i < j < |locs| ==> locs[i].id != locs[j].id
  }

  /** The list after a single add. */
  function Added(locs: seq<Location>, loc: Location): (r: seq<Location>)
    ensures |r| == if HasId(locs, loc.id) then |locs| else |locs| + 1
    ensures HasId(r, loc.id)
    ensures r[..|locs|] == locs
  {
    if HasId(locs, loc.id) then locs
    else
      assert (locs + [loc])[|locs|].id == loc.id;
      locs + [loc]
  }

  /** The batch members kept by a batch add, in batch order. */
  function Outside(existing: seq<Location>, batch: seq<Location>): (r: seq<Location>)
    ensures forall x :: x in r <==> x in batch && !NearAny(existing, x)
    ensures |r| <= |batch|
  {
    if batch == [] then []
    else (if NearAny(existing, batch[0]) then [] else [batch[0]]) + Outside(existing, batch[1..])
  }

  /** The list after a batch add: the kept members follow the saved ones. */
  function AfterBatch(locs: seq<Location>, batch: seq<Location>): (r: seq<Location>)
    ensures |r| >= |locs| && r[..|locs|] == locs && r[|locs|..] == Outside(locs, batch)
  {
    locs + Outside(locs, batch)
  }

  /** The entries whose id differs from `id`, in list order. */
  function WithoutId(locs: seq<Location>, id: string): (r: seq<Location>)
    ensures !HasId(r, id)
    ensures |r| <= |locs|
  {
    if locs == [] then []
    else
      var h := if locs[0].id == id then [] else [locs[0]];
      var rest := WithoutId(locs[1..], id);
      assert forall i :: 0 <= i < |h + rest| ==> (h + rest)[i] == (if i < |h| then h[i] else rest[i - |h|]);
      h + rest
  }

  /** Removal keeps exactly the entries whose id differs. */
  lemma {:induction false} WithoutIdMembers(locs: seq<Location>, id: string, x: Location)
    ensures x in WithoutId(locs, id) <==> x in locs && x.id != id
    decreases |locs|
  {
    if locs != [] {
      WithoutIdMembers(locs[1..], id, x);
      assert locs == [locs[0]] + locs[1..];
    }
  }

  /** The page's `locations` state and its handlers. */
  class LocationsState {
    var locations: seq<Location>

    constructor()
      ensures locations == []
    {
      locations := [];
    }

    /** `handleLocationAdd`: nothing happens when the id is present; otherwise append. */
    method HandleLocationAdd(location: Location)
      modifies this
      ensures locations == Added(old(locations), location)
      ensures HasId(old(locations), location.id) ==> locations == old(locations)
      ensures !HasId(old(locations), location.id) ==> locations == old(locations) + [location]
    {
      if HasId(locations, location.id) {
        return;
      }
      locations := locations + [location];
    }

    /** `handleLocationsAdd`: the state changes only when at least one batch member is kept. */
    method HandleLocationsAdd(newLocations: seq<Location>)
      modifies this
      ensures locations == AfterBatch(old(locations), newLocations)
    {
      var filtered := Outside(locations, newLocations);
      if |filtered| > 0 {
        locations := locations + filtered;
      }
    }

    /** `handleLocationRemove`. */
    method HandleLocationRemove(id: string)
      modifies this
      ensures locations == WithoutId(old(locations), id)
    {
      locations := WithoutId(locations, id);
    }
  }

  // ---------------------------------------------------------------------------------------
  // Properties of the handlers
  // ---------------------------------------------------------------------------------------

  /** A single add looks only at ids: a new id is appended even at the very same coordinates. */
  lemma AddChecksOnlyId(locs: seq<Location>, loc: Location)
    requires !HasId(locs, loc.id)
    ensures Added(locs, loc) == locs + [loc]
    ensures NearAny(locs, loc) ==> Added(locs, loc)[|locs|] == loc
  {
  }

  /** Adding keeps ids unique, and adding the same location twice is the same as adding it once. */
  lemma AddKeepsIdsUnique(locs: seq<Location>, loc: Location)
    requires UniqueIds(locs)
    ensures UniqueIds(Added(locs, loc))
    ensures Added(Added(locs, loc), loc) == Added(locs, loc)
  {
  }

  /** Removing the id just added gives back the list as it was. */
  lemma {:induction false} RemoveUndoesAdd(locs: seq<Location>, loc: Location)
    requires !HasId(locs, loc.id)
    ensures WithoutId(Added(locs, loc), loc.id) == locs
  {
    WithoutIdAppend(locs, [loc], loc.id);
    AbsentIdNoChange(locs, loc.id);
    assert WithoutId([loc], loc.id) == [];
  }

  /** Removal keeps the relative order: it distributes over concatenation. */
  lemma {:induction false} WithoutIdAppend(a: seq<Location>, b: seq<Location>, id: string)
    ensures WithoutId(a + b, id) == WithoutId(a, id) + WithoutId(b, id)
    decreases |a|
  {
    if a != [] {
      var h := if a[0].id == id then [] else [a[0]];
      assert (a + b)[0] == a[0] && (a + b)[1..] == a[1..] + b;
      calc {
        WithoutId(a + b, id);
        h + WithoutId(a[1..] + b, id);
      == { WithoutIdAppend(a[1..], b, id); }
        h + (WithoutId(a[1..], id) + WithoutId(b, id));
        (h + WithoutId(a[1..], id)) + WithoutId(b, id);
        WithoutId(a, id) + WithoutId(b, id);
      }
    } else {
      assert a + b == b;
    }
  }

  /** Removing an id that is not present changes nothing. */
  lemma {:induction false} AbsentIdNoChange(locs: seq<Location>, id: string)
    requires !HasId(locs, id)
    ensures WithoutId(locs, id) == locs
    decreases |locs|
  {
    if locs != [] {
      assert locs[0].id != id;
      assert !HasId(locs[1..], id) by {
        forall i | 0 <= i < |locs[1..]| ensures locs[1..][i].id != id {
          assert locs[1..][i] == locs[i + 1];
        }
      }
      AbsentIdNoChange(locs[1..], id);
    }
  }

  /** Removing twice is removing once. */
  lemma RemoveIdempotent(locs: seq<Location>, id: string)
    ensures WithoutId(WithoutId(locs, id), id) == WithoutId(locs, id)
  {
    AbsentIdNoChange(WithoutId(locs, id), id);
  }

  /** A batch is filtered member by member: it distributes over concatenation of batches. */
  lemma {:induction false} OutsideAppend(existing: seq<Location>, a: seq<Location>, b: seq<Location>)
    ensures Outside(existing, a + b) == Outside(existing, a) + Outside(existing, b)
    decreases |a|
  {
    if a != [] {
      assert a + b == [a[0]] + (a[1..] + b);
      assert a == [a[0]] + a[1..];
      OutsideCons(existing, a[0], a[1..] + b);
      OutsideCons(existing, a[0], a[1..]);
      OutsideAppend(existing, a[1..], b);
    } else {
      assert a + b == b;
    }
  }

  /** The first member of a batch is kept or dropped on its own. */
  lemma OutsideCons(existing: seq<Location>, x: Location, rest: seq<Location>)
    ensures Outside(existing, [x] + rest)
         == (if NearAny(existing, x) then [] else [x]) + Outside(existing, rest)
  {
    assert ([x] + rest)[0] == x && ([x] + rest)[1..] == rest;
  }

  /**
   * Batch members are compared with the saved list only, never with each other and never by
   * id: the same location twice in one batch is appended twice.
   */
  lemma BatchKeepsRepeats(existing: seq<Location>, x: Location)
    requires !NearAny(existing, x)
    ensures AfterBatch(existing, [x, x]) == existing + [x, x]
  {
    OutsideAppend(existing, [x], [x]);
    assert [x, x] == [x] + [x];
    assert Outside(existing, [x]) == [x] + Outside(existing, []);
  }

  /** Every appended member stays outside the box of every location saved before the batch. */
  lemma BatchKeepsDistance(locs: seq<Location>, batch: seq<Location>, i: int, j: int)
    requires 0 <= i < |locs| && |locs| <= j < |AfterBatch(locs, batch)|
    ensures !Near(locs[i].coordinates, AfterBatch(locs, batch)[j].coordinates)
  {
    var r := AfterBatch(locs, batch);
    assert r[j] == Outside(locs, batch)[j - |locs|];
    assert r[j] in Outside(locs, batch);
  }

  /** A batch whose members are all near saved locations changes nothing. */
  lemma AllNearNoChange(locs: seq<Location>, batch: seq<Location>)
    requires forall k :: 0 <= k < |batch| ==> NearAny(locs, batch[k])
    ensures AfterBatch(locs, batch) == locs
  {
    var o := Outside(locs, batch);
    if o != [] {
      assert o[0] in batch;
    }
  }

  /** The box is open: a difference of exactly the tolerance on either axis is not a duplicate. */
  lemma ExactToleranceIsDistinct(c: Coordinates)
    ensures !Near(c, Coordinates(c.longitude + Tolerance, c.latitude))
    ensures !Near(c, Coordinates(c.longitude, c.latitude + Tolerance))
    ensures Near(c, c)
  {
  }
}
