/**
  `fetchAsteroidData` (static/main.js:145-188): the list of asteroid meshes is
  replaced by one mesh per record of the date `Object.keys` lists first, and
  the side list shows
  one entry per record or the error text. The request, the JSON decoding and
  the DOM are left out; their outcome is the `Response` input and the list's
  content is the `ListView` value.
 */
module Fetch {
  import opened Results
  import opened Records
  import opened Labels
  import opened Scene
  import opened PropertyOrder

  /** What `fetch('/asteroids')` and `response.json()` deliver, or their failure. */
  datatype Response =
    | FetchFailed
      /**
        The members of `near_earth_objects` in textual order, one per date
        as `JSON.parse` leaves them; `None` when it is missing or null.
       */
    | Received(neo: Option<seq<DateGroup>>)

  /** The content of the `asteroids-list` element. */
  datatype ListView = Items(items: seq<Item>) | ErrorText(text: string)

  const ErrorMessage: string := "Error loading data."

  /** The dates of the groups, in textual order. */
  function DateKeys(groups: seq<DateGroup>): (ks: seq<string>)
    ensures |ks| == |groups|
  {
    seq(|groups|, i requires 0 <= i < |groups| => groups[i].date)
  }

  /** Every key is a date `YYYY-MM-DD`, or at least holds a `-`, as in the feed. */
  predicate Dated(groups: seq<DateGroup>) {
    forall i :: 0 <= i < |groups| ==> '-' in groups[i].date
  }

  /** The page state fetchAsteroidData reads and writes: `asteroids3D` and the list. */
  datatype Page = Page(asteroids: seq<Asteroid3D>, list: ListView)

  /** The position of the first record without a close approach, or `|recs|` if there is none. */
  function FirstMissing(recs: seq<NeoRecord>): (k: nat)
    ensures k <= |recs|
    ensures forall i :: 0 <= i < k ==> |recs[i].approaches| > 0
    ensures k < |recs| ==> |recs[k].approaches| == 0
  {
    if |recs| == 0 then 0
    else if |recs[0].approaches| == 0 then 0
    else 1 + FirstMissing(recs[1..])
  }

  /**
    The page after the records `recs` of the first date were processed: one
    mesh per record up to the first record without a close approach, built
    from that record alone; one entry per record if every record has a close
    approach, and the error text otherwise.
   */
  ghost predicate BatchReplaced(recs: seq<NeoRecord>, draws: nat -> Draws, next: Page) {
    var k := FirstMissing(recs);
    && |next.asteroids| == k
    && (forall i :: 0 <= i < k ==> CreateAsteroid3D(recs[i], draws(i)) == Ok(next.asteroids[i]))
    && (k < |recs| ==> next.list == ErrorText(ErrorMessage))
    && (k == |recs| ==> next.list.Items? && |next.list.items| == |recs|)
    && (k == |recs| ==> forall i :: 0 <= i < |recs| ==> ItemFor(recs[i]) == Ok(next.list.items[i]))
  }

  /** One pass of the `forEach` (static/main.js:161-181): the entry, then the mesh. */
  function ProcessRecord(rec: NeoRecord, d: Draws): Result<(Item, Asteroid3D), RecordError>
  {
    match (ItemFor(rec), CreateAsteroid3D(rec, d))
    case (Ok(item), Ok(mesh)) => Ok((item, mesh))
    case (Err(e), _) => Err(e)
    case (_, Err(e)) => Err(e)
  }

  /**
    fetchAsteroidData. `draws(i)` are the random numbers the mesh of the
    `i`-th record consumes.

    A failed request or a missing `near_earth_objects` throws before the old
    meshes are removed. An empty `near_earth_objects` throws after they are
    removed (its first key is `undefined`). Otherwise the old meshes go, and
    the records of the date `Object.keys` puts first are processed in order
    until one has no close approach: that one throws, the meshes built before
    it stay, and the catch replaces the list by the error text. With date
    keys that date is the first member of `near_earth_objects`.
   */
  method FetchAsteroidData(page: Page, response: Response, draws: nat -> Draws) returns (next: Page)
    ensures response.FetchFailed? || response.neo.None? ==> next == Page(page.asteroids, ErrorText(ErrorMessage))
    ensures response.Received? && response.neo == Some([]) ==> next == Page([], ErrorText(ErrorMessage))
    ensures response.Received? && response.neo.Some? && |response.neo.value| > 0 ==>
      BatchReplaced(response.neo.value[FirstKeyPosition(DateKeys(response.neo.value))].records, draws, next)
    ensures response.Received? && response.neo.Some? && |response.neo.value| > 0 && Dated(response.neo.value) ==>
      BatchReplaced(response.neo.value[0].records, draws, next)
  {
    if response.FetchFailed? || response.neo.None? {
      return Page(page.asteroids, ErrorText(ErrorMessage));
    }
    var groups := response.neo.value;
    if |groups| == 0 {
      return Page([], ErrorText(ErrorMessage));
    }
    var keys := DateKeys(groups);
    if Dated(groups) {
      DateKeysKeepTextualOrder(keys);
    }
    next := ReplaceMeshes(groups[FirstKeyPosition(keys)].records, draws);
  }

  /**
    The part of fetchAsteroidData after the old meshes are removed
    (static/main.js:161-186): the `forEach` over the records of the first
    date, and the catch that replaces the list by the error text.
   */
  method ReplaceMeshes(recs: seq<NeoRecord>, draws: nat -> Draws) returns (next: Page)
    ensures BatchReplaced(recs, draws, next)
  {
    var meshes: seq<Asteroid3D> := [];
    var items: seq<Item> := [];
    var i := 0;
    while i < |recs|
      invariant i <= FirstMissing(recs)
      invariant |meshes| == i && |items| == i
      invariant forall j :: 0 <= j < i ==> ProcessRecord(recs[j], draws(j)) == Ok((items[j], meshes[j]))
    {
      var step := ProcessRecord(recs[i], draws(i));
      if step.Err? {
        assert i == FirstMissing(recs);
        next := Page(meshes, ErrorText(ErrorMessage));
        forall j | 0 <= j < i
          ensures CreateAsteroid3D(recs[j], draws(j)) == Ok(meshes[j])
        {
          assert ProcessRecord(recs[j], draws(j)) == Ok((items[j], meshes[j]));
        }
        return;
      }
      var (item, mesh) := step.value;
      items := items + [item];
      meshes := meshes + [mesh];
      i := i + 1;
    }
    next := Page(meshes, Items(items));
    forall j | 0 <= j < |recs|
      ensures ItemFor(recs[j]) == Ok(items[j]) && CreateAsteroid3D(recs[j], draws(j)) == Ok(meshes[j])
    {
      assert ProcessRecord(recs[j], draws(j)) == Ok((items[j], meshes[j]));
    }
  }

  /**
    With genuine random draws, every mesh of a new batch moves forward within
    the created ranges, and one whose miss distance is not negative orbits
    outside the Earth sphere (static/main.js:34, 55, 77-86).
   */
  lemma BatchMeshesSound(recs: seq<NeoRecord>, draws: nat -> Draws, next: Page)
    requires BatchReplaced(recs, draws, next)
    requires forall i: nat :: ValidDraws(draws(i))
    ensures forall i :: 0 <= i < |next.asteroids| ==> Sound(next.asteroids[i])
    ensures forall i :: 0 <= i < |next.asteroids| && recs[i].approaches[0].missKm >= 0.0 ==>
      next.asteroids[i].orbit.distance > EarthRadius
  {
  }
}
