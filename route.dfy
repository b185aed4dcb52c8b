/**
 * The HTTP handlers of app/api/locations/route.ts. `GET` lists the store;
 * `POST` validates the JSON body and appends a record built from it. The
 * body is modelled as the properties the handler and its client use, each
 * `None` when absent from the JSON object.
 */
module Route {
  import opened Text
  import opened Storage

  /** The parsed request body. The dialog that posts it sends `name`,
      `category`, `type` (here `kind`), `lat` and `lng`; `bank` and
      `details` are read by the handler but never sent. */
  datatype Body = Body(
    lat: Option<real>,
    lng: Option<real>,
    name: Option<string>,
    bank: Option<string>,
    details: Option<string>,
    category: Option<string>,
    kind: Option<string>)

  /** JavaScript truthiness of a property holding a number: present and not
      zero (a JSON number is never NaN). */
  predicate TruthyNumber(x: Option<real>) {
    x.Some? && x.value != 0.0
  }

  /** JavaScript truthiness of a property holding a string: present and not
      empty. */
  predicate TruthyString(x: Option<string>) {
    x.Some? && x.value != ""
  }

  /** `x || ''` for a string property. */
  function OrEmpty(x: Option<string>): (r: string)
    ensures TruthyString(x) ==> r == x.value
    ensures !TruthyString(x) ==> r == ""
  {
    if x.Some? then x.value else ""
  }

  /** The validation and record building of `POST`: `None` is the 400
      answer. An accepted body gives its coordinates and name unchanged, the
      optional bank and details or empty strings, status "1", and neither a
      category nor a type. */
  function Accept(body: Body): (r: Option<Draft>)
    ensures r.Some? <==> TruthyNumber(body.lat) && TruthyNumber(body.lng) && TruthyString(body.name)
    ensures r.Some? ==>
      && r.value.lat == body.lat.value && r.value.lng == body.lng.value
      && r.value.name == body.name.value
      && r.value.category.None? && r.value.kind.None?
      && r.value.bank == OrEmpty(body.bank) && r.value.address == OrEmpty(body.details)
      && r.value.branch == r.value.mfo == r.value.city == r.value.neighborhood == r.value.model == ""
      && r.value.status == "1"
  {
    if !TruthyNumber(body.lat) || !TruthyNumber(body.lng) || !TruthyString(body.name) then None
    else
      Some(Draft(
        lat := body.lat.value,
        lng := body.lng.value,
        name := body.name.value,
        category := None,
        kind := None,
        bank := OrEmpty(body.bank),
        branch := "",
        mfo := "",
        city := "",
        neighborhood := "",
        address := OrEmpty(body.details),
        status := "1",
        model := ""))
  }

  /** The category and type the client sends have no effect. */
  lemma AcceptIgnoresCategory(body: Body, category: Option<string>, kind: Option<string>)
    ensures Accept(body.(category := category, kind := kind)) == Accept(body)
  {
  }

  /** A point on the equator or on the prime meridian is refused as if its
      coordinate were missing: `!lat` holds for 0. */
  lemma ZeroCoordinateRefused(body: Body)
    requires body.lat == Some(0.0) || body.lng == Some(0.0)
    ensures Accept(body).None?
  {
  }

  /** What the add-location dialog posts: with a name and a point off both
      zero lines the body is accepted, and the stored record has no
      category and no type although the dialog sent both. */
  lemma DialogBodyStoredWithoutCategory(name: string, category: string, kind: string, lat: real, lng: real)
    requires name != "" && lat != 0.0 && lng != 0.0
    ensures var r := Accept(Body(Some(lat), Some(lng), Some(name), None, None, Some(category), Some(kind)));
      && r.Some? && r.value.category.None? && r.value.kind.None?
      && r.value.bank == "" && r.value.address == ""
  {
  }

  /** The answer of `POST`: the created record, or status 400 with an error
      message. */
  datatype Response = Created(location: Location) | BadRequest(error: string)

  const MissingFields: string := "Missing required fields"

  /** `GET`: the records `getLocations` returns. */
  method Get(store: Store) returns (r: seq<Location>)
    modifies store
    ensures r == old(store.Listed()) && store.Listed() == old(store.Listed())
  {
    r := store.GetLocations();
  }

  /** `POST`: a refused body leaves the store as it was; an accepted one is
      appended, with a random id, after the records listed before. */
  method Post(store: Store, body: Body, fraction: string) returns (resp: Response)
    requires IsBase36(fraction)
    modifies store
    ensures Accept(body).None? ==> resp == BadRequest(MissingFields) && unchanged(store)
    ensures Accept(body).Some? ==>
      && resp == Created(WithId(Accept(body).value, RandomId(fraction)))
      && store.Listed() == old(store.Listed()) + [resp.location]
  {
    var draft := Accept(body);
    if draft.None? {
      return BadRequest(MissingFields);
    }
    var created := store.AddLocation(draft.value, fraction);
    resp := Created(created);
  }
}
