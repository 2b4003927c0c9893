/** The properties routes: public, admin and own-property listings, lookup, and the
    create / update / delete handlers with their owner-or-admin guard. */
module Properties {
  import opened Domain
  import opened Seqs
  import opened Tables
  import opened Db

  const PropertyNotFound := "Property not found"
  const Unauthorized := "Unauthorized"
  const PropertyDeleted := "Property deleted successfully"

  /** GET /properties: the available properties, newest first. */
  function ListAvailable(properties: map<PropertyId, Property>, bound: nat): (r: seq<Property>)
    requires Bounded(properties, bound) && Keyed(properties, PropertyKey)
    ensures forall p :: p in r <==> p in properties.Values && p.availability
    ensures forall p :: multiset(r)[p] == if p in properties.Values && p.availability then 1 else 0
    ensures SortedDesc(r, PropertyCreatedAt)
  {
    KeyedIsInjective(properties, PropertyKey);
    Select(properties, bound, (p: Property) => p.availability, PropertyCreatedAt)
  }

  /** GET /properties/all (behind the admin guard): every property, newest first. */
  function ListAll(properties: map<PropertyId, Property>, bound: nat): (r: seq<Property>)
    requires Bounded(properties, bound) && Keyed(properties, PropertyKey)
    ensures forall p :: p in r <==> p in properties.Values
    ensures forall p :: multiset(r)[p] == if p in properties.Values then 1 else 0
    ensures SortedDesc(r, PropertyCreatedAt)
  {
    KeyedIsInjective(properties, PropertyKey);
    Select(properties, bound, (p: Property) => true, PropertyCreatedAt)
  }

  /** GET /properties/my: the caller's own properties, available or not, newest first. */
  function ListOwnedBy(properties: map<PropertyId, Property>, bound: nat, caller: UserId): (r: seq<Property>)
    requires Bounded(properties, bound) && Keyed(properties, PropertyKey)
    ensures forall p :: p in r <==> p in properties.Values && p.userId == caller
    ensures forall p :: multiset(r)[p] == if p in properties.Values && p.userId == caller then 1 else 0
    ensures SortedDesc(r, PropertyCreatedAt)
  {
    KeyedIsInjective(properties, PropertyKey);
    Select(properties, bound, (p: Property) => p.userId == caller, PropertyCreatedAt)
  }

  /** GET /properties/:id: public, whatever the availability. */
  function GetProperty(properties: map<PropertyId, Property>, id: PropertyId): (r: Reply<Property>)
    ensures r.Ok? <==> id in properties
    ensures r.Ok? ==> r == Ok(200, properties[id])
    ensures r.Err? ==> r.status == 404
  {
    if id in properties then Ok(200, properties[id]) else Err(404, PropertyNotFound)
  }

  /** The caller owns the property or is an administrator. */
  predicate CanModify(property: Property, caller: User) {
    property.userId == caller.id || caller.isAdmin
  }

  /** The guard shared by PUT and DELETE: not found first, then owner-or-admin. */
  function Authorize(properties: map<PropertyId, Property>, id: PropertyId, caller: User): (r: Reply<Property>)
    ensures r == Err(404, PropertyNotFound) <==> id !in properties
    ensures r == Err(403, Unauthorized) <==> id in properties && !CanModify(properties[id], caller)
    ensures r.Ok? <==> id in properties && CanModify(properties[id], caller)
    ensures r.Ok? ==> r.value == properties[id]
  {
    if id !in properties then Err(404, PropertyNotFound)
    else if !CanModify(properties[id], caller) then Err(403, Unauthorized)
    else Ok(200, properties[id])
  }

  /** An administrator passes the guard on every existing property. */
  lemma AdminMayModifyAny(properties: map<PropertyId, Property>, id: PropertyId, caller: User)
    requires caller.isAdmin && id in properties
    ensures Authorize(properties, id, caller) == Ok(200, properties[id])
  {
  }

  /** The body of POST /properties. */
  datatype NewProperty = NewProperty(
    name: string,
    description: string,
    location: string,
    pricePerNight: Money,
    availability: bool,
    imageUrl: Option<string>)

  /** The body of PUT /properties/:id: only the fields present are written. */
  datatype PropertyPatch = PropertyPatch(
    name: Option<string>,
    description: Option<string>,
    location: Option<string>,
    pricePerNight: Option<Money>,
    availability: Option<bool>,
    imageUrl: Option<string>)

  const EmptyPatch := PropertyPatch(None, None, None, None, None, None)

  /** `{ ...body, updated_at }` written over the stored row. */
  function Merge(p: Property, patch: PropertyPatch, now: Millis): (r: Property)
    ensures r.id == p.id && r.userId == p.userId && r.createdAt == p.createdAt && r.updatedAt == now
    ensures patch.name.None? ==> r.name == p.name
    ensures patch.description.None? ==> r.description == p.description
    ensures patch.location.None? ==> r.location == p.location
    ensures patch.pricePerNight.None? ==> r.pricePerNight == p.pricePerNight
    ensures patch.availability.None? ==> r.availability == p.availability
    ensures patch.imageUrl.None? ==> r.imageUrl == p.imageUrl
    ensures patch.name.Some? ==> r.name == patch.name.value
    ensures patch.description.Some? ==> r.description == patch.description.value
    ensures patch.location.Some? ==> r.location == patch.location.value
    ensures patch.pricePerNight.Some? ==> r.pricePerNight == patch.pricePerNight.value
    ensures patch.availability.Some? ==> r.availability == patch.availability.value
    ensures patch.imageUrl.Some? ==> r.imageUrl == patch.imageUrl
  {
    p.(
      name := patch.name.GetOr(p.name),
      description := patch.description.GetOr(p.description),
      location := patch.location.GetOr(p.location),
      pricePerNight := patch.pricePerNight.GetOr(p.pricePerNight),
      availability := patch.availability.GetOr(p.availability),
      imageUrl := if patch.imageUrl.Some? then patch.imageUrl else p.imageUrl,
      updatedAt := now)
  }

  /** An empty body only touches updated_at. */
  lemma MergeEmptyPatch(p: Property, now: Millis)
    ensures Merge(p, EmptyPatch, now) == p.(updatedAt := now)
  {
  }

  /** Sending the same body twice gives the same row as sending it once. */
  lemma MergeIdempotent(p: Property, patch: PropertyPatch, now: Millis)
    ensures Merge(Merge(p, patch, now), patch, now) == Merge(p, patch, now)
  {
  }

  /** POST /properties: the row is stamped with the caller's id, whatever the body says. */
  method CreateProperty(db: Database, caller: User, body: NewProperty, now: Millis) returns (r: Reply<Property>)
    requires db.Valid()
    modifies db
    ensures db.Valid()
    ensures r == Ok(201, Property(old(db.nextPropertyId), body.name, body.description, body.location,
      body.pricePerNight, body.availability, body.imageUrl, caller.id, now, now))
    ensures r.value.id !in old(db.properties)
    ensures db.properties == old(db.properties)[r.value.id := r.value]
    ensures db.nextPropertyId == old(db.nextPropertyId) + 1
    ensures db.users == old(db.users) && db.bookings == old(db.bookings) && db.nextBookingId == old(db.nextBookingId)
  {
    var property := Property(db.nextPropertyId, body.name, body.description, body.location,
      body.pricePerNight, body.availability, body.imageUrl, caller.id, now, now);
    db.properties := db.properties[property.id := property];
    db.nextPropertyId := db.nextPropertyId + 1;
    r := Ok(201, property);
  }

  /** PUT /properties/:id. */
  method UpdateProperty(db: Database, caller: User, id: PropertyId, patch: PropertyPatch, now: Millis) returns (r: Reply<Property>)
    requires db.Valid()
    modifies db
    ensures db.Valid()
    ensures Authorize(old(db.properties), id, caller).Err? ==>
      r == Authorize(old(db.properties), id, caller) && db.properties == old(db.properties)
    ensures Authorize(old(db.properties), id, caller).Ok? ==>
      r == Ok(200, Merge(old(db.properties)[id], patch, now)) && db.properties == old(db.properties)[id := r.value]
    ensures db.users == old(db.users) && db.bookings == old(db.bookings)
    ensures db.nextPropertyId == old(db.nextPropertyId) && db.nextBookingId == old(db.nextBookingId)
  {
    if id !in db.properties {
      return Err(404, PropertyNotFound);
    }
    var existing := db.properties[id];
    if existing.userId != caller.id && !caller.isAdmin {
      return Err(403, Unauthorized);
    }
    var updated := Merge(existing, patch, now);
    db.properties := db.properties[id := updated];
    r := Ok(200, updated);
  }

  /** DELETE /properties/:id. */
  method DeleteProperty(db: Database, caller: User, id: PropertyId) returns (r: Reply<string>)
    requires db.Valid()
    modifies db
    ensures db.Valid()
    ensures Authorize(old(db.properties), id, caller).Err? ==>
      r == Err(Authorize(old(db.properties), id, caller).status, Authorize(old(db.properties), id, caller).error) &&
      db.properties == old(db.properties)
    ensures Authorize(old(db.properties), id, caller).Ok? ==>
      r == Ok(200, PropertyDeleted) && db.properties == old(db.properties) - {id}
    ensures db.users == old(db.users) && db.bookings == old(db.bookings)
    ensures db.nextPropertyId == old(db.nextPropertyId) && db.nextBookingId == old(db.nextBookingId)
  {
    if id !in db.properties {
      return Err(404, PropertyNotFound);
    }
    var existing := db.properties[id];
    if existing.userId != caller.id && !caller.isAdmin {
      return Err(403, Unauthorized);
    }
    db.properties := db.properties - {id};
    r := Ok(200, PropertyDeleted);
  }
}
