/** The bookings routes: pricing, the admission checks of a new booking, and the
    caller-scoped read, update and delete handlers. */
module Bookings {
  import opened Domain
  import opened Seqs
  import opened Tables
  import opened Db

  const MsPerDay: int := 1000 * 3600 * 24

  const InvalidRangeError := "Check-out date must be after check-in date"
  const PastCheckInError := "Check-in date cannot be in the past"
  const PropertyNotFound := "Property not found"
  const PropertyUnavailable := "Property is not available"
  const AlreadyBooked := "Property is already booked for these dates"
  const BookingNotFound := "Booking not found"
  const BookingDeleted := "Booking deleted successfully"

  /** The number of started days between two instants: Math.ceil of the difference in days. */
  function DaysBetween(checkIn: Millis, checkOut: Millis): (days: int)
    ensures MsPerDay * (days - 1) < checkOut - checkIn <= MsPerDay * days
  {
    -((checkIn - checkOut) / MsPerDay)
  }

  /** A stay of exactly k whole days counts k days. */
  lemma WholeDays(checkIn: Millis, k: int)
    ensures DaysBetween(checkIn, checkIn + k * MsPerDay) == k
  {
    var d := DaysBetween(checkIn, checkIn + k * MsPerDay);
    assert MsPerDay * (d - 1) < MsPerDay * k <= MsPerDay * d;
  }

  /** calculateTotalPrice: started days times the nightly rate. */
  function CalculateTotalPrice(checkIn: Millis, checkOut: Millis, pricePerNight: Money): (price: Money) {
    DaysBetween(checkIn, checkOut) * pricePerNight
  }

  /** A non-empty stay costs at least one night. */
  lemma PriceCoversOneNight(checkIn: Millis, checkOut: Millis, pricePerNight: Money)
    requires checkIn < checkOut && pricePerNight >= 0
    ensures CalculateTotalPrice(checkIn, checkOut, pricePerNight) >= pricePerNight
  {
    var days := DaysBetween(checkIn, checkOut);
    assert days >= 1;
    assert days * pricePerNight >= 1 * pricePerNight;
  }

  /** A stay of k whole days costs k nights. */
  lemma PriceOfWholeDays(checkIn: Millis, k: int, pricePerNight: Money)
    ensures CalculateTotalPrice(checkIn, checkIn + k * MsPerDay, pricePerNight) == k * pricePerNight
  {
    WholeDays(checkIn, k);
  }

  /** The half-open stays [newIn, newOut) and [exIn, exOut) overlap. */
  predicate Overlaps(newIn: Millis, newOut: Millis, exIn: Millis, exOut: Millis) {
    newIn < exOut && newOut > exIn
  }

  lemma OverlapsSymmetric(aIn: Millis, aOut: Millis, bIn: Millis, bOut: Millis)
    ensures Overlaps(aIn, aOut, bIn, bOut) == Overlaps(bIn, bOut, aIn, aOut)
  {
  }

  /** Checking in on the day another guest checks out (or the reverse) is not a clash. */
  lemma BackToBackStaysDoNotOverlap(newIn: Millis, newOut: Millis, exIn: Millis, exOut: Millis)
    requires newIn == exOut || newOut == exIn
    ensures !Overlaps(newIn, newOut, exIn, exOut)
  {
  }

  /** The instant t falls within the half-open stay [checkIn, checkOut). */
  predicate During(t: Millis, checkIn: Millis, checkOut: Millis) {
    checkIn <= t < checkOut
  }

  /** For non-empty stays, overlapping means sharing an instant. */
  lemma OverlapsIffSharedInstant(newIn: Millis, newOut: Millis, exIn: Millis, exOut: Millis)
    requires newIn < newOut && exIn < exOut
    ensures Overlaps(newIn, newOut, exIn, exOut) <==> exists t :: During(t, newIn, newOut) && During(t, exIn, exOut)
  {
    if Overlaps(newIn, newOut, exIn, exOut) {
      var t := if newIn < exIn then exIn else newIn;
      assert During(t, newIn, newOut) && During(t, exIn, exOut);
    }
  }

  /** existingBookings.some(...): some listed booking overlaps the requested stay. */
  function HasOverlap(existing: seq<Booking>, newIn: Millis, newOut: Millis): (b: bool)
    ensures b <==> exists i :: 0 <= i < |existing| && Overlaps(newIn, newOut, existing[i].checkIn, existing[i].checkOut)
  {
    if existing == [] then false
    else
      var rest := HasOverlap(existing[1..], newIn, newOut);
      assert forall i :: 1 <= i < |existing| ==> existing[i] == existing[1..][i - 1];
      Overlaps(newIn, newOut, existing[0].checkIn, existing[0].checkOut) || rest
  }

  function PropertyIdIs(propertyId: PropertyId): (keep: Booking -> bool) {
    (b: Booking) => b.propertyId == propertyId
  }

  /** `select * from bookings where property_id = ...`, with no filter on status. */
  function ExistingBookings(bookings: map<BookingId, Booking>, bound: nat, propertyId: PropertyId): (r: seq<Booking>)
    requires Bounded(bookings, bound)
    ensures forall b :: b in r <==> b in bookings.Values && b.propertyId == propertyId
  {
    var r := Filter(Rows(bookings, bound), PropertyIdIs(propertyId));
    forall b ensures b in r <==> b in bookings.Values && b.propertyId == propertyId {
      if b in bookings.Values {
        var id :| id in bookings && bookings[id] == b;
        assert id < bound;
      }
    }
    r
  }

  /** Some booking of the property, whoever holds it, overlaps the requested stay. */
  ghost predicate Conflicts(bookings: map<BookingId, Booking>, propertyId: PropertyId, checkIn: Millis, checkOut: Millis) {
    exists id :: id in bookings && bookings[id].propertyId == propertyId &&
      Overlaps(checkIn, checkOut, bookings[id].checkIn, bookings[id].checkOut)
  }

  /** The scan over the fetched bookings finds a clash exactly when the table holds one. */
  lemma HasOverlapIffConflicts(bookings: map<BookingId, Booking>, bound: nat, propertyId: PropertyId, checkIn: Millis, checkOut: Millis)
    requires Bounded(bookings, bound)
    ensures HasOverlap(ExistingBookings(bookings, bound, propertyId), checkIn, checkOut) <==> Conflicts(bookings, propertyId, checkIn, checkOut)
  {
    var existing := ExistingBookings(bookings, bound, propertyId);
    if HasOverlap(existing, checkIn, checkOut) {
      var i :| 0 <= i < |existing| && Overlaps(checkIn, checkOut, existing[i].checkIn, existing[i].checkOut);
      assert existing[i] in existing;
      var id :| id in bookings && bookings[id] == existing[i];
    }
    if Conflicts(bookings, propertyId, checkIn, checkOut) {
      var id :| id in bookings && bookings[id].propertyId == propertyId &&
        Overlaps(checkIn, checkOut, bookings[id].checkIn, bookings[id].checkOut);
      assert bookings[id] in bookings.Values;
      var i :| 0 <= i < |existing| && existing[i] == bookings[id];
    }
  }

  datatype BookingRequest = BookingRequest(propertyId: PropertyId, checkIn: Millis, checkOut: Millis)

  /** Both date checks pass: check-in strictly before check-out, and not before now. */
  predicate DatesAccepted(req: BookingRequest, now: Millis) {
    req.checkIn < req.checkOut && now <= req.checkIn
  }

  /** The outcome of POST /bookings: the checks in their order, then the row to insert. */
  function Admit(properties: map<PropertyId, Property>, bookings: map<BookingId, Booking>, bound: nat,
                 newId: BookingId, caller: UserId, req: BookingRequest, now: Millis): (r: Reply<Booking>)
    requires Bounded(bookings, bound)
    ensures req.checkIn >= req.checkOut ==> r == Err(400, InvalidRangeError)
    ensures r == Err(400, PastCheckInError) <==> req.checkIn < req.checkOut && req.checkIn < now
    ensures r == Err(404, PropertyNotFound) <==> DatesAccepted(req, now) && req.propertyId !in properties
    ensures r == Err(400, PropertyUnavailable) <==>
      DatesAccepted(req, now) && req.propertyId in properties && !properties[req.propertyId].availability
    ensures r == Err(400, AlreadyBooked) <==>
      DatesAccepted(req, now) && req.propertyId in properties && properties[req.propertyId].availability &&
      Conflicts(bookings, req.propertyId, req.checkIn, req.checkOut)
    ensures r.Ok? <==>
      DatesAccepted(req, now) && req.propertyId in properties && properties[req.propertyId].availability &&
      !Conflicts(bookings, req.propertyId, req.checkIn, req.checkOut)
    ensures r.Ok? ==> r == Ok(201, Booking(newId, caller, req.propertyId, req.checkIn, req.checkOut,
      CalculateTotalPrice(req.checkIn, req.checkOut, properties[req.propertyId].pricePerNight), now, now))
  {
    HasOverlapIffConflicts(bookings, bound, req.propertyId, req.checkIn, req.checkOut);
    if req.checkIn >= req.checkOut then Err(400, InvalidRangeError)
    else if req.checkIn < now then Err(400, PastCheckInError)
    else if req.propertyId !in properties then Err(404, PropertyNotFound)
    else if !properties[req.propertyId].availability then Err(400, PropertyUnavailable)
    else if HasOverlap(ExistingBookings(bookings, bound, req.propertyId), req.checkIn, req.checkOut) then Err(400, AlreadyBooked)
    else
      var property := properties[req.propertyId];
      Ok(201, Booking(newId, caller, req.propertyId, req.checkIn, req.checkOut,
        CalculateTotalPrice(req.checkIn, req.checkOut, property.pricePerNight), now, now))
  }

  /** A property at 50 a night booked from day 1 to day 5: a stay from day 5 to day 8 is
      admitted at 3 nights, a stay from day 4 to day 6 is refused. */
  lemma AdmissionScenario()
    ensures
      var cabin := Property(7, "Cabin", "", "", 50, true, None, 1, 0, 0);
      var held := Booking(0, 2, 7, 1 * MsPerDay, 5 * MsPerDay, 200, 0, 0);
      var properties := map[7 := cabin];
      var bookings := map[0 := held];
      && Admit(properties, bookings, 1, 1, 3, BookingRequest(7, 5 * MsPerDay, 8 * MsPerDay), 0)
         == Ok(201, Booking(1, 3, 7, 5 * MsPerDay, 8 * MsPerDay, 150, 0, 0))
      && Admit(properties, bookings, 1, 1, 3, BookingRequest(7, 4 * MsPerDay, 6 * MsPerDay), 0)
         == Err(400, AlreadyBooked)
  {
    var bookings := map[0 := Booking(0, 2, 7, 1 * MsPerDay, 5 * MsPerDay, 200, 0, 0)];
    PriceOfWholeDays(5 * MsPerDay, 3, 50);
    assert 8 * MsPerDay == 5 * MsPerDay + 3 * MsPerDay;
    assert Conflicts(bookings, 7, 4 * MsPerDay, 6 * MsPerDay) by {
      assert 0 in bookings;
    }
  }

  /** POST /bookings. */
  method CreateBooking(db: Database, caller: User, req: BookingRequest, now: Millis) returns (r: Reply<Booking>)
    requires db.Valid()
    modifies db
    ensures db.Valid()
    ensures r == Admit(old(db.properties), old(db.bookings), old(db.nextBookingId), old(db.nextBookingId), caller.id, req, now)
    ensures r.Ok? ==> r.value.id !in old(db.bookings)
    ensures r.Ok? ==> db.bookings == old(db.bookings)[r.value.id := r.value] && db.nextBookingId == old(db.nextBookingId) + 1
    ensures r.Err? ==> db.bookings == old(db.bookings) && db.nextBookingId == old(db.nextBookingId)
    ensures db.users == old(db.users) && db.properties == old(db.properties) && db.nextPropertyId == old(db.nextPropertyId)
  {
    if req.checkIn >= req.checkOut {
      return Err(400, InvalidRangeError);
    }
    if req.checkIn < now {
      return Err(400, PastCheckInError);
    }
    if req.propertyId !in db.properties {
      return Err(404, PropertyNotFound);
    }
    var property := db.properties[req.propertyId];
    if !property.availability {
      return Err(400, PropertyUnavailable);
    }
    var existing := ExistingBookings(db.bookings, db.nextBookingId, req.propertyId);
    if HasOverlap(existing, req.checkIn, req.checkOut) {
      return Err(400, AlreadyBooked);
    }
    var totalPrice := CalculateTotalPrice(req.checkIn, req.checkOut, property.pricePerNight);
    var booking := Booking(db.nextBookingId, caller.id, req.propertyId, req.checkIn, req.checkOut, totalPrice, now, now);
    db.bookings := db.bookings[booking.id := booking];
    db.nextBookingId := db.nextBookingId + 1;
    r := Ok(201, booking);
  }

  /** The booking exists and belongs to the caller. */
  predicate OwnedBy(bookings: map<BookingId, Booking>, id: BookingId, caller: UserId) {
    id in bookings && bookings[id].userId == caller
  }

  /** GET /bookings: the caller's bookings, newest first. */
  function MyBookings(bookings: map<BookingId, Booking>, bound: nat, caller: UserId): (r: seq<Booking>)
    requires Bounded(bookings, bound) && Keyed(bookings, BookingKey)
    ensures forall b :: b in r <==> b in bookings.Values && b.userId == caller
    ensures forall b :: multiset(r)[b] == if b in bookings.Values && b.userId == caller then 1 else 0
    ensures SortedDesc(r, BookingCreatedAt)
  {
    KeyedIsInjective(bookings, BookingKey);
    Select(bookings, bound, (b: Booking) => b.userId == caller, BookingCreatedAt)
  }

  /** GET /bookings/:id: found only when the id exists and the caller holds it. */
  function FindBooking(bookings: map<BookingId, Booking>, caller: UserId, id: BookingId): (r: Reply<Booking>)
    ensures r.Ok? <==> id in bookings && bookings[id].userId == caller
    ensures r.Ok? ==> r.value == bookings[id] && r.value.userId == caller
    ensures r.Err? ==> r.status == 404
  {
    if OwnedBy(bookings, id, caller) then Ok(200, bookings[id]) else Err(404, BookingNotFound)
  }

  /** The fields a PUT body may carry; absent ones are left as they are. */
  datatype BookingPatch = BookingPatch(propertyId: Option<PropertyId>, checkIn: Option<Millis>, checkOut: Option<Millis>)

  predicate ChangesDates(patch: BookingPatch) {
    patch.checkIn.Some? || patch.checkOut.Some?
  }

  /** The outcome of PUT /bookings/:id. */
  function Amend(properties: map<PropertyId, Property>, bookings: map<BookingId, Booking>,
                 caller: UserId, id: BookingId, patch: BookingPatch, now: Millis): (r: Reply<Booking>)
    ensures r == Err(404, BookingNotFound) <==> !OwnedBy(bookings, id, caller)
    ensures r == Err(404, PropertyNotFound) <==>
      OwnedBy(bookings, id, caller) && ChangesDates(patch) && bookings[id].propertyId !in properties
    ensures r.Ok? <==> OwnedBy(bookings, id, caller) && !(ChangesDates(patch) && bookings[id].propertyId !in properties)
    ensures r.Ok? ==> r.status == 200
    ensures r.Ok? ==>
      var was := bookings[id];
      && r.value.id == id && r.value.userId == was.userId && r.value.createdAt == was.createdAt
      && r.value.updatedAt == now
      && r.value.propertyId == patch.propertyId.GetOr(was.propertyId)
      && r.value.checkIn == patch.checkIn.GetOr(was.checkIn)
      && r.value.checkOut == patch.checkOut.GetOr(was.checkOut)
    ensures r.Ok? && !ChangesDates(patch) ==> r.value.totalPrice == bookings[id].totalPrice
    ensures r.Ok? && ChangesDates(patch) ==>
      r.value.totalPrice == CalculateTotalPrice(r.value.checkIn, r.value.checkOut, properties[bookings[id].propertyId].pricePerNight)
  {
    if !OwnedBy(bookings, id, caller) then Err(404, BookingNotFound)
    else
      var was := bookings[id];
      var checkIn := patch.checkIn.GetOr(was.checkIn);
      var checkOut := patch.checkOut.GetOr(was.checkOut);
      if ChangesDates(patch) && was.propertyId !in properties then Err(404, PropertyNotFound)
      else
        var totalPrice :=
          if ChangesDates(patch) then CalculateTotalPrice(checkIn, checkOut, properties[was.propertyId].pricePerNight)
          else was.totalPrice;
        Ok(200, Booking(id, was.userId, patch.propertyId.GetOr(was.propertyId), checkIn, checkOut, totalPrice, was.createdAt, now))
  }

  /** An update is not re-validated: moving the check-in onto the stored check-out is accepted. */
  lemma AmendSkipsRangeCheck(properties: map<PropertyId, Property>, bookings: map<BookingId, Booking>,
                             caller: UserId, id: BookingId, now: Millis)
    requires OwnedBy(bookings, id, caller) && bookings[id].propertyId in properties
    ensures
      var r := Amend(properties, bookings, caller, id, BookingPatch(None, Some(bookings[id].checkOut), None), now);
      r.Ok? && r.value.checkIn >= r.value.checkOut && r.value.totalPrice == 0
  {
    PriceOfWholeDays(bookings[id].checkOut, 0, properties[bookings[id].propertyId].pricePerNight);
  }

  /** An update is not checked against other bookings: the dates of another booking of the
      same property can be copied onto the caller's booking. */
  lemma AmendSkipsOverlapCheck(properties: map<PropertyId, Property>, bookings: map<BookingId, Booking>,
                               caller: UserId, id: BookingId, other: BookingId, now: Millis)
    requires OwnedBy(bookings, id, caller) && bookings[id].propertyId in properties
    requires other in bookings && other != id && bookings[other].propertyId == bookings[id].propertyId
    requires bookings[other].checkIn < bookings[other].checkOut
    ensures
      var r := Amend(properties, bookings, caller, id,
                     BookingPatch(None, Some(bookings[other].checkIn), Some(bookings[other].checkOut)), now);
      r.Ok? && r.value.propertyId == bookings[other].propertyId &&
      Overlaps(r.value.checkIn, r.value.checkOut, bookings[other].checkIn, bookings[other].checkOut)
  {
  }

  /** PUT /bookings/:id. */
  method UpdateBooking(db: Database, caller: User, id: BookingId, patch: BookingPatch, now: Millis) returns (r: Reply<Booking>)
    requires db.Valid()
    modifies db
    ensures db.Valid()
    ensures r == Amend(old(db.properties), old(db.bookings), caller.id, id, patch, now)
    ensures r.Ok? ==> db.bookings == old(db.bookings)[id := r.value]
    ensures r.Err? ==> db.bookings == old(db.bookings)
    ensures db.users == old(db.users) && db.properties == old(db.properties)
    ensures db.nextBookingId == old(db.nextBookingId) && db.nextPropertyId == old(db.nextPropertyId)
  {
    if !(id in db.bookings && db.bookings[id].userId == caller.id) {
      return Err(404, BookingNotFound);
    }
    var existing := db.bookings[id];
    var totalPrice := existing.totalPrice;
    if patch.checkIn.Some? || patch.checkOut.Some? {
      var checkIn := patch.checkIn.GetOr(existing.checkIn);
      var checkOut := patch.checkOut.GetOr(existing.checkOut);
      if existing.propertyId !in db.properties {
        return Err(404, PropertyNotFound);
      }
      totalPrice := CalculateTotalPrice(checkIn, checkOut, db.properties[existing.propertyId].pricePerNight);
    }
    var updated := existing.(
      propertyId := patch.propertyId.GetOr(existing.propertyId),
      checkIn := patch.checkIn.GetOr(existing.checkIn),
      checkOut := patch.checkOut.GetOr(existing.checkOut),
      totalPrice := totalPrice,
      updatedAt := now);
    db.bookings := db.bookings[id := updated];
    r := Ok(200, updated);
  }

  /** DELETE /bookings/:id. */
  method DeleteBooking(db: Database, caller: User, id: BookingId) returns (r: Reply<string>)
    requires db.Valid()
    modifies db
    ensures db.Valid()
    ensures OwnedBy(old(db.bookings), id, caller.id) ==>
      r == Ok(200, BookingDeleted) && db.bookings == old(db.bookings) - {id}
    ensures !OwnedBy(old(db.bookings), id, caller.id) ==>
      r == Err(404, BookingNotFound) && db.bookings == old(db.bookings)
    ensures db.users == old(db.users) && db.properties == old(db.properties)
    ensures db.nextBookingId == old(db.nextBookingId) && db.nextPropertyId == old(db.nextPropertyId)
  {
    if !(id in db.bookings && db.bookings[id].userId == caller.id) {
      return Err(404, BookingNotFound);
    }
    db.bookings := db.bookings - {id};
    r := Ok(200, BookingDeleted);
  }
}
