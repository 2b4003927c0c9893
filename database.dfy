/** The three tables of the managed database, updated in place by the route handlers. */
module Db {
  import opened Domain
  import opened Tables

  class Database {
    var users: map<UserId, User>
    var properties: map<PropertyId, Property>
    var bookings: map<BookingId, Booking>
    /** The ids the database issues to the next inserted rows. */
    var nextPropertyId: nat
    var nextBookingId: nat

    /** Each row is stored under its own id, and ids still to be issued are unused. */
    ghost predicate Valid()
      reads this
    {
      && (forall id :: id in users ==> users[id].id == id)
      && Bounded(properties, nextPropertyId)
      && Keyed(properties, PropertyKey)
      && Bounded(bookings, nextBookingId)
      && Keyed(bookings, BookingKey)
    }

    constructor (users: map<UserId, User>)
      requires forall id :: id in users ==> users[id].id == id
      ensures Valid()
      ensures this.users == users && properties == map[] && bookings == map[]
    {
      this.users := users;
      properties := map[];
      bookings := map[];
      nextPropertyId := 0;
      nextBookingId := 0;
    }
  }
}
