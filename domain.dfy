/** Row shapes shared by the API and the pages: users, properties and bookings. */
module Domain {

  datatype Option<+T> = None | Some(value: T) {
    function GetOr(default: T): T {
      match this
      case Some(v) => v
      case None => default
    }
  }

  /** Identifiers are issued by the database; the model uses naturals. */
  type UserId = nat
  type PropertyId = nat
  type BookingId = nat

  /** Instants in milliseconds since the epoch. */
  type Millis = int

  /** Amounts of money in minor units (cents). */
  type Money = int

  datatype User = User(
    id: UserId,
    name: string,
    email: string,
    isAdmin: bool,
    createdAt: Millis,
    updatedAt: Millis)

  datatype Property = Property(
    id: PropertyId,
    name: string,
    description: string,
    location: string,
    pricePerNight: Money,
    availability: bool,
    imageUrl: Option<string>,
    userId: UserId,
    createdAt: Millis,
    updatedAt: Millis)

  datatype Booking = Booking(
    id: BookingId,
    userId: UserId,
    propertyId: PropertyId,
    checkIn: Millis,
    checkOut: Millis,
    totalPrice: Money,
    createdAt: Millis,
    updatedAt: Millis)

  /** An HTTP reply: a status with a JSON payload, or a status with an error message. */
  datatype Reply<+T> = Ok(status: nat, value: T) | Err(status: nat, error: string)

  function PropertyKey(p: Property): PropertyId { p.id }
  function BookingKey(b: Booking): BookingId { b.id }
  function PropertyCreatedAt(p: Property): Millis { p.createdAt }
  function BookingCreatedAt(b: Booking): Millis { b.createdAt }
}
