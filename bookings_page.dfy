/** The bookings page: the nights shown for a booking, and cancelling a booking. */
module BookingsPage {
  import opened Domain
  import opened Seqs
  import opened Client
  import Bookings

  const CancelFailed := "Failed to cancel booking"

  /** calculateNights: Math.ceil of the difference in days, computed on the client. */
  function CalculateNights(checkIn: Millis, checkOut: Millis): (nights: int)
    ensures nights == Bookings.DaysBetween(checkIn, checkOut)
  {
    -((checkIn - checkOut) / (1000 * 3600 * 24))
  }

  /** calculateNights of the same instants, times the nightly rate, equals the price the server computes. */
  lemma NightsMatchServerPrice(checkIn: Millis, checkOut: Millis, pricePerNight: Money)
    ensures Bookings.CalculateTotalPrice(checkIn, checkOut, pricePerNight) == CalculateNights(checkIn, checkOut) * pricePerNight
  {
  }

  /** Whole-day stays show their number of days; equal dates show zero nights. */
  lemma WholeDayNights(checkIn: Millis, k: int)
    ensures CalculateNights(checkIn, checkIn + k * Bookings.MsPerDay) == k
    ensures CalculateNights(checkIn, checkIn) == 0
  {
    Bookings.WholeDays(checkIn, k);
    Bookings.WholeDays(checkIn, 0);
  }

  /** `bookings.filter((b) => b.id !== id)`. */
  function WithoutBooking(bookings: seq<Booking>, id: BookingId): (r: seq<Booking>)
    ensures forall b :: b in r <==> b in bookings && b.id != id
    ensures forall b: Booking :: b.id != id ==> multiset(r)[b] == multiset(bookings)[b]
    ensures IsSubsequence(r, bookings)
  {
    Filter(bookings, (b: Booking) => b.id != id)
  }

  /** The page state that handleDelete updates. */
  class BookingsView {
    var bookings: seq<Booking>
    var error: string

    constructor (bookings: seq<Booking>)
      ensures this.bookings == bookings && error == ""
    {
      this.bookings := bookings;
      error := "";
    }

    /** handleDelete: the user's answer to the confirm dialog and the outcome of the API call
        are inputs; `requested` tells whether the API was called at all. */
    method HandleDelete(id: BookingId, confirmed: bool, call: CallResult) returns (requested: bool)
      modifies this
      ensures requested == confirmed
      ensures confirmed && call.Resolved? ==> bookings == WithoutBooking(old(bookings), id) && error == old(error)
      ensures confirmed && call.Rejected? ==> bookings == old(bookings) && error == ErrorText(call.serverError, CancelFailed)
      ensures !confirmed ==> bookings == old(bookings) && error == old(error)
    {
      if !confirmed {
        return false;
      }
      requested := true;
      match call
      case Resolved =>
        bookings := WithoutBooking(bookings, id);
      case Rejected(serverError) =>
        error := ErrorText(serverError, CancelFailed);
    }
  }
}
