/** Records of the booking service: what the two forms submit and what the
    document store keeps for each booking and contact message. */
module Types {

  datatype Option<+T> = None | Some(value: T)

  /** A point in time in milliseconds since the epoch, as a JavaScript Date holds it. */
  type Time = int

  /** A document identifier. Generating fresh identifiers is the store's job and is
      not modelled: callers pass one that is not yet in use. */
  type Id = string

  /** The status strings the service gives meaning to. Any other string is still a
      legal status; it simply touches no timestamp. */
  const StatusPending: string := "Pending"
  const StatusPickedUp: string := "Picked Up"
  const StatusDelivered: string := "Delivered"

  /** The body of a booking submission. An empty string stands for a missing field. */
  datatype BookingForm = BookingForm(name: string, phone: string, pickup: string, drop: string, date: string)

  /** A stored booking. `date` is kept as submitted; the cast to a calendar date is
      outside the model. */
  datatype Booking = Booking(
    name: string,
    phone: string,
    pickup: string,
    drop: string,
    date: string,
    status: string,
    pickupTime: Option<Time>,
    deliveryTime: Option<Time>,
    createdAt: Time)

  /** The submitted fields a booking still carries. */
  function FormOf(b: Booking): BookingForm {
    BookingForm(b.name, b.phone, b.pickup, b.drop, b.date)
  }

  /** The body of a contact submission. */
  datatype ContactForm = ContactForm(name: string, email: string, message: string)

  /** A stored contact message. */
  datatype Contact = Contact(name: string, email: string, message: string, createdAt: Time)

  /** One element of a listing: a booking together with its identifier. */
  datatype Entry = Entry(id: Id, booking: Booking)
}
