/** The request handlers: each validates, then performs one store operation, and
    answers with an HTTP status code and a JSON body. Storage failures (the 500
    answers) are outside the model. */
module Service {
  import opened Types
  import opened Validation
  import opened BookingStore
  import opened ContactStore
  import Text
  import Lifecycle

  /** Both collections of the document store. */
  datatype Db = Db(bookings: Store, contacts: Contacts)

  /** The JSON bodies the handlers send. */
  datatype Body =
    | Message(text: string)
    | Error(text: string)
    | Listing(entries: seq<Entry>)
    | UpdateBody(text: string, booking: Option<Booking>)

  datatype Reply = Reply(code: nat, body: Body)

  /** The database after a request, and the answer sent. */
  datatype Outcome = Outcome(db: Db, reply: Reply)

  /** The error text sent for each rejection. */
  function RejectionText(r: Rejection): string {
    match r
    case MissingField => "Please fill all fields"
    case InvalidName => "Invalid name. Only letters and spaces allowed."
    case InvalidPhone => "Invalid phone number. Must be 10 digits starting with 6-9."
  }

  /** POST /submit-booking */
  function SubmitBooking(db: Db, f: BookingForm, id: Id, now: Time): (o: Outcome)
    requires id !in db.bookings
    ensures o.reply.code == 201 <==>
      AllBookingFieldsPresent(f) && ValidName(f.name) && ValidPhone(f.phone)
    ensures o.reply.code != 201 ==>
      && o.db == db
      && o.reply.code == 400
      && o.reply.body == Error(RejectionText(CheckBooking(f).value))
    ensures o.reply.code == 201 ==>
      && o.reply.body == Message("Booking submitted successfully")
      && o.db.contacts == db.contacts
      && o.db.bookings.Keys == db.bookings.Keys + {id}
      && o.db.bookings[id] == NewBooking(f, now)
      && (forall k | k in db.bookings :: o.db.bookings[k] == db.bookings[k])
  {
    match CheckBooking(f)
    case Some(reason) => Outcome(db, Reply(400, Error(RejectionText(reason))))
    case None =>
      Outcome(db.(bookings := Create(db.bookings, id, f, now)),
              Reply(201, Message("Booking submitted successfully")))
  }

  /** GET /get-bookings */
  function GetBookings(db: Db, order: seq<Id>): (o: Outcome)
    requires Enumerates(order, db.bookings)
    ensures o.db == db && o.reply.code == 200 && o.reply.body.Listing?
    ensures |o.reply.body.entries| == |db.bookings|
    ensures forall e | e in o.reply.body.entries :: e.id in db.bookings && db.bookings[e.id] == e.booking
    ensures forall id | id in db.bookings :: Entry(id, db.bookings[id]) in o.reply.body.entries
  {
    var all := ListAll(db.bookings, order);
    ListAllSize(db.bookings, order);
    assert forall id | id in db.bookings :: Entry(id, db.bookings[id]) in all by {
      forall id | id in db.bookings
        ensures Entry(id, db.bookings[id]) in all
      {
        var k :| 0 <= k < |order| && order[k] == id;
        assert all[k] == Entry(id, db.bookings[id]);
      }
    }
    Outcome(db, Reply(200, Listing(all)))
  }

  /** DELETE /delete-booking/:id: succeeds whether or not the id was stored. */
  function DeleteBooking(db: Db, id: Id): (o: Outcome)
    ensures o.reply == Reply(200, Message("Booking deleted!"))
    ensures o.db.contacts == db.contacts
    ensures o.db.bookings.Keys == db.bookings.Keys - {id}
    ensures forall k | k in o.db.bookings :: o.db.bookings[k] == db.bookings[k]
    ensures id !in db.bookings ==> o.db == db
  {
    Outcome(db.(bookings := Delete(db.bookings, id)), Reply(200, Message("Booking deleted!")))
  }

  /** PATCH /update-booking/:id: an unknown id answers success with no booking. */
  function UpdateBooking(db: Db, id: Id, status: string, now: Time): (o: Outcome)
    ensures o.reply.code == 200 && o.reply.body.UpdateBody? && o.reply.body.text == "Booking updated!"
    ensures o.db.contacts == db.contacts
    ensures o.db.bookings.Keys == db.bookings.Keys
    ensures forall k | k in db.bookings && k != id :: o.db.bookings[k] == db.bookings[k]
    ensures id !in db.bookings ==> o.db == db && o.reply.body.booking == None
    ensures id in db.bookings ==>
      var b := o.db.bookings[id];
      && o.reply.body.booking == Some(b)
      && b.status == status
      && b.pickupTime == (if status == StatusPickedUp then Some(now) else db.bookings[id].pickupTime)
      && b.deliveryTime == (if status == StatusDelivered then Some(now) else db.bookings[id].deliveryTime)
      && FormOf(b) == FormOf(db.bookings[id])
      && b.createdAt == db.bookings[id].createdAt
  {
    var u := Update(db.bookings, id, status, now);
    Outcome(db.(bookings := u.store), Reply(200, UpdateBody("Booking updated!", u.booking)))
  }

  /** GET /track/:phone */
  method TrackBookings(db: Db, order: seq<Id>, frag: string) returns (o: Outcome)
    requires Enumerates(order, db.bookings)
    ensures o.db == db && o.reply.code == 200 && o.reply.body.Listing?
    ensures forall e | e in o.reply.body.entries :: e.id in db.bookings && db.bookings[e.id] == e.booking
    ensures forall e | e in o.reply.body.entries :: Text.Contains(e.booking.phone, frag)
    ensures forall id | id in db.bookings && Text.Contains(db.bookings[id].phone, frag) ::
      Entry(id, db.bookings[id]) in o.reply.body.entries
    ensures forall i, j | 0 <= i < j < |o.reply.body.entries| ::
      o.reply.body.entries[i].id != o.reply.body.entries[j].id
  {
    var found := Track(db.bookings, order, frag);
    TrackExact(db.bookings, order, frag);
    MatchingDistinct(db.bookings, order, frag);
    forall e | e in found
      ensures Text.Contains(e.booking.phone, frag)
    {
      MatchingMembers(db.bookings, order, frag, e);
    }
    o := Outcome(db, Reply(200, Listing(found)));
  }

  /** POST /contact */
  function SubmitContact(db: Db, f: ContactForm, id: Id, now: Time): (o: Outcome)
    requires id !in db.contacts
    ensures o.reply.code == 201 <==> Present(f.name) && Present(f.email) && Present(f.message)
    ensures o.reply.code != 201 ==>
      o.db == db && o.reply == Reply(400, Error("Please fill all fields"))
    ensures o.reply.code == 201 ==>
      && o.reply.body == Message("Message received")
      && o.db.bookings == db.bookings
      && o.db.contacts.Keys == db.contacts.Keys + {id}
      && o.db.contacts[id] == NewContact(f, now)
      && (forall k | k in db.contacts :: o.db.contacts[k] == db.contacts[k])
  {
    match CheckContact(f)
    case Some(reason) => Outcome(db, Reply(400, Error(RejectionText(reason))))
    case None => Outcome(db.(contacts := Add(db.contacts, id, f, now)), Reply(201, Message("Message received")))
  }

  /** The end-to-end run: a valid booking is stored as the only "Pending" one, and
      marking it "Delivered" straight away sets the delivery time while the pickup
      time stays unset. */
  lemma SubmitThenDeliver(f: BookingForm, id: Id, t0: Time, t1: Time)
    requires AllBookingFieldsPresent(f) && ValidName(f.name) && ValidPhone(f.phone)
    ensures
      var o1 := SubmitBooking(Db(map[], map[]), f, id, t0);
      var o2 := UpdateBooking(o1.db, id, StatusDelivered, t1);
      && o1.reply.code == 201
      && o1.db.bookings.Keys == {id}
      && o1.db.bookings[id].status == StatusPending
      && o2.reply.body.booking.Some?
      && o2.reply.body.booking.value.deliveryTime == Some(t1)
      && o2.reply.body.booking.value.pickupTime == None
  {
  }
}
