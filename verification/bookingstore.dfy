/** The booking collection as a finite map from identifier to booking. */
module BookingStore {
  import opened Types
  import opened Text
  import Lifecycle

  type Store = map<Id, Booking>

  /** The booking a valid submission becomes: status "Pending", no timestamps,
      created now, every submitted field kept as it came. */
  function NewBooking(f: BookingForm, now: Time): (b: Booking)
    ensures FormOf(b) == f
    ensures b.status == StatusPending
    ensures b.pickupTime == None && b.deliveryTime == None
    ensures b.createdAt == now
  {
    Booking(f.name, f.phone, f.pickup, f.drop, f.date, StatusPending, None, None, now)
  }

  /** Saving a new booking under a fresh identifier. */
  function Create(store: Store, id: Id, f: BookingForm, now: Time): (s': Store)
    requires id !in store
    ensures s'.Keys == store.Keys + {id}
    ensures |s'| == |store| + 1
    ensures s'[id] == NewBooking(f, now)
    ensures forall k | k in store :: s'[k] == store[k]
  {
    store[id := NewBooking(f, now)]
  }

  /** Delete by identifier: removes it when present, changes nothing otherwise. */
  function Delete(store: Store, id: Id): (s': Store)
    ensures s'.Keys == store.Keys - {id}
    ensures forall k | k in s' :: s'[k] == store[k]
    ensures id !in store ==> s' == store
  {
    store - {id}
  }

  /** The store after an update, and the updated booking (`None` for an unknown id). */
  datatype Updated = Updated(store: Store, booking: Option<Booking>)

  /** Update by identifier with the status rule; an unknown id changes nothing. */
  function Update(store: Store, id: Id, status: string, now: Time): (u: Updated)
    ensures u.store.Keys == store.Keys
    ensures forall k | k in store && k != id :: u.store[k] == store[k]
    ensures id !in store ==> u.store == store && u.booking == None
    ensures id in store ==>
      && u.booking == Some(u.store[id])
      && u.store[id] == Lifecycle.Transition(store[id], status, now)
  {
    if id in store then
      var b := Lifecycle.Transition(store[id], status, now);
      Updated(store[id := b], Some(b))
    else
      Updated(store, None)
  }

  /** Deleting what was just created gives back the store as it was. */
  lemma DeleteUndoesCreate(store: Store, id: Id, f: BookingForm, now: Time)
    requires id !in store
    ensures Delete(Create(store, id, f, now), id) == store
  {
  }

  // ---- Listing and tracking over the store's own iteration order ----

  /** Every identifier in `order` is stored. */
  predicate InStore(order: seq<Id>, store: Store) {
    forall k | 0 <= k < |order| :: order[k] in store
  }

  /** `order` lists every stored identifier exactly once: the order in which the
      store hands its documents back. */
  predicate Enumerates(order: seq<Id>, store: Store) {
    && InStore(order, store)
    && (forall id | id in store :: id in order)
    && (forall i, j | 0 <= i < j < |order| :: order[i] != order[j])
  }

  /** Every stored booking, in the store's order. */
  function ListAll(store: Store, order: seq<Id>): (r: seq<Entry>)
    requires InStore(order, store)
    ensures |r| == |order|
    ensures forall k | 0 <= k < |r| :: r[k].id == order[k] && r[k].booking == store[order[k]]
  {
    seq(|order|, k requires 0 <= k < |order| => Entry(order[k], store[order[k]]))
  }

  /** Reference definition of tracking: the entries, in the store's order, whose
      phone contains the fragment. */
  function Matching(store: Store, order: seq<Id>, frag: string): seq<Entry>
    requires InStore(order, store)
    decreases |order|
  {
    if |order| == 0 then []
    else
      var id := order[|order| - 1];
      Matching(store, order[..|order| - 1], frag)
        + (if Contains(store[id].phone, frag) then [Entry(id, store[id])] else [])
  }

  /** Tracking by phone fragment: one pass over the store, keeping each booking whose
      phone contains the fragment. */
  method Track(store: Store, order: seq<Id>, frag: string) returns (found: seq<Entry>)
    requires InStore(order, store)
    ensures found == Matching(store, order, frag)
  {
    found := [];
    var i := 0;
    while i < |order|
      invariant 0 <= i <= |order|
      invariant found == Matching(store, order[..i], frag)
    {
      var id := order[i];
      var b := store[id];
      var at := Find(b.phone, frag);
      if at != -1 {
        found := found + [Entry(id, b)];
      }
      assert order[..i + 1][..i] == order[..i];
      i := i + 1;
    }
    assert order[..i] == order;
  }

  /** An entry is tracked exactly when it is a stored booking, listed by the store,
      whose phone contains the fragment. */
  lemma {:induction false} MatchingMembers(store: Store, order: seq<Id>, frag: string, e: Entry)
    requires InStore(order, store)
    ensures e in Matching(store, order, frag) <==>
      e.id in store && e.id in order && e.booking == store[e.id] && Contains(e.booking.phone, frag)
    decreases |order|
  {
    if |order| > 0 {
      var init, id := order[..|order| - 1], order[|order| - 1];
      assert order == init + [id];
      MatchingMembers(store, init, frag, e);
    }
  }

  /** Over the full store: tracking returns exactly the stored bookings whose phone
      contains the fragment, and only bookings that are in the store. */
  lemma TrackExact(store: Store, order: seq<Id>, frag: string)
    requires Enumerates(order, store)
    ensures forall e | e in Matching(store, order, frag) :: e.id in store && store[e.id] == e.booking
    ensures forall id | id in store && Contains(store[id].phone, frag) ::
      Entry(id, store[id]) in Matching(store, order, frag)
  {
    forall e | e in Matching(store, order, frag)
      ensures e.id in store && store[e.id] == e.booking
    {
      MatchingMembers(store, order, frag, e);
    }
    forall id | id in store && Contains(store[id].phone, frag)
      ensures Entry(id, store[id]) in Matching(store, order, frag)
    {
      MatchingMembers(store, order, frag, Entry(id, store[id]));
    }
  }

  /** No identifier is listed twice. */
  predicate DistinctIds(r: seq<Entry>) {
    forall i, j | 0 <= i < j < |r| :: r[i].id != r[j].id
  }

  /** Over an order that lists each id once, tracking lists each booking at most once. */
  lemma {:induction false} MatchingDistinct(store: Store, order: seq<Id>, frag: string)
    requires InStore(order, store)
    requires forall i, j | 0 <= i < j < |order| :: order[i] != order[j]
    ensures DistinctIds(Matching(store, order, frag))
    decreases |order|
  {
    if |order| > 0 {
      var init, id := order[..|order| - 1], order[|order| - 1];
      MatchingDistinct(store, init, frag);
      var prev := Matching(store, init, frag);
      forall e | e in prev
        ensures e.id != id
      {
        MatchingMembers(store, init, frag, e);
        var k :| 0 <= k < |init| && init[k] == e.id;
        assert order[k] == e.id;
      }
      var r := Matching(store, order, frag);
      assert r == prev + (if Contains(store[id].phone, frag) then [Entry(id, store[id])] else []);
      forall i, j | 0 <= i < j < |r|
        ensures r[i].id != r[j].id
      {
        if j >= |prev| {
          assert r[j] == Entry(id, store[id]);
          assert r[i] == prev[i];
          assert r[i] in prev;
        } else {
          assert r[i] == prev[i] && r[j] == prev[j];
        }
      }
    }
  }

  /** An empty fragment tracks every booking: the listing and the tracking agree.
      The tracking route needs a non-empty path segment, so the service itself is
      never asked for an empty fragment; this relates the two reads of the store. */
  lemma {:induction false} TrackEmptyListsAll(store: Store, order: seq<Id>)
    requires InStore(order, store)
    ensures Matching(store, order, "") == ListAll(store, order)
    decreases |order|
  {
    if |order| > 0 {
      var init, id := order[..|order| - 1], order[|order| - 1];
      TrackEmptyListsAll(store, init);
      ContainsEmpty(store[id].phone);
      assert ListAll(store, order) == ListAll(store, init) + [Entry(id, store[id])];
    }
  }

  /** An enumeration has as many identifiers as the store has bookings, so the
      listing holds each booking once. */
  lemma ListAllSize(store: Store, order: seq<Id>)
    requires Enumerates(order, store)
    ensures |ListAll(store, order)| == |store|
  {
    DistinctCard(order);
    assert (set id | id in order) == store.Keys;
  }

  lemma {:induction false} DistinctCard(order: seq<Id>)
    requires forall i, j | 0 <= i < j < |order| :: order[i] != order[j]
    ensures |set id | id in order| == |order|
    decreases |order|
  {
    if |order| > 0 {
      var init, last := order[..|order| - 1], order[|order| - 1];
      DistinctCard(init);
      assert (set id | id in order) == (set id | id in init) + {last};
      assert last !in (set id | id in init);
    }
  }
}
