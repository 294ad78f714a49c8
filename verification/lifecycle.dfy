/** The status update rule: the requested status and the clock build an update
    document, which is then merged into the stored booking. */
module Lifecycle {
  import opened Types

  /** The update document: the status is always written; a timestamp is written only
      when it is `Some`. */
  datatype Patch = Patch(status: string, pickupTime: Option<Time>, deliveryTime: Option<Time>)

  /** The update built for a requested status at clock value `now`. */
  function PatchFor(status: string, now: Time): (p: Patch)
    ensures p.status == status
    ensures p.pickupTime.Some? <==> status == StatusPickedUp
    ensures p.deliveryTime.Some? <==> status == StatusDelivered
    ensures p.pickupTime.Some? ==> p.pickupTime.value == now
    ensures p.deliveryTime.Some? ==> p.deliveryTime.value == now
  {
    if status == StatusPickedUp then Patch(status, Some(now), None)
    else if status == StatusDelivered then Patch(status, None, Some(now))
    else Patch(status, None, None)
  }

  /** Merging an update document into a booking: the fields it carries are
      overwritten and every other field keeps its value. */
  function Apply(b: Booking, p: Patch): (b': Booking)
    ensures b'.status == p.status
    ensures p.pickupTime.Some? ==> b'.pickupTime == p.pickupTime
    ensures p.pickupTime.None? ==> b'.pickupTime == b.pickupTime
    ensures p.deliveryTime.Some? ==> b'.deliveryTime == p.deliveryTime
    ensures p.deliveryTime.None? ==> b'.deliveryTime == b.deliveryTime
    ensures FormOf(b') == FormOf(b) && b'.createdAt == b.createdAt
  {
    b.(status := p.status,
       pickupTime := if p.pickupTime.Some? then p.pickupTime else b.pickupTime,
       deliveryTime := if p.deliveryTime.Some? then p.deliveryTime else b.deliveryTime)
  }

  /** One status update of one booking. */
  function Transition(b: Booking, status: string, now: Time): (b': Booking)
    ensures b'.status == status
    ensures b'.pickupTime == (if status == StatusPickedUp then Some(now) else b.pickupTime)
    ensures b'.deliveryTime == (if status == StatusDelivered then Some(now) else b.deliveryTime)
    ensures FormOf(b') == FormOf(b) && b'.createdAt == b.createdAt
  {
    Apply(b, PatchFor(status, now))
  }

  /** A status update request and the clock value at which it was served. */
  datatype Step = Step(status: string, at: Time)

  /** A booking after a sequence of updates, applied first to last. */
  function Replay(b: Booking, steps: seq<Step>): Booking
    decreases |steps|
  {
    if |steps| == 0 then b else Replay(Transition(b, steps[0].status, steps[0].at), steps[1..])
  }

  /** Some step of the run requests `status`. */
  predicate Requested(steps: seq<Step>, status: string) {
    exists i | 0 <= i < |steps| :: steps[i].status == status
  }

  /** The clock value of the last step requesting `status`, if any. */
  function LastAt(steps: seq<Step>, status: string): (t: Option<Time>)
    ensures t.Some? <==> Requested(steps, status)
    decreases |steps|
  {
    if |steps| == 0 then None
    else if steps[|steps| - 1].status == status then Some(steps[|steps| - 1].at)
    else
      var t := LastAt(steps[..|steps| - 1], status);
      assert forall i | 0 <= i < |steps| - 1 :: steps[..|steps| - 1][i] == steps[i];
      t
  }

  /** Replaying one more step is one more transition. */
  lemma {:induction false} ReplaySnoc(b: Booking, steps: seq<Step>, last: Step)
    ensures Replay(b, steps + [last]) == Transition(Replay(b, steps), last.status, last.at)
    decreases |steps|
  {
    if |steps| == 0 {
      assert (steps + [last])[1..] == [];
    } else {
      assert (steps + [last])[1..] == steps[1..] + [last];
      ReplaySnoc(Transition(b, steps[0].status, steps[0].at), steps[1..], last);
    }
  }

  /** After any sequence of updates: each timestamp is the clock value of the last
      update that requested its status, or the original value if none did; the
      status is the last one requested; the submitted fields and creation time are
      untouched. In particular a later "Picked Up" overwrites an earlier pickup time,
      and no update ever clears a timestamp. */
  lemma {:induction false} ReplayStamps(b: Booking, steps: seq<Step>)
    ensures Replay(b, steps).pickupTime ==
      (if LastAt(steps, StatusPickedUp).Some? then LastAt(steps, StatusPickedUp) else b.pickupTime)
    ensures Replay(b, steps).deliveryTime ==
      (if LastAt(steps, StatusDelivered).Some? then LastAt(steps, StatusDelivered) else b.deliveryTime)
    ensures Replay(b, steps).status == (if |steps| == 0 then b.status else steps[|steps| - 1].status)
    ensures FormOf(Replay(b, steps)) == FormOf(b) && Replay(b, steps).createdAt == b.createdAt
    decreases |steps|
  {
    if |steps| > 0 {
      var init, last := steps[..|steps| - 1], steps[|steps| - 1];
      assert steps == init + [last];
      ReplayStamps(b, init);
      ReplaySnoc(b, init, last);
    }
  }

  /** Once set, a timestamp stays set whatever updates follow. */
  lemma StampsPersist(b: Booking, steps: seq<Step>)
    ensures b.pickupTime.Some? ==> Replay(b, steps).pickupTime.Some?
    ensures b.deliveryTime.Some? ==> Replay(b, steps).deliveryTime.Some?
  {
    ReplayStamps(b, steps);
  }

  /** A timestamp is set after a run of updates from a fresh booking exactly when one
      of them requested the matching status. */
  lemma StampSetIffRequested(b: Booking, steps: seq<Step>)
    requires b.pickupTime.None? && b.deliveryTime.None?
    ensures Replay(b, steps).pickupTime.Some? <==> Requested(steps, StatusPickedUp)
    ensures Replay(b, steps).deliveryTime.Some? <==> Requested(steps, StatusDelivered)
  {
    ReplayStamps(b, steps);
  }
}
