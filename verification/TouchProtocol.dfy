/**
 * The receiver of the touch stream, and the proof that it always sees the tracker.
 *
 * The receiver follows the Linux kernel document "Multi-touch (MT) Protocol", type B: a slot
 * event selects a slot, a tracking id opens or (as -1) closes the contact in it, and
 * positions belong to the selected slot. Everything else is no business of the protocol.
 */
module TouchProtocol {
  import opened Options
  import opened TouchTracker

  datatype Contact = Contact(id: nat, x: Option<nat>, y: Option<nat>)

  datatype Receiver = Receiver(slot: Option<nat>, contacts: seq<Option<Contact>>)

  function Idle(): Receiver {
    Receiver(None, seq(16, _ => None))
  }

  /** Absolute events (type 3): 0x2f selects a slot, 0x39 is a tracking id, 0x35 and 0x36 are
      the position. */
  function Receive(r: Receiver, e: Event): Receiver {
    if e.kind != 3 then r
    else if e.code == 0x2f then r.(slot := Some(e.value))
    else if r.slot.None? || r.slot.value >= |r.contacts| then r
    else
      var i := r.slot.value;
      if e.code == 0x39 then
        r.(contacts := r.contacts[i := if e.value == 0xffff_ffff then None else Some(Contact(e.value, None, None))])
      else if r.contacts[i].None? then r
      else if e.code == 0x35 then
        r.(contacts := r.contacts[i := Some(r.contacts[i].value.(x := Some(e.value)))])
      else if e.code == 0x36 then
        r.(contacts := r.contacts[i := Some(r.contacts[i].value.(y := Some(e.value)))])
      else r
  }

  function ReceiveAll(r: Receiver, es: seq<Event>): Receiver {
    if es == [] then r else Receive(ReceiveAll(r, es[..|es| - 1]), es[|es| - 1])
  }

  // What the receiver should see.

  function Shown(f: Option<Finger>): Option<Contact> {
    if f.None? || f.value.id.None? then None
    else
      Some(Contact(f.value.id.value,
                   if f.value.pos.Some? then Some(f.value.pos.value.0) else None,
                   if f.value.pos.Some? then Some(f.value.pos.value.1) else None))
  }

  function Picture(fingers: Fingers): (p: seq<Option<Contact>>)
    ensures |p| == |fingers| && forall i :: 0 <= i < |p| ==> p[i] == Shown(fingers[i])
  {
    seq(|fingers|, i requires 0 <= i < |fingers| => Shown(fingers[i]))
  }

  function Tracker(s: Sender): Receiver {
    Receiver(if s.active == NO_SLOT then None else Some(s.active), Picture(s.fingers))
  }

  /** Every live finger has its tracking id and its position. */
  predicate Complete(fingers: Fingers) {
    forall i :: 0 <= i < |fingers| && fingers[i].Some? ==>
                  fingers[i].value.id.Some? && fingers[i].value.pos.Some? && fingers[i].value.id.value < ID_LIMIT
  }

  function View(s: Sender): Receiver {
    ReceiveAll(Idle(), s.sent + s.queue)
  }

  ghost predicate Mirrored(s: Sender) {
    Valid(s) && View(s) == Tracker(s)
  }

  // The stream, event by event.

  lemma {:induction false} ReceiveAppend(r: Receiver, a: seq<Event>, b: seq<Event>)
    ensures ReceiveAll(r, a + b) == ReceiveAll(ReceiveAll(r, a), b)
    decreases |b|
  {
    if b == [] {
      assert a + b == a;
    } else {
      assert (a + b)[..|a + b| - 1] == a + b[..|b| - 1];
      ReceiveAppend(r, a, b[..|b| - 1]);
    }
  }

  /** Queueing more events is receiving more events. */
  lemma Queued(s: Sender, es: seq<Event>)
    ensures View(s.(queue := s.queue + es)) == ReceiveAll(View(s), es)
  {
    assert s.sent + (s.queue + es) == s.sent + s.queue + es;
    ReceiveAppend(Idle(), s.sent + s.queue, es);
  }

  lemma ReceiveOne(r: Receiver, e: Event)
    ensures ReceiveAll(r, [e]) == Receive(r, e)
  {
    assert [e][..0] == [];
  }

  predicate Silent(e: Event) {
    e.kind != 3 || (e.code != 0x2f && e.code != 0x39 && e.code != 0x35 && e.code != 0x36)
  }

  lemma {:induction false} SilentEvents(r: Receiver, es: seq<Event>)
    requires forall i :: 0 <= i < |es| ==> Silent(es[i])
    ensures ReceiveAll(r, es) == r
  {
    if es != [] {
      SilentEvents(r, es[..|es| - 1]);
    }
  }

  // One call.

  /** Sending what is queued shows the receiver nothing new. */
  lemma SyncMirrors(s: Sender)
    requires Mirrored(s)
    ensures Mirrored(Sync(s))
  {
    hide ReceiveAll;
    if s.queue != [] {
      var tail := Pointer(s) + [Event(EV_SYN, SYN_REPORT, 0)] + Blank(|Pointer(s)|);
      assert forall i :: 0 <= i < |tail| ==> Silent(tail[i]);
      Queued(s, tail);
      SilentEvents(View(s), tail);
      assert Sync(s).sent + [] == s.sent + (s.queue + tail);
    }
  }

  lemma SelectMirrors(s: Sender, slot: nat)
    requires Mirrored(s) && slot < MAX_FINGERS
    ensures Mirrored(Select(s, slot)) && Select(s, slot).active == slot
  {
    hide ReceiveAll;
    Queued(s, [Abs(ABS_MT_SLOT, slot)]);
    ReceiveOne(View(s), Abs(ABS_MT_SLOT, slot));
    ViewIgnores(s.(queue := s.queue + [Abs(ABS_MT_SLOT, slot)]), slot);
  }

  lemma ViewIgnores(s: Sender, slot: nat)
    ensures View(s.(active := slot)) == View(s)
  {
  }

  lemma IdentifyMirrors(s: Sender, slot: nat)
    requires Mirrored(s) && slot < MAX_FINGERS && s.active == slot && s.fingers[slot].Some?
    requires s.fingers[slot].value.id.None? ==> s.fingers[slot].value.pos.None?
    ensures Mirrored(Identify(s, slot)) && Identify(s, slot).fingers[slot].value.id.Some?
  {
    hide ReceiveAll;
    if s.fingers[slot].value.id.None? {
      var id := (s.lastId + 1) % ID_LIMIT;
      var e := Abs(ABS_MT_TRACKING_ID, id);
      Queued(s, [e]);
      ReceiveOne(View(s), e);
      var after := Identify(s, slot);
      assert View(after) == View(s.(queue := s.queue + [e]));
      assert Picture(after.fingers) == Picture(s.fingers)[slot := Some(Contact(id, None, None))];
    }
  }

  lemma PlaceMirrors(s: Sender, slot: nat, pos: (nat, nat))
    requires Mirrored(s) && s.multi && slot < MAX_FINGERS && s.active == slot
    requires s.fingers[slot].Some? && s.fingers[slot].value.id.Some?
    ensures Mirrored(Place(s, slot, pos))
  {
    hide ReceiveAll;
    var finger, after := s.fingers[slot].value, Place(s, slot, pos);
    Queued(s, Moved(finger.pos, pos));
    MovedShows(View(s), slot, finger, pos);
    assert View(after) == View(s.(queue := s.queue + Moved(finger.pos, pos)));
    assert Picture(after.fingers) == Picture(s.fingers)[slot := Shown(Some(finger.(pos := Some(pos))))];
  }

  lemma MovedShows(r: Receiver, slot: nat, finger: Finger, pos: (nat, nat))
    requires r.slot == Some(slot) && slot < |r.contacts| && finger.id.Some?
    requires r.contacts[slot] == Shown(Some(finger))
    ensures ReceiveAll(r, Moved(finger.pos, pos)) ==
            r.(contacts := r.contacts[slot := Shown(Some(finger.(pos := Some(pos))))])
  {
    hide ReceiveAll;
    var xs := if finger.pos.None? || finger.pos.value.0 != pos.0 then [Abs(ABS_MT_POSITION_X, pos.0)] else [];
    var ys := if finger.pos.None? || finger.pos.value.1 != pos.1 then [Abs(ABS_MT_POSITION_Y, pos.1)] else [];
    assert Moved(finger.pos, pos) == xs + ys;
    ReceiveAppend(r, xs, ys);
    ReceiveNone(r);
    ReceiveOne(r, Abs(ABS_MT_POSITION_X, pos.0));
    var mid := ReceiveAll(r, xs);
    ReceiveNone(mid);
    ReceiveOne(mid, Abs(ABS_MT_POSITION_Y, pos.1));
  }

  lemma ReceiveNone(r: Receiver)
    ensures ReceiveAll(r, []) == r
  {
  }

  lemma LiftMirrors(s: Sender, slot: nat)
    requires Mirrored(s) && s.multi && slot < MAX_FINGERS && s.active == slot
    ensures Mirrored(Lift(s, slot))
  {
    hide ReceiveAll;
    var e := Abs(ABS_MT_TRACKING_ID, LIFTED);
    var buttons := if s.single then [Key(0)] else [];
    var lifted, after := s.(queue := s.queue + [e]), Lift(s, slot);
    Queued(s, [e]);
    ReceiveOne(View(s), e);
    Queued(lifted, buttons);
    SilentEvents(View(lifted), buttons);
    assert View(after) == View(lifted.(queue := lifted.queue + buttons));
    assert Picture(after.fingers) == Picture(s.fingers)[slot := None];
  }

  lemma ButtonMirrors(s: Sender)
    requires Mirrored(s)
    ensures Mirrored(s.(queue := s.queue + [Key(1)]))
  {
    hide ReceiveAll;
    Queued(s, [Key(1)]);
    SilentEvents(View(s), [Key(1)]);
  }

  lemma ConcludeMirrors(s: Sender, slot: nat, state: TouchState)
    requires Mirrored(s) && s.multi && slot < MAX_FINGERS && s.active == slot && Complete(s.fingers)
    ensures var t := Conclude(s, slot, state).0;
      Mirrored(t) && t.multi && Complete(t.fingers) && (state != Update ==> t.queue == [])
  {
    hide ReceiveAll;
    match state
    case Begin =>
      ButtonMirrors(s);
      SyncMirrors(if s.single then s.(queue := s.queue + [Key(1)]) else s);
    case End =>
      SyncMirrors(s);
      LiftMirrors(Sync(s), slot);
      SyncMirrors(Lift(Sync(s), slot));
    case Update =>
      assert View(s.(deferred := true)) == View(s);
  }

  /** A newly tracked finger is not shown until it has an id. */
  lemma TrackMirrors(s: Sender, sequence: Option<nat>)
    requires Mirrored(s)
    ensures Mirrored(s.(fingers := Tracked(s.fingers, sequence)))
  {
  }

  lemma DescribeMirrors(t: Sender, slot: nat, pos: (nat, nat))
    requires Mirrored(t) && t.multi && slot < MAX_FINGERS && t.fingers[slot].Some?
    requires t.fingers[slot].value.id.None? ==> t.fingers[slot].value.pos.None?
    requires Complete(t.fingers[slot := None])
    requires t.fingers[slot].value.id.Some? ==> t.fingers[slot].value.id.value < ID_LIMIT
    ensures var u := Describe(t, slot, pos);
      Mirrored(u) && u.multi && u.active == slot && Complete(u.fingers)
  {
    hide ReceiveAll, View, Picture;
    SelectMirrors(t, slot);
    var u := Select(t, slot);
    IdentifyMirrors(u, slot);
    PlaceMirrors(Identify(u, slot), slot, pos);
    var before, after := t.fingers[slot := None], Describe(t, slot, pos).fingers;
    assert forall i :: 0 <= i < MAX_FINGERS && i != slot ==> after[i] == before[i];
  }

  /** With multi-touch on, a touch event keeps the receiver's view equal to the tracker. */
  lemma PushMirrors(s: Sender, sequence: Option<nat>, state: TouchState, pos: (nat, nat))
    requires Mirrored(s) && s.multi && Complete(s.fingers)
    ensures var t := PushEvent(s, sequence, state, pos).0;
      Mirrored(t) && t.multi && Complete(t.fingers) && (state != Update ==> t.queue == [])
  {
    hide ReceiveAll, View, Picture, Conclude, SlotFor, Describe;
    var slot := SlotFor(s.fingers, sequence);
    var t := s.(fingers := Tracked(s.fingers, sequence));
    TrackMirrors(s, sequence);
    DescribeMirrors(t, slot, pos);
    ConcludeMirrors(Describe(t, slot, pos), slot, state);
  }

  // Whole runs.

  datatype Call = Push(sequence: Option<nat>, state: TouchState, pos: (nat, nat)) | SyncNow

  function After(s: Sender, call: Call): (t: Sender)
    requires Valid(s)
    ensures Valid(t)
  {
    match call
    case Push(sequence, state, pos) => PushEvent(s, sequence, state, pos).0
    case SyncNow => Sync(s)
  }

  function AfterAll(s: Sender, calls: seq<Call>): (t: Sender)
    requires Valid(s)
    ensures Valid(t)
    decreases |calls|
  {
    if calls == [] then s else After(AfterAll(s, calls[..|calls| - 1]), calls[|calls| - 1])
  }

  lemma FreshMirrors(multi: bool, single: bool)
    ensures Mirrored(Fresh(multi, single)) && Complete(Fresh(multi, single).fingers)
  {
    assert Picture(Fresh(multi, single).fingers) == Idle().contacts;
  }

  /**
   * Whatever touches arrive and whenever syncs happen, decoding everything sent and queued
   * gives exactly the tracker: the selected slot, the live slots, their ids and positions.
   * After a touch begins or ends, everything is sent.
   */
  lemma {:induction false} ReceiverSeesTracker(single: bool, calls: seq<Call>)
    ensures var s := AfterAll(Fresh(true, single), calls);
      && s.multi && Complete(s.fingers) && View(s) == Tracker(s)
      && (calls != [] && calls[|calls| - 1] != SyncNow && calls[|calls| - 1].state != Update ==>
            s.queue == [] && ReceiveAll(Idle(), s.sent) == Tracker(s))
    decreases |calls|
  {
    hide ReceiveAll, PushEvent, Picture, Complete;
    if calls == [] {
      FreshMirrors(true, single);
    } else {
      var before := AfterAll(Fresh(true, single), calls[..|calls| - 1]);
      ReceiverSeesTracker(single, calls[..|calls| - 1]);
      match calls[|calls| - 1]
      case Push(sequence, state, pos) =>
        PushMirrors(before, sequence, state, pos);
        var s := AfterAll(Fresh(true, single), calls);
        assert s.queue == [] ==> s.sent + s.queue == s.sent;
      case SyncNow => SyncMirrors(before);
    }
  }

  // The tracker itself.

  /** No touch is followed by two fingers. */
  ghost predicate Distinct(fingers: Fingers) {
    forall i, j, q | 0 <= i < |fingers| && 0 <= j < |fingers| ::
      Follows(fingers[i], q) && Follows(fingers[j], q) ==> i == j
  }

  lemma TrackedIsDistinct(fingers: Fingers, sequence: Option<nat>)
    requires |fingers| == MAX_FINGERS && Distinct(fingers)
    ensures Distinct(Tracked(fingers, sequence))
  {
    hide SlotFor;
  }

  /** A touch keeps its slot for as long as it lives. */
  lemma SlotIsKept(fingers: Fingers, q: nat, slot: nat)
    requires |fingers| == MAX_FINGERS && Distinct(fingers)
    requires slot < MAX_FINGERS && Follows(fingers[slot], q)
    ensures SlotFor(fingers, Some(q)) == slot
  {
  }

  ghost predicate Inherits(before: Fingers, after: Fingers) {
    |before| == |after| && forall i, q | 0 <= i < |after| :: Follows(after[i], q) ==> Follows(before[i], q)
  }

  lemma DescribeInherits(s: Sender, slot: nat, pos: (nat, nat))
    requires Valid(s) && slot < MAX_FINGERS && s.fingers[slot].Some?
    ensures Inherits(s.fingers, Describe(s, slot, pos).fingers)
  {
    hide Moved;
  }

  lemma ConcludeInherits(s: Sender, slot: nat, state: TouchState)
    requires Valid(s) && slot < MAX_FINGERS
    ensures Inherits(s.fingers, Conclude(s, slot, state).0.fingers)
  {
    hide Pointer;
  }

  /** Describing, syncing and lifting never make a finger follow another touch. */
  lemma PushIsDistinct(s: Sender, sequence: Option<nat>, state: TouchState, pos: (nat, nat))
    requires Valid(s) && Distinct(s.fingers)
    ensures Distinct(PushEvent(s, sequence, state, pos).0.fingers)
  {
    hide SlotFor, Tracked, Describe, Conclude;
    TrackedIsDistinct(s.fingers, sequence);
    var slot := SlotFor(s.fingers, sequence);
    var t := s.(fingers := Tracked(s.fingers, sequence));
    DescribeInherits(t, slot, pos);
    ConcludeInherits(Describe(t, slot, pos), slot, state);
  }

  lemma {:induction false} TouchesAreDistinct(multi: bool, single: bool, calls: seq<Call>)
    ensures Distinct(AfterAll(Fresh(multi, single), calls).fingers)
    decreases |calls|
  {
    hide PushEvent;
    if calls != [] {
      var before := AfterAll(Fresh(multi, single), calls[..|calls| - 1]);
      TouchesAreDistinct(multi, single, calls[..|calls| - 1]);
      match calls[|calls| - 1]
      case Push(sequence, state, pos) => PushIsDistinct(before, sequence, state, pos);
      case SyncNow =>
    }
  }
}
