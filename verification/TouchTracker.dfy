/**
 * The touch sequencer: a tracker of up to sixteen fingers whose changes are sent as deltas,
 * and the receiver that decodes those deltas under the kernel's multi-touch protocol type B.
 */
module TouchTracker {
  import opened Options

  const MAX_FINGERS: nat := 16
  const NO_SLOT: nat := 0xffff
  const ID_LIMIT: nat := 0x1_0000
  const LIFTED: nat := 0xffff_ffff

  const EV_SYN: nat := 0
  const EV_KEY: nat := 1
  const EV_ABS: nat := 3
  const SYN_REPORT: nat := 0
  const ABS_X: nat := 0
  const ABS_Y: nat := 1
  const ABS_MT_SLOT: nat := 0x2f
  const ABS_MT_POSITION_X: nat := 0x35
  const ABS_MT_POSITION_Y: nat := 0x36
  const ABS_MT_TRACKING_ID: nat := 0x39
  const BTN_TOUCH: nat := 0x14a

  datatype Event = Event(kind: nat, code: nat, value: nat)

  /** One finger; `sequence` names the touch it follows, if the toolkit gave it a name. */
  datatype Finger = Finger(sequence: Option<nat>, id: Option<nat>, pos: Option<(nat, nat)>)

  type Fingers = seq<Option<Finger>>

  datatype TouchState = Begin | Update | End

  datatype Sender = Sender(fingers: Fingers, zeroPos: (nat, nat), lastId: nat, active: nat,
                           multi: bool, single: bool, queue: seq<Event>, sent: seq<Event>,
                           deferred: bool)

  function Fresh(multi: bool, single: bool): Sender {
    Sender(seq(MAX_FINGERS, _ => None), (0, 0), 0, NO_SLOT, multi, single, [], [], true)
  }

  predicate Valid(s: Sender) {
    && |s.fingers| == MAX_FINGERS
    && (s.active < MAX_FINGERS || s.active == NO_SLOT)
    && s.lastId < ID_LIMIT
  }

  // Tracking.

  predicate Follows(f: Option<Finger>, sequence: nat) {
    f.Some? && f.value.sequence == Some(sequence)
  }

  /** The slot a touch gets: the one that follows it, else the first free one, else slot 0. */
  ghost predicate IsSlotFor(fingers: Fingers, sequence: Option<nat>, slot: nat) {
    && slot < |fingers|
    && match sequence
       case None => slot == 0
       case Some(q) =>
         if exists i :: 0 <= i < |fingers| && Follows(fingers[i], q) then
           Follows(fingers[slot], q) && forall i :: 0 <= i < slot ==> !Follows(fingers[i], q)
         else if exists i :: 0 <= i < |fingers| && fingers[i].None? then
           fingers[slot].None? && forall i :: 0 <= i < slot ==> fingers[i].Some?
         else slot == 0
  }

  function IndexFollowing(fingers: Fingers, q: nat, from: nat): (slot: nat)
    requires from <= |fingers|
    ensures from <= slot <= |fingers|
    ensures slot < |fingers| ==> Follows(fingers[slot], q)
    ensures forall i :: from <= i < slot ==> !Follows(fingers[i], q)
    decreases |fingers| - from
  {
    if from == |fingers| || Follows(fingers[from], q) then from
    else IndexFollowing(fingers, q, from + 1)
  }

  function IndexFree(fingers: Fingers, from: nat): (slot: nat)
    requires from <= |fingers|
    ensures from <= slot <= |fingers|
    ensures slot < |fingers| ==> fingers[slot].None?
    ensures forall i :: from <= i < slot ==> fingers[i].Some?
    decreases |fingers| - from
  {
    if from == |fingers| || fingers[from].None? then from
    else IndexFree(fingers, from + 1)
  }

  function SlotFor(fingers: Fingers, sequence: Option<nat>): (slot: nat)
    requires |fingers| == MAX_FINGERS
    ensures IsSlotFor(fingers, sequence, slot)
  {
    match sequence
    case None => 0
    case Some(q) =>
      var following, free := IndexFollowing(fingers, q, 0), IndexFree(fingers, 0);
      if following < MAX_FINGERS then following else if free < MAX_FINGERS then free else 0
  }

  function Tracked(fingers: Fingers, sequence: Option<nat>): (r: Fingers)
    requires |fingers| == MAX_FINGERS
    ensures |r| == MAX_FINGERS && r[SlotFor(fingers, sequence)].Some?
  {
    var slot := SlotFor(fingers, sequence);
    if fingers[slot].Some? then fingers else fingers[slot := Some(Finger(sequence, None, None))]
  }

  // Sending.

  function Abs(code: nat, value: nat): Event {
    Event(EV_ABS, code, value)
  }

  function Key(value: nat): Event {
    Event(EV_KEY, BTN_TOUCH, value)
  }

  /** Single-touch motion of finger 0, if that is wanted and it moved since the last report. */
  function Pointer(s: Sender): seq<Event>
    requires Valid(s)
  {
    if s.single && s.fingers[0].Some? && s.fingers[0].value.pos.Some? then
      var pos := s.fingers[0].value.pos.value;
      (if pos.0 != s.zeroPos.0 then [Abs(ABS_X, pos.0)] else []) +
      (if pos.1 != s.zeroPos.1 then [Abs(ABS_Y, pos.1)] else [])
    else []
  }

  function ZeroPosAfter(s: Sender): (nat, nat)
    requires Valid(s)
  {
    if s.single && s.fingers[0].Some? && s.fingers[0].value.pos.Some? then s.fingers[0].value.pos.value
    else s.zeroPos
  }

  function Blank(n: nat): (es: seq<Event>)
    ensures |es| == n && forall i :: 0 <= i < n ==> es[i] == Event(0, 0, 0)
  {
    seq(n, _ => Event(0, 0, 0))
  }

  /** Sends the queue and a report; as many blank events follow as there were pointer events. */
  function Sync(s: Sender): (r: Sender)
    requires Valid(s)
    ensures Valid(r) && r.queue == []
  {
    if s.queue == [] then s
    else
      var pointer := Pointer(s);
      s.(deferred := false, zeroPos := ZeroPosAfter(s), queue := [],
         sent := s.sent + (s.queue + pointer + [Event(EV_SYN, SYN_REPORT, 0)] + Blank(|pointer|)))
  }

  /** Selects the slot of the finger about to be described. */
  function Select(s: Sender, slot: nat): Sender {
    if s.active != slot then s.(queue := s.queue + [Abs(ABS_MT_SLOT, slot)], active := slot) else s
  }

  /** Gives a new contact its tracking id. */
  function Identify(s: Sender, slot: nat): Sender
    requires slot < |s.fingers| && s.fingers[slot].Some?
  {
    var finger := s.fingers[slot].value;
    if finger.id.None? then
      var id := (s.lastId + 1) % ID_LIMIT;
      s.(lastId := id, fingers := s.fingers[slot := Some(finger.(id := Some(id)))],
         queue := s.queue + [Abs(ABS_MT_TRACKING_ID, id)])
    else s
  }

  /** The coordinates that differ from the last ones of this finger. */
  function Moved(before: Option<(nat, nat)>, pos: (nat, nat)): seq<Event> {
    (if before.None? || before.value.0 != pos.0 then [Abs(ABS_MT_POSITION_X, pos.0)] else []) +
    (if before.None? || before.value.1 != pos.1 then [Abs(ABS_MT_POSITION_Y, pos.1)] else [])
  }

  function Place(s: Sender, slot: nat, pos: (nat, nat)): Sender
    requires slot < |s.fingers| && s.fingers[slot].Some?
  {
    var finger := s.fingers[slot].value;
    s.(fingers := s.fingers[slot := Some(finger.(pos := Some(pos)))],
       queue := s.queue + if s.multi then Moved(finger.pos, pos) else [])
  }

  function Describe(s: Sender, slot: nat, pos: (nat, nat)): (r: Sender)
    requires Valid(s) && slot < MAX_FINGERS && s.fingers[slot].Some?
    ensures Valid(r)
  {
    if s.multi then Place(Identify(Select(s, slot), slot), slot, pos) else Place(s, slot, pos)
  }

  function Lift(s: Sender, slot: nat): (r: Sender)
    requires Valid(s) && slot < MAX_FINGERS
    ensures Valid(r)
  {
    s.(fingers := s.fingers[slot := None],
       queue := s.queue + (if s.multi then [Abs(ABS_MT_TRACKING_ID, LIFTED)] else [])
                + (if s.single then [Key(0)] else []))
  }

  function Conclude(s: Sender, slot: nat, state: TouchState): (r: (Sender, bool))
    requires Valid(s) && slot < MAX_FINGERS
    ensures Valid(r.0)
  {
    match state
    case Begin => (Sync(if s.single then s.(queue := s.queue + [Key(1)]) else s), false)
    case End => (Sync(Lift(Sync(s), slot)), false)
    case Update => (s.(deferred := true), !s.deferred)
  }

  /** One touch event; the result tells whether a deferred sync should be scheduled. */
  function PushEvent(s: Sender, sequence: Option<nat>, state: TouchState, pos: (nat, nat)): (r: (Sender, bool))
    requires Valid(s)
    ensures Valid(r.0)
  {
    var slot := SlotFor(s.fingers, sequence);
    var t := s.(fingers := Tracked(s.fingers, sequence));
    if !s.multi && slot != 0 then (t, false)
    else Conclude(Describe(t, slot, pos), slot, state)
  }
}
