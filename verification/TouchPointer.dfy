/**
 * The rest of the touch stream, from the calls that made it: the tracking ids it gives out,
 * what a device that knows one pointer and one button makes of it, and when the toolkit is
 * asked for a later sync.
 */
module TouchPointer {
  import opened Options
  import opened TouchTracker
  import opened TouchProtocol
  import opened TouchStream

  function Stream(s: Sender): seq<Event> {
    s.sent + s.queue
  }

  // Reading the stream.

  /** The tracking ids given out: those events (type 3, code 0x39) that do not lift. */
  function Ids(es: seq<Event>): seq<nat> {
    if es == [] then []
    else
      var e := es[|es| - 1];
      Ids(es[..|es| - 1]) + if e.kind == 3 && e.code == 0x39 && e.value != 0xffff_ffff then [e.value] else []
  }

  /** Each id is the one before it plus one, in sixteen bits. */
  predicate Counted(ids: seq<nat>) {
    forall k :: 0 <= k < |ids| ==> ids[k] == (k + 1) % 0x1_0000
  }

  datatype Mouse = Mouse(x: nat, y: nat, down: bool)

  /** Absolute events (type 3) 0 and 1 are the position, key 0x14a (type 1) is the button. */
  function Point(m: Mouse, e: Event): Mouse {
    if e.kind == 3 && e.code == 0 then m.(x := e.value)
    else if e.kind == 3 && e.code == 1 then m.(y := e.value)
    else if e.kind == 1 && e.code == 0x14a then m.(down := e.value != 0)
    else m
  }

  function PointAll(m: Mouse, es: seq<Event>): Mouse {
    if es == [] then m else Point(PointAll(m, es[..|es| - 1]), es[|es| - 1])
  }

  lemma {:induction false} ReadAppend(m: Mouse, a: seq<Event>, b: seq<Event>)
    ensures Ids(a + b) == Ids(a) + Ids(b) && PointAll(m, a + b) == PointAll(PointAll(m, a), b)
    decreases |b|
  {
    if b == [] {
      assert a + b == a;
    } else {
      assert (a + b)[..|a + b| - 1] == a + b[..|b| - 1];
      ReadAppend(m, a, b[..|b| - 1]);
    }
  }

  lemma ReadOne(m: Mouse, e: Event)
    ensures Ids([e]) == if e.kind == 3 && e.code == 0x39 && e.value != 0xffff_ffff then [e.value] else []
    ensures PointAll(m, [e]) == Point(m, e)
  {
    assert [e][..0] == [];
  }

  predicate Quiet(e: Event) {
    || e.kind == 0
    || (e.kind == 3 && e.code in {0x2f, 0x35, 0x36})
    || (e.kind == 3 && e.code == 0x39 && e.value == 0xffff_ffff)
  }

  lemma {:induction false} ReadQuiet(m: Mouse, es: seq<Event>)
    requires forall i :: 0 <= i < |es| ==> Quiet(es[i])
    ensures Ids(es) == [] && PointAll(m, es) == m
  {
    if es != [] { ReadQuiet(m, es[..|es| - 1]); }
  }

  // One call.

  /** The ids are counted, the pointer is where it was last synced, the button is as given. */
  ghost predicate Reads(s: Sender, button: bool) {
    && Valid(s)
    && Counted(Ids(Stream(s))) && s.lastId == |Ids(Stream(s))| % 0x1_0000
    && PointAll(Mouse(0, 0, false), Stream(s)) == Mouse(s.zeroPos.0, s.zeroPos.1, s.single && button)
  }

  lemma QueuedReads(s: Sender, es: seq<Event>, button: bool)
    requires Reads(s, button)
    ensures var t := s.(queue := s.queue + es);
      && Ids(Stream(t)) == Ids(Stream(s)) + Ids(es)
      && PointAll(Mouse(0, 0, false), Stream(t)) ==
         PointAll(Mouse(s.zeroPos.0, s.zeroPos.1, s.single && button), es)
  {
    hide Ids, PointAll;
    assert s.sent + (s.queue + es) == s.sent + s.queue + es;
    ReadAppend(Mouse(0, 0, false), s.sent + s.queue, es);
  }

  lemma QuietReads(s: Sender, es: seq<Event>, button: bool)
    requires Reads(s, button) && forall i :: 0 <= i < |es| ==> Quiet(es[i])
    ensures Reads(s.(queue := s.queue + es), button)
  {
    hide Ids, PointAll, Stream;
    QueuedReads(s, es, button);
    ReadQuiet(Mouse(s.zeroPos.0, s.zeroPos.1, s.single && button), es);
  }

  lemma KeyReads(s: Sender, value: nat, button: bool)
    requires Reads(s, button)
    ensures s.single ==> Reads(s.(queue := s.queue + [Key(value)]), value != 0)
  {
    hide Ids, PointAll, Stream;
    QueuedReads(s, [Key(value)], button);
    ReadOne(Mouse(s.zeroPos.0, s.zeroPos.1, s.single && button), Key(value));
  }

  lemma SyncReads(s: Sender, button: bool)
    requires Reads(s, button)
    ensures Reads(Sync(s), button)
  {
    hide Ids, PointAll;
    if s.queue != [] {
      var pointer, tail := Pointer(s), [Event(EV_SYN, SYN_REPORT, 0)] + Blank(|Pointer(s)|);
      var m := Mouse(s.zeroPos.0, s.zeroPos.1, s.single && button);
      QueuedReads(s, pointer + tail, button);
      ReadAppend(m, pointer, tail);
      PointerReads(s, m);
      ReadQuiet(PointAll(m, pointer), tail);
      assert Stream(Sync(s)) == s.sent + (s.queue + (pointer + tail));
    }
  }

  lemma PointerReads(s: Sender, m: Mouse)
    requires Valid(s) && m.x == s.zeroPos.0 && m.y == s.zeroPos.1
    ensures Ids(Pointer(s)) == []
    ensures PointAll(m, Pointer(s)) == m.(x := ZeroPosAfter(s).0, y := ZeroPosAfter(s).1)
  {
    hide Ids, PointAll;
    ReadNothing(m);
    if s.single && s.fingers[0].Some? && s.fingers[0].value.pos.Some? {
      var pos := s.fingers[0].value.pos.value;
      var xs := if pos.0 != s.zeroPos.0 then [Abs(ABS_X, pos.0)] else [];
      var ys := if pos.1 != s.zeroPos.1 then [Abs(ABS_Y, pos.1)] else [];
      ReadAppend(m, xs, ys);
      ReadOne(m, Abs(ABS_X, pos.0));
      var mid := PointAll(m, xs);
      ReadNothing(mid);
      ReadOne(mid, Abs(ABS_Y, pos.1));
    }
  }

  lemma ReadNothing(m: Mouse)
    ensures Ids([]) == [] && PointAll(m, []) == m
  {
  }

  lemma SelectReads(s: Sender, slot: nat, button: bool)
    requires Reads(s, button) && slot < 16
    ensures Reads(Select(s, slot), button)
  {
    hide Ids, PointAll;
    QuietReads(s, [Abs(ABS_MT_SLOT, slot)], button);
  }

  lemma IdentifyReads(s: Sender, slot: nat, button: bool)
    requires Reads(s, button) && slot < 16 && s.fingers[slot].Some?
    ensures Reads(Identify(s, slot), button)
  {
    hide Ids, PointAll;
    if s.fingers[slot].value.id.None? {
      var id := (s.lastId + 1) % ID_LIMIT;
      var m := Mouse(s.zeroPos.0, s.zeroPos.1, s.single && button);
      QueuedReads(s, [Abs(ABS_MT_TRACKING_ID, id)], button);
      ReadOne(m, Abs(ABS_MT_TRACKING_ID, id));
      CountedMore(Ids(Stream(s)), s.lastId, id);
    }
  }

  lemma CountedMore(ids: seq<nat>, last: nat, id: nat)
    requires Counted(ids) && last == |ids| % 0x1_0000 && id == (last + 1) % 0x1_0000
    ensures Counted(ids + [id]) && id == |ids + [id]| % 0x1_0000
  {
  }

  lemma PlaceReads(s: Sender, slot: nat, pos: (nat, nat), button: bool)
    requires Reads(s, button) && slot < 16 && s.fingers[slot].Some?
    ensures Reads(Place(s, slot, pos), button)
  {
    hide Ids, PointAll;
    var moved := if s.multi then Moved(s.fingers[slot].value.pos, pos) else [];
    assert forall i :: 0 <= i < |moved| ==> Quiet(moved[i]);
    QuietReads(s, moved, button);
  }

  lemma LiftReads(s: Sender, slot: nat, button: bool)
    requires Reads(s, button) && slot < 16
    ensures Reads(Lift(s, slot), false)
  {
    hide Ids, PointAll;
    var lifts, keys := if s.multi then [Abs(ABS_MT_TRACKING_ID, LIFTED)] else [], if s.single then [Key(0)] else [];
    QuietReads(s, lifts, button);
    var t := s.(queue := s.queue + lifts);
    KeyReads(t, 0, button);
    AnyButton(t, button, false);
    assert t.queue + [] == t.queue;
    OtherFingers(t.(queue := t.queue + keys), s.fingers[slot := None], false);
  }

  lemma OtherFingers(s: Sender, fingers: Fingers, button: bool)
    requires Reads(s, button) && |fingers| == 16
    ensures Reads(s.(fingers := fingers), button)
  {
  }

  /** Whether the touches of a slot are passed on. */
  predicate Handled(multi: bool, slot: nat) {
    multi || slot == 0
  }

  function ButtonAfter(button: bool, state: TouchState): bool {
    match state
    case Begin => true
    case End => false
    case Update => button
  }

  lemma ConcludeReads(s: Sender, slot: nat, state: TouchState, button: bool)
    requires Reads(s, button) && slot < 16
    ensures Reads(Conclude(s, slot, state).0, ButtonAfter(button, state))
  {
    hide Reads, Sync, Lift;
    ReadsValid(s, button);
    match state {
      case Begin =>
        KeyReads(s, 1, button);
        var t := if s.single then s.(queue := s.queue + [Key(1)]) else s;
        AnyButton(s, button, true);
        SyncReads(t, true);
      case End =>
        SyncReads(s, button);
        LiftReads(Sync(s), slot, button);
        SyncReads(Lift(Sync(s), slot), false);
      case Update =>
        Deferring(s, button);
    }
  }

  lemma AnyButton(s: Sender, button: bool, other: bool)
    requires Reads(s, button)
    ensures !s.single ==> Reads(s, other)
  {
  }

  lemma Deferring(s: Sender, button: bool)
    requires Reads(s, button)
    ensures Reads(s.(deferred := true), button)
  {
  }

  lemma TrackReads(s: Sender, sequence: Option<nat>, button: bool)
    requires Reads(s, button)
    ensures Reads(s.(fingers := Tracked(s.fingers, sequence)), button)
  {
  }

  lemma PushReads(s: Sender, sequence: Option<nat>, state: TouchState, pos: (nat, nat), button: bool)
    requires Reads(s, button)
    ensures var handled := Handled(s.multi, SlotFor(s.fingers, sequence));
      Reads(PushEvent(s, sequence, state, pos).0, if handled then ButtonAfter(button, state) else button)
  {
    hide Reads, SlotFor, Conclude, Select, Identify, Place;
    ReadsValid(s, button);
    var slot := SlotFor(s.fingers, sequence);
    var t := s.(fingers := Tracked(s.fingers, sequence));
    TrackReads(s, sequence, button);
    if Handled(s.multi, slot) {
      DescribeReads(t, slot, pos, button);
      ConcludeReads(Describe(t, slot, pos), slot, state, button);
    }
  }

  lemma ReadsValid(s: Sender, button: bool)
    requires Reads(s, button)
    ensures Valid(s)
  {
  }

  lemma DescribeReads(t: Sender, slot: nat, pos: (nat, nat), button: bool)
    requires Reads(t, button) && slot < 16 && t.fingers[slot].Some?
    ensures Reads(Describe(t, slot, pos), button)
  {
    hide Ids, PointAll, Stream, Moved;
    if t.multi {
      SelectReads(t, slot, button);
      IdentifyReads(Select(t, slot), slot, button);
      PlaceReads(Identify(Select(t, slot), slot), slot, pos, button);
    } else {
      PlaceReads(t, slot, pos, button);
    }
  }

  // Whole runs.

  /** The button: down from a beginning to an end, whichever touches they are. */
  function Button(multi: bool, single: bool, calls: seq<Call>): bool {
    if calls == [] then false
    else
      var before, last := calls[..|calls| - 1], calls[|calls| - 1];
      if last.Push? && last.state != Update && Handled(multi, SlotNow(multi, single, before, last.sequence)) then
        last.state == Begin
      else Button(multi, single, before)
  }

  lemma {:induction false} StreamReads(multi: bool, single: bool, calls: seq<Call>)
    ensures Reads(Made(multi, single, calls), Button(multi, single, calls))
    decreases |calls|
  {
    hide Reads, PushEvent, SlotFor, Sync, AfterAll;
    if calls == [] {
      MadeNone(multi, single);
      FreshReads(multi, single);
    } else {
      var before, last := calls[..|calls| - 1], calls[|calls| - 1];
      MadeStep(multi, single, calls);
      MadeKeeps(multi, single, before);
      StreamReads(multi, single, before);
      var s := Made(multi, single, before);
      if last.Push? {
        PushReads(s, last.sequence, last.state, last.pos, Button(multi, single, before));
      } else {
        SyncReads(s, Button(multi, single, before));
      }
    }
  }

  lemma FreshReads(multi: bool, single: bool)
    ensures Reads(Fresh(multi, single), false)
  {
    assert Stream(Fresh(multi, single)) == [];
  }

  /**
   * The tracking ids given out by any calls count up from one, so one that is given out differs
   * from each of the 65535 before it.
   */
  lemma TrackingIdsCountUp(multi: bool, single: bool, calls: seq<Call>, j: nat, k: nat)
    requires var s := Made(multi, single, calls);
      j < k < |Ids(s.sent + s.queue)| && k - j < 0x1_0000
    ensures var ids := Ids(Made(multi, single, calls).sent + Made(multi, single, calls).queue);
      ids[k] == (k + 1) % 0x1_0000 && ids[j] != ids[k]
  {
    hide Ids, PointAll, AfterAll, Fresh, Button;
    StreamReads(multi, single, calls);
  }

  // The position.

  /** The position of the last event of the first slot. */
  function FirstSlotPos(calls: seq<Call>): (nat, nat) {
    var last := LastTo(true, true, calls, 0);
    if last.Some? then last.value.pos else (0, 0)
  }

  /** With multi-touch on: the pointer is where the first finger was, once all is sent. */
  ghost predicate Points(s: Sender, p: (nat, nat)) {
    && Valid(s) && s.multi && s.single
    && (s.fingers[0].Some? ==> s.fingers[0].value.id.Some? && s.fingers[0].value.pos == Some(p))
    && (s.fingers[0].None? || s.queue == [] ==> s.zeroPos == p)
  }

  lemma SyncPoints(s: Sender, p: (nat, nat))
    requires Points(s, p)
    ensures Points(Sync(s), p) && Sync(s).zeroPos == p
  {
    hide Pointer;
  }

  lemma DescribePoints(s: Sender, t: Sender, slot: nat, pos: (nat, nat), p: (nat, nat))
    requires Points(s, p) && slot < 16 && t == s.(fingers := t.fingers) && |t.fingers| == 16
    requires t.fingers[slot].Some? && forall i :: 0 <= i < 16 && i != slot ==> t.fingers[i] == s.fingers[i]
    requires s.fingers[slot].Some? ==> t.fingers[slot] == s.fingers[slot]
    requires s.fingers[slot].None? ==> t.fingers[slot].value.id.None?
    ensures Points(Describe(t, slot, pos), if slot == 0 then pos else p)
  {
  }

  lemma ConcludePoints(u: Sender, slot: nat, state: TouchState, p: (nat, nat))
    requires Points(u, p) && slot < 16
    ensures Points(Conclude(u, slot, state).0, p)
  {
    hide Sync;
    match state {
      case Begin => SyncPoints(u.(queue := u.queue + [Key(1)]), p);
      case End =>
        SyncPoints(u, p);
        SyncPoints(Lift(Sync(u), slot), p);
      case Update =>
    }
  }

  lemma PushPoints(s: Sender, sequence: Option<nat>, state: TouchState, pos: (nat, nat), p: (nat, nat))
    requires Points(s, p)
    ensures Points(PushEvent(s, sequence, state, pos).0, if SlotFor(s.fingers, sequence) == 0 then pos else p)
  {
    hide SlotFor, Describe, Conclude;
    var slot := SlotFor(s.fingers, sequence);
    var t := s.(fingers := Tracked(s.fingers, sequence));
    DescribePoints(s, t, slot, pos, p);
    ConcludePoints(Describe(t, slot, pos), slot, state, if slot == 0 then pos else p);
  }

  lemma {:induction false} FirstFingerPoints(calls: seq<Call>)
    ensures Points(Made(true, true, calls), FirstSlotPos(calls))
    decreases |calls|
  {
    hide Points, PushEvent, SlotFor, Sync, AfterAll;
    if calls == [] {
      MadeNone(true, true);
      FreshPoints();
    } else {
      var before, last := calls[..|calls| - 1], calls[|calls| - 1];
      MadeStep(true, true, calls);
      FirstFingerPoints(before);
      var s := Made(true, true, before);
      if last.Push? {
        PushPoints(s, last.sequence, last.state, last.pos, FirstSlotPos(before));
      } else {
        SyncPoints(s, FirstSlotPos(before));
      }
    }
  }

  lemma FreshPoints()
    ensures Points(Fresh(true, true), (0, 0))
  {
  }

  /** The position of the last beginning in the first slot. */
  function FirstSlotBegin(calls: seq<Call>): (nat, nat) {
    if calls == [] then (0, 0)
    else
      var before, last := calls[..|calls| - 1], calls[|calls| - 1];
      if last.Push? && last.state == Begin && SlotNow(false, true, before, last.sequence) == 0 then last.pos
      else FirstSlotBegin(before)
  }

  ghost predicate Rests(s: Sender, p: (nat, nat)) {
    Valid(s) && !s.multi && s.single && s.queue == [] && s.zeroPos == p
  }

  lemma PushRests(s: Sender, sequence: Option<nat>, state: TouchState, pos: (nat, nat), p: (nat, nat))
    requires Rests(s, p)
    ensures Rests(PushEvent(s, sequence, state, pos).0,
                  if state == Begin && SlotFor(s.fingers, sequence) == 0 then pos else p)
    ensures state == Update ==> PushEvent(s, sequence, state, pos).0.sent == s.sent
  {
    hide SlotFor, Pointer;
  }

  lemma {:induction false} FirstFingerRests(calls: seq<Call>)
    ensures Rests(Made(false, true, calls), FirstSlotBegin(calls))
    decreases |calls|
  {
    hide Rests, PushEvent, SlotFor, AfterAll;
    if calls == [] {
      MadeNone(false, true);
      FreshRests();
    } else {
      var before, last := calls[..|calls| - 1], calls[|calls| - 1];
      MadeStep(false, true, calls);
      FirstFingerRests(before);
      var s := Made(false, true, before);
      if last.Push? {
        PushRests(s, last.sequence, last.state, last.pos, FirstSlotBegin(before));
      } else {
        SyncRests(s, FirstSlotBegin(before));
      }
    }
  }

  lemma FreshRests()
    ensures Rests(Fresh(false, true), (0, 0))
  {
  }

  lemma SyncRests(s: Sender, p: (nat, nat))
    requires Rests(s, p)
    ensures Sync(s) == s
  {
  }

  /**
   * What a device with one pointer makes of all that was sent.  With multi-touch on, and nothing
   * left to send, it is where the last event of the first slot was; with multi-touch off it is
   * where the last beginning there was.  The button is down from a beginning to an end.
   */
  lemma PointerSees(multi: bool, calls: seq<Call>)
    ensures var s := Made(multi, true, calls);
      var m := PointAll(Mouse(0, 0, false), s.sent);
      && (!multi ==> s.queue == [])
      && (s.queue == [] ==>
            var pos := if multi then FirstSlotPos(calls) else FirstSlotBegin(calls);
            m == Mouse(pos.0, pos.1, Button(multi, true, calls)))
  {
    hide Ids, PointAll, AfterAll, Fresh, Button, FirstSlotPos, FirstSlotBegin, Counted;
    var s := Made(multi, true, calls);
    MadeKeeps(multi, true, calls);
    StreamReads(multi, true, calls);
    if multi { FirstFingerPoints(calls); } else { FirstFingerRests(calls); }
    assert s.queue == [] ==> s.sent + s.queue == s.sent;
  }

  /** With multi-touch off no motion is sent, synced or not. */
  lemma MotionIsNotSent(calls: seq<Call>, sequence: Option<nat>, pos: (nat, nat))
    ensures var moved := calls + [Push(sequence, Update, pos)];
      Made(false, true, moved + [SyncNow]).sent == Made(false, true, calls).sent
  {
    hide PushEvent, SlotFor, AfterAll, Fresh, FirstSlotBegin;
    var moved := calls + [Push(sequence, Update, pos)];
    assert moved[..|calls|] == calls && (moved + [SyncNow])[..|moved|] == moved;
    MadeStep(false, true, moved);
    MadeStep(false, true, moved + [SyncNow]);
    FirstFingerRests(calls);
    FirstFingerRests(moved);
    PushRests(Made(false, true, calls), sequence, Update, pos, FirstSlotBegin(calls));
    SyncRests(Made(false, true, moved), FirstSlotBegin(moved));
  }

  /** With two touches the button says that none is down although one is. */
  lemma ButtonForgetsFirst(a: (nat, nat), b: (nat, nat))
    ensures var calls := [Push(Some(1), Begin, a), Push(Some(2), Begin, b), Push(Some(2), End, b)];
      !Button(true, true, calls) && 1 in Touches(calls)
  {
    var calls := [Push(Some(1), Begin, a), Push(Some(2), Begin, b), Push(Some(2), End, b)];
    assert calls[..2][..1] == calls[..1] && calls[..1][..0] == [];
    assert Touches(calls[..1]) == {1};
    assert Touches(calls[..2]) == {1, 2};
  }

  /** The first slot has a touch that is down. */
  predicate FirstDown(multi: bool, calls: seq<Call>) {
    var last := LastTo(multi, true, calls, 0);
    last.Some? && last.value.state != End
  }

  /** After each of the calls the button is down if and only if the first slot's touch is. */
  predicate Agreed(multi: bool, calls: seq<Call>) {
    calls == [] || (Agreed(multi, calls[..|calls| - 1]) && Button(multi, true, calls) == FirstDown(multi, calls))
  }

  /** A touch moves in the first slot only while one is down there; one that is passed on begins in
      another slot only while one is, and ends there only while none is. */
  predicate Orderly(multi: bool, before: seq<Call>, call: Call) {
    call.Push? ==>
      if SlotNow(multi, true, before, call.sequence) == 0 then call.state == Update ==> FirstDown(multi, before)
      else multi && call.state != Update ==> (call.state == Begin <==> FirstDown(multi, before))
  }

  predicate AllOrderly(multi: bool, calls: seq<Call>) {
    calls == []
    || (AllOrderly(multi, calls[..|calls| - 1]) && Orderly(multi, calls[..|calls| - 1], calls[|calls| - 1]))
  }

  /** The button tells of the first finger, after every call, exactly in orderly runs. */
  lemma {:induction false} ButtonIsFirstFingerIff(multi: bool, calls: seq<Call>)
    ensures Agreed(multi, calls) <==> AllOrderly(multi, calls)
    decreases |calls|
  {
    hide SlotNow;
    if calls != [] {
      var before := calls[..|calls| - 1];
      ButtonIsFirstFingerIff(multi, before);
      if Agreed(multi, before) { AgreedNow(multi, before); }
    }
  }

  lemma AgreedNow(multi: bool, calls: seq<Call>)
    requires Agreed(multi, calls)
    ensures Button(multi, true, calls) == FirstDown(multi, calls)
  {
  }

  // Reports.

  /** Whatever was sent ends with a report. */
  ghost predicate Closed(s: Sender) {
    s.sent == [] || s.sent[|s.sent| - 1] == Event(0, 0, 0)
  }

  lemma SyncCloses(s: Sender)
    requires Valid(s) && Closed(s)
    ensures Closed(Sync(s))
  {
  }

  lemma PushCloses(s: Sender, sequence: Option<nat>, state: TouchState, pos: (nat, nat))
    requires Valid(s) && Closed(s)
    ensures Closed(PushEvent(s, sequence, state, pos).0)
  {
    hide SlotFor, Sync, Moved, Tracked, Lift;
    var slot := SlotFor(s.fingers, sequence);
    var t := s.(fingers := Tracked(s.fingers, sequence));
    if s.multi || slot == 0 {
      var u := Describe(t, slot, pos);
      assert u.sent == s.sent;
      SyncCloses(u);
      SyncCloses(u.(queue := u.queue + [Key(1)]));
      LiftSends(Sync(u), slot);
      SyncCloses(Lift(Sync(u), slot));
    }
  }

  lemma LiftSends(s: Sender, slot: nat)
    requires Valid(s) && slot < 16
    ensures Lift(s, slot).sent == s.sent
  {
  }

  lemma {:induction false} EverythingIsReported(multi: bool, single: bool, calls: seq<Call>)
    ensures Closed(Made(multi, single, calls))
    decreases |calls|
  {
    hide PushEvent, Sync, AfterAll;
    if calls == [] {
      MadeNone(multi, single);
    } else {
      var before, last := calls[..|calls| - 1], calls[|calls| - 1];
      MadeStep(multi, single, calls);
      EverythingIsReported(multi, single, before);
      var s := Made(multi, single, before);
      if last.Push? { PushCloses(s, last.sequence, last.state, last.pos); } else { SyncCloses(s); }
    }
  }

  // Asking for a later sync.

  /** An update is waiting for a sync, or nothing was ever sent. */
  predicate Awaited(multi: bool, single: bool, calls: seq<Call>) {
    if calls == [] then true
    else
      var before, last := calls[..|calls| - 1], calls[|calls| - 1];
      if last.Push? && last.state == Update && Handled(multi, SlotNow(multi, single, before, last.sequence)) then true
      else if |Made(multi, single, before).sent| < |Made(multi, single, calls).sent| then false
      else Awaited(multi, single, before)
  }

  /** The flag: set by an update, cleared by sending anything, else kept. */
  lemma PushDefers(s: Sender, sequence: Option<nat>, state: TouchState, pos: (nat, nat))
    requires Valid(s)
    ensures var t := PushEvent(s, sequence, state, pos).0;
      && |s.sent| <= |t.sent|
      && t.deferred ==
         if state == Update && Handled(s.multi, SlotFor(s.fingers, sequence)) then true
         else if |s.sent| < |t.sent| then false
         else s.deferred
  {
    hide SlotFor, Sync, Moved, Tracked, Lift;
    var slot := SlotFor(s.fingers, sequence);
    var t := s.(fingers := Tracked(s.fingers, sequence));
    if s.multi || slot == 0 {
      var u := Describe(t, slot, pos);
      assert u.sent == s.sent && u.deferred == s.deferred;
      SyncDefers(u);
      SyncDefers(u.(queue := u.queue + [Key(1)]));
      LiftDefers(Sync(u), slot);
      SyncDefers(Lift(Sync(u), slot));
    }
  }

  lemma LiftDefers(s: Sender, slot: nat)
    requires Valid(s) && slot < 16
    ensures Lift(s, slot).deferred == s.deferred && Lift(s, slot).sent == s.sent
  {
  }

  lemma SyncDefers(s: Sender)
    requires Valid(s)
    ensures |s.sent| <= |Sync(s).sent|
    ensures Sync(s).deferred == if |s.sent| < |Sync(s).sent| then false else s.deferred
  {
    hide Pointer;
  }

  lemma {:induction false} FlagIsAwaited(multi: bool, single: bool, calls: seq<Call>)
    ensures Made(multi, single, calls).deferred == Awaited(multi, single, calls)
    decreases |calls|
  {
    hide PushEvent, Sync, AfterAll, SlotFor;
    if calls == [] {
      MadeNone(multi, single);
    } else {
      var before, last := calls[..|calls| - 1], calls[|calls| - 1];
      MadeStep(multi, single, calls);
      MadeKeeps(multi, single, before);
      FlagIsAwaited(multi, single, before);
      var s := Made(multi, single, before);
      if last.Push? { PushDefers(s, last.sequence, last.state, last.pos); } else { SyncDefers(s); }
    }
  }

  /** A later sync is asked for by exactly the first update after something was sent. */
  lemma FirstUpdateAsks(multi: bool, single: bool, calls: seq<Call>, sequence: Option<nat>, state: TouchState,
                        pos: (nat, nat))
    ensures var s := Made(multi, single, calls);
      PushEvent(s, sequence, state, pos).1 <==>
      state == Update && Handled(multi, SlotNow(multi, single, calls, sequence)) && !Awaited(multi, single, calls)
  {
    hide AfterAll, SlotFor, Awaited, Sync, Moved, Tracked, Lift, Fresh;
    MadeKeeps(multi, single, calls);
    FlagIsAwaited(multi, single, calls);
  }
}
