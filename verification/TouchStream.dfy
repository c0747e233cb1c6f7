/**
 * What the touch stream says, from the calls that made it: where each slot's contact is, which
 * touches are down, which tracking ids are given out, and what a device that knows only one
 * pointer makes of it.
 */
module TouchStream {
  import opened Options
  import opened TouchTracker
  import opened TouchProtocol

  function Made(multi: bool, single: bool, calls: seq<Call>): (s: Sender)
    ensures Valid(s)
  {
    AfterAll(Fresh(multi, single), calls)
  }

  /** The slot a touch would be in after some calls. */
  function SlotNow(multi: bool, single: bool, calls: seq<Call>, sequence: Option<nat>): nat {
    SlotFor(Made(multi, single, calls).fingers, sequence)
  }

  lemma {:induction false} MadeKeeps(multi: bool, single: bool, calls: seq<Call>)
    ensures Made(multi, single, calls).multi == multi && Made(multi, single, calls).single == single
    decreases |calls|
  {
    hide PushEvent, Pointer;
    if calls != [] {
      var before, last := calls[..|calls| - 1], calls[|calls| - 1];
      MadeKeeps(multi, single, before);
      if last.Push? { PushKeeps(Made(multi, single, before), last.sequence, last.state, last.pos); }
    }
  }

  lemma PushKeeps(s: Sender, sequence: Option<nat>, state: TouchState, pos: (nat, nat))
    requires Valid(s)
    ensures var t := PushEvent(s, sequence, state, pos).0;
      t.multi == s.multi && t.single == s.single
  {
    hide SlotFor, Tracked, Moved, Pointer;
  }

  lemma MadeStep(multi: bool, single: bool, calls: seq<Call>)
    requires calls != []
    ensures Made(multi, single, calls) ==
            After(Made(multi, single, calls[..|calls| - 1]), calls[|calls| - 1])
    ensures Made(multi, single, []) == Fresh(multi, single)
  {
    hide After, Fresh;
  }

  // One call, finger by finger.

  function FingerAfter(f: Option<Finger>, sequence: Option<nat>, state: TouchState, pos: (nat, nat), id: Option<nat>)
    : Option<Finger>
  {
    if state == End then None
    else Some(Finger(if f.Some? then f.value.sequence else sequence, id, Some(pos)))
  }

  /** A touch event with multi-touch on: its slot follows it, the others stay as they are. */
  lemma PushAt(s: Sender, sequence: Option<nat>, state: TouchState, pos: (nat, nat))
    requires Valid(s) && s.multi
    ensures var t := PushEvent(s, sequence, state, pos).0;
      var slot := SlotFor(s.fingers, sequence);
      var f := s.fingers[slot];
      && (forall i :: 0 <= i < 16 && i != slot ==> t.fingers[i] == s.fingers[i])
      && exists id: Option<nat> ::
           && t.fingers[slot] == FingerAfter(f, sequence, state, pos, id)
           && (f.Some? && f.value.id.Some? ==> id == f.value.id)
  {
    hide SlotFor, Describe, Conclude;
    var slot := SlotFor(s.fingers, sequence);
    var t := s.(fingers := Tracked(s.fingers, sequence));
    var u := Describe(t, slot, pos);
    DescribeAt(t, slot, pos);
    ConcludeAt(u, slot, state);
    assert PushEvent(s, sequence, state, pos).0.fingers[slot] ==
           FingerAfter(s.fingers[slot], sequence, state, pos, u.fingers[slot].value.id);
  }

  lemma DescribeAt(t: Sender, slot: nat, pos: (nat, nat))
    requires Valid(t) && slot < 16 && t.fingers[slot].Some?
    ensures var fingers, f := Describe(t, slot, pos).fingers, t.fingers[slot].value;
      && |fingers| == 16 && fingers[slot].Some?
      && (forall i :: 0 <= i < 16 && i != slot ==> fingers[i] == t.fingers[i])
      && fingers[slot].value.sequence == f.sequence && fingers[slot].value.pos == Some(pos)
      && (f.id.Some? ==> fingers[slot].value.id == f.id)
  {
    hide Moved;
  }

  lemma ConcludeAt(u: Sender, slot: nat, state: TouchState)
    requires Valid(u) && slot < 16
    ensures Conclude(u, slot, state).0.fingers == if state == End then u.fingers[slot := None] else u.fingers
  {
    hide Pointer;
  }

  // Slot by slot.

  /** The last event whose touch was in the slot. */
  function LastTo(multi: bool, single: bool, calls: seq<Call>, slot: nat): (r: Option<Call>)
    ensures r.Some? ==> r.value.Push?
  {
    if calls == [] then None
    else
      var before, last := calls[..|calls| - 1], calls[|calls| - 1];
      if last.Push? && SlotNow(multi, single, before, last.sequence) == slot then Some(last)
      else LastTo(multi, single, before, slot)
  }

  lemma {:induction false} FingerIsLast(single: bool, calls: seq<Call>, i: nat)
    requires i < 16
    ensures var f, last := Made(true, single, calls).fingers[i], LastTo(true, single, calls, i);
      if last.None? || last.value.state == End then f.None? else f.Some? && f.value.pos == Some(last.value.pos)
    decreases |calls|
  {
    hide SlotFor, PushEvent, Pointer, AfterAll;
    if calls == [] {
      MadeNone(true, single);
    } else {
      var before, last := calls[..|calls| - 1], calls[|calls| - 1];
      MadeStep(true, single, calls);
      MadeKeeps(true, single, before);
      FingerIsLast(single, before, i);
      var s := Made(true, single, before);
      if last.Push? {
        PushAt(s, last.sequence, last.state, last.pos);
      }
    }
  }

  lemma MadeNone(multi: bool, single: bool)
    ensures Made(multi, single, []) == Fresh(multi, single)
  {
  }

  /**
   * After any calls the receiver shows in each slot a contact at the position of the last event
   * there, and none if there was no event or the last one ended its touch.
   */
  lemma SlotShowsLastEvent(single: bool, calls: seq<Call>, i: nat)
    requires i < 16
    ensures var s := Made(true, single, calls);
      var contacts, last := ReceiveAll(Idle(), s.sent + s.queue).contacts, LastTo(true, single, calls, i);
      && |contacts| == 16
      && if last.None? || last.value.state == End then contacts[i].None?
         else
           && contacts[i].Some?
           && contacts[i].value.x == Some(last.value.pos.0) && contacts[i].value.y == Some(last.value.pos.1)
  {
    hide AfterAll, ReceiveAll, LastTo, Fresh;
    ReceiverSeesTracker(single, calls);
    FingerIsLast(single, calls, i);
  }

  /** A contact that stays is the same contact: its tracking id does not change. */
  lemma ContactKeepsId(single: bool, calls: seq<Call>, call: Call, i: nat)
    requires i < 16
    ensures var s, t := Made(true, single, calls), Made(true, single, calls + [call]);
      var before, after := ReceiveAll(Idle(), s.sent + s.queue).contacts, ReceiveAll(Idle(), t.sent + t.queue).contacts;
      && |before| == |after| == 16
      && (before[i].Some? && after[i].Some? ==> before[i].value.id == after[i].value.id)
  {
    hide AfterAll, ReceiveAll, Fresh, PushEvent, Pointer, SlotFor;
    ReceiverSeesTracker(single, calls);
    ReceiverSeesTracker(single, calls + [call]);
    MadeStep(true, single, calls + [call]);
    assert (calls + [call])[..|calls|] == calls;
    MadeKeeps(true, single, calls);
    if call.Push? { PushAt(Made(true, single, calls), call.sequence, call.state, call.pos); }
  }

  // Touch by touch.

  /** The touches that are down: an event of theirs was the last one of theirs, and no end. */
  function Touches(calls: seq<Call>): set<nat> {
    if calls == [] then {}
    else
      var before, last := Touches(calls[..|calls| - 1]), calls[|calls| - 1];
      if last.SyncNow? || last.sequence.None? then before
      else if last.state == End then before - {last.sequence.value}
      else before + {last.sequence.value}
  }

  /** Where the last event of a touch was. */
  function LastPos(calls: seq<Call>, q: nat): (nat, nat) {
    if calls == [] then (0, 0)
    else if calls[|calls| - 1].Push? && calls[|calls| - 1].sequence == Some(q) then calls[|calls| - 1].pos
    else LastPos(calls[..|calls| - 1], q)
  }

  /** Every touch is named, and there is a slot for each: never more than sixteen at once. */
  predicate Roomy(calls: seq<Call>) {
    calls == [] ||
    (var before, last := calls[..|calls| - 1], calls[|calls| - 1];
     && Roomy(before)
     && (last.Push? ==> last.sequence.Some? && |Touches(before) + {last.sequence.value}| <= 16))
  }

  /** The fingers are the touches that are down, each where its last event was. */
  ghost predicate Seated(fingers: Fingers, calls: seq<Call>) {
    && |fingers| == 16 && Distinct(fingers)
    && (forall i :: 0 <= i < 16 && fingers[i].Some? ==>
          fingers[i].value.sequence.Some? && SitsRight(fingers[i].value, calls))
    && (forall q :: q in Touches(calls) ==> SitsSomewhere(fingers, q))
  }

  predicate SitsRight(f: Finger, calls: seq<Call>)
    requires f.sequence.Some?
  {
    f.sequence.value in Touches(calls) && f.pos == Some(LastPos(calls, f.sequence.value))
  }

  ghost predicate SitsSomewhere(fingers: Fingers, q: nat) {
    exists i :: 0 <= i < |fingers| && Follows(fingers[i], q)
  }

  /** As many touches are down as there are fingers in the first slots, and more. */
  lemma {:induction false} FullHouse(fingers: Fingers, touches: set<nat>, n: nat)
    requires n <= |fingers| && Distinct(fingers)
    requires forall i :: 0 <= i < n ==> fingers[i].Some? && fingers[i].value.sequence.Some?
    ensures var names := set i | 0 <= i < n :: fingers[i].value.sequence.value;
      |names| == n && forall i :: 0 <= i < n ==> fingers[i].value.sequence.value in names
  {
    if n > 0 {
      FullHouse(fingers, touches, n - 1);
      var fewer := set i | 0 <= i < n - 1 :: fingers[i].value.sequence.value;
      var names := set i | 0 <= i < n :: fingers[i].value.sequence.value;
      var q := fingers[n - 1].value.sequence.value;
      assert q !in fewer by {
        if q in fewer {
          var j :| 0 <= j < n - 1 && fingers[j].value.sequence.value == q;
          assert Follows(fingers[j], q) && Follows(fingers[n - 1], q);
        }
      }
      assert names == fewer + {q};
    }
  }

  lemma Fewer(a: set<nat>, b: set<nat>)
    requires a <= b
    ensures |a| <= |b|
  {
    assert b == a + (b - a);
  }

  /** A touch that is not down finds a free slot. */
  lemma FreeSeat(fingers: Fingers, calls: seq<Call>, q: nat)
    requires Seated(fingers, calls) && q !in Touches(calls) && |Touches(calls) + {q}| <= 16
    ensures exists i :: 0 <= i < 16 && fingers[i].None?
  {
    if forall i :: 0 <= i < 16 ==> fingers[i].Some? {
      FullHouse(fingers, Touches(calls), 16);
      var names := set i | 0 <= i < 16 :: fingers[i].value.sequence.value;
      assert names <= Touches(calls);
      Fewer(names, Touches(calls));
    }
  }

  lemma SeatFor(fingers: Fingers, calls: seq<Call>, q: nat)
    requires Seated(fingers, calls) && |Touches(calls) + {q}| <= 16
    ensures var slot := SlotFor(fingers, Some(q));
      if q in Touches(calls) then Follows(fingers[slot], q)
      else fingers[slot].None? && forall i :: 0 <= i < 16 ==> !Follows(fingers[i], q)
  {
    hide SlotFor, Touches;
    if q in Touches(calls) {
      assert SitsSomewhere(fingers, q);
    } else {
      FreeSeat(fingers, calls, q);
    }
  }

  lemma SeatedPush(fingers: Fingers, after: Fingers, calls: seq<Call>, last: Call, slot: nat)
    requires Seated(fingers, calls) && last.Push? && last.sequence.Some?
    requires |after| == 16 && slot < 16 && forall i :: 0 <= i < 16 && i != slot ==> after[i] == fingers[i]
    requires var q := last.sequence.value;
      if q in Touches(calls) then Follows(fingers[slot], q)
      else fingers[slot].None? && forall i :: 0 <= i < 16 ==> !Follows(fingers[i], q)
    requires if last.state == End then after[slot].None?
             else Follows(after[slot], last.sequence.value) && after[slot].value.pos == Some(last.pos)
    ensures Seated(after, calls + [last])
  {
    var q, all := last.sequence.value, calls + [last];
    assert all[..|calls|] == calls;
    hide Touches, LastPos;
    TouchesStep(calls, last);
    forall p ensures LastPos(all, p) == if p == q then last.pos else LastPos(calls, p) { LastPosStep(calls, last, p); }
    forall i | 0 <= i < 16 && after[i].Some?
      ensures after[i].value.sequence.Some? && SitsRight(after[i].value, all)
    {
      if i != slot { assert !Follows(fingers[i], q); }
    }
    forall p | p in Touches(all) ensures SitsSomewhere(after, p) {
      if p == q {
        assert Follows(after[slot], p);
      } else {
        assert SitsSomewhere(fingers, p);
        var i :| 0 <= i < 16 && Follows(fingers[i], p);
        assert Follows(after[i], p);
      }
    }
  }

  lemma TouchesStep(calls: seq<Call>, last: Call)
    requires last.Push? && last.sequence.Some?
    ensures Touches(calls + [last]) ==
            if last.state == End then Touches(calls) - {last.sequence.value} else Touches(calls) + {last.sequence.value}
  {
    assert (calls + [last])[..|calls|] == calls;
  }

  lemma LastPosStep(calls: seq<Call>, last: Call, p: nat)
    requires last.Push? && last.sequence.Some?
    ensures LastPos(calls + [last], p) == if p == last.sequence.value then last.pos else LastPos(calls, p)
  {
    assert (calls + [last])[..|calls|] == calls;
  }

  lemma {:induction false} TouchesAreSeated(single: bool, calls: seq<Call>)
    requires Roomy(calls)
    ensures Seated(Made(true, single, calls).fingers, calls)
    decreases |calls|
  {
    hide SlotFor, After, AfterAll, Seated, LastPos, Touches, Made, Fresh;
    if calls == [] {
      MadeNone(true, single);
      NobodySits(true, single);
    } else {
      var before, last := calls[..|calls| - 1], calls[|calls| - 1];
      MadeStep(true, single, calls);
      MadeKeeps(true, single, before);
      TouchesAreSeated(single, before);
      SeatedStep(Made(true, single, before), before, last);
      assert before + [last] == calls;
    }
  }

  lemma SeatedStep(s: Sender, before: seq<Call>, last: Call)
    requires Valid(s) && s.multi && Seated(s.fingers, before)
    requires last.Push? ==> last.sequence.Some? && |Touches(before) + {last.sequence.value}| <= 16
    ensures Seated(After(s, last).fingers, before + [last])
  {
    hide SlotFor, PushEvent, Pointer, Seated, Touches, Follows;
    if last.Push? {
      PushAt(s, last.sequence, last.state, last.pos);
      SeatFor(s.fingers, before, last.sequence.value);
      var slot := SlotFor(s.fingers, last.sequence);
      FollowsAfter(s.fingers[slot], last, After(s, last).fingers[slot]);
      SeatedPush(s.fingers, After(s, last).fingers, before, last, slot);
    } else {
      assert (before + [last])[..|before|] == before;
      SeatedSync(s.fingers, before + [last]);
    }
  }

  lemma FollowsAfter(f: Option<Finger>, last: Call, g: Option<Finger>)
    requires last.Push? && last.sequence.Some? && (f.None? || Follows(f, last.sequence.value))
    requires exists id :: g == FingerAfter(f, last.sequence, last.state, last.pos, id)
    ensures if last.state == End then g.None?
            else Follows(g, last.sequence.value) && g.value.pos == Some(last.pos)
  {
  }

  lemma NobodySits(multi: bool, single: bool)
    ensures Seated(Fresh(multi, single).fingers, [])
  {
  }

  lemma SeatedSync(fingers: Fingers, calls: seq<Call>)
    requires calls != [] && calls[|calls| - 1].SyncNow? && Seated(fingers, calls[..|calls| - 1])
    ensures Seated(fingers, calls)
  {
    var before := calls[..|calls| - 1];
    assert Touches(calls) == Touches(before);
    forall q ensures LastPos(calls, q) == LastPos(before, q) {}
    forall q | q in Touches(calls) ensures SitsSomewhere(fingers, q) {
      assert q in Touches(before);
    }
  }

  /** The contacts shown are the touches that are down, one each, where their last events were. */
  ghost predicate Shows(contacts: seq<Option<Contact>>, calls: seq<Call>, seat: map<nat, nat>) {
    && |contacts| == 16 && seat.Keys == Touches(calls)
    && (forall q :: q in seat ==>
          seat[q] < 16 && contacts[seat[q]].Some?
          && contacts[seat[q]].value.x == Some(LastPos(calls, q).0)
          && contacts[seat[q]].value.y == Some(LastPos(calls, q).1))
    && (forall p, q :: p in seat && q in seat && seat[p] == seat[q] ==> p == q)
    && (forall i :: 0 <= i < 16 && contacts[i].Some? ==> i in seat.Values)
  }

  /**
   * With a slot for every touch: a touch that has begun and not ended is shown at the position
   * of its last event, in a slot of its own, and nothing else is shown.
   */
  lemma TouchesAreShown(single: bool, calls: seq<Call>)
    requires Roomy(calls)
    ensures var s := Made(true, single, calls);
      exists seat :: Shows(ReceiveAll(Idle(), s.sent + s.queue).contacts, calls, seat)
  {
    hide AfterAll, ReceiveAll, Fresh, Shows, Seated;
    var s := Made(true, single, calls);
    ReceiverSeesTracker(single, calls);
    TouchesAreSeated(single, calls);
    SeatedShows(s.fingers, calls);
  }

  lemma SeatedShows(fingers: Fingers, calls: seq<Call>)
    requires Seated(fingers, calls) && Complete(fingers)
    ensures exists seat :: Shows(Picture(fingers), calls, seat)
  {
    hide SlotFor, Touches, LastPos, SitsRight, Distinct, Shown;
    var seat := map q | q in Touches(calls) :: SlotFor(fingers, Some(q));
    forall q | q in Touches(calls)
      ensures SlotFor(fingers, Some(q)) < 16 && Follows(fingers[SlotFor(fingers, Some(q))], q)
    {
      assert SitsSomewhere(fingers, q);
    }
    forall q | q in seat
      ensures seat[q] < 16 && Picture(fingers)[seat[q]].Some?
      ensures Picture(fingers)[seat[q]].value.x == Some(LastPos(calls, q).0)
      ensures Picture(fingers)[seat[q]].value.y == Some(LastPos(calls, q).1)
    {
      ShownAtLast(fingers[seat[q]], calls, q);
    }
    forall p, q | p in seat && q in seat && seat[p] == seat[q] ensures p == q {
      OneName(fingers[seat[p]], p, q);
    }
    forall i | 0 <= i < 16 && Picture(fingers)[i].Some? ensures i in seat.Values {
      ShownIsTaken(fingers[i]);
      var q := fingers[i].value.sequence.value;
      RightIsDown(fingers[i].value, calls);
      SeatIsHis(fingers, q, i);
      assert q in seat && seat[q] == i;
    }
    assert Shows(Picture(fingers), calls, seat);
  }

  lemma ShownAtLast(f: Option<Finger>, calls: seq<Call>, q: nat)
    requires Follows(f, q) && SitsRight(f.value, calls) && f.value.id.Some?
    ensures Shown(f).Some?
    ensures Shown(f).value.x == Some(LastPos(calls, q).0) && Shown(f).value.y == Some(LastPos(calls, q).1)
  {
  }

  lemma OneName(f: Option<Finger>, p: nat, q: nat)
    requires Follows(f, p) && Follows(f, q)
    ensures p == q
  {
  }

  lemma ShownIsTaken(f: Option<Finger>)
    requires Shown(f).Some?
    ensures f.Some?
  {
  }

  lemma RightIsDown(f: Finger, calls: seq<Call>)
    requires f.sequence.Some? && SitsRight(f, calls)
    ensures f.sequence.value in Touches(calls)
  {
  }

  lemma SeatIsHis(fingers: Fingers, q: nat, i: nat)
    requires |fingers| == 16 && Distinct(fingers) && i < 16 && fingers[i].Some? && fingers[i].value.sequence == Some(q)
    ensures SlotFor(fingers, Some(q)) == i
  {
    assert Follows(fingers[i], q);
  }

  /** Without one: the touch in the first slot is shown where another touch is. */
  lemma CrowdedTouchMovesFirst(single: bool, calls: seq<Call>, q: nat, pos: (nat, nat))
    requires var fingers := Made(true, single, calls).fingers;
      forall i :: 0 <= i < 16 ==> fingers[i].Some? && !Follows(fingers[i], q)
    ensures var s := Made(true, single, calls + [Push(Some(q), Update, pos)]);
      var contacts := ReceiveAll(Idle(), s.sent + s.queue).contacts;
      && |contacts| == 16 && contacts[0].Some?
      && contacts[0].value.x == Some(pos.0) && contacts[0].value.y == Some(pos.1)
      && forall i :: 0 <= i < 16 ==> !Follows(s.fingers[i], q)
  {
    hide AfterAll, ReceiveAll, Fresh, PushEvent, Pointer, SlotFor;
    var all := calls + [Push(Some(q), Update, pos)];
    ReceiverSeesTracker(single, all);
    MadeStep(true, single, all);
    assert all[..|calls|] == calls;
    MadeKeeps(true, single, calls);
    PushAt(Made(true, single, calls), Some(q), Update, pos);
  }
}
