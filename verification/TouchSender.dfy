/**
 * The touch sequencer as an object: the finger array, the queue and the cursors updated in
 * place, each method proved against the sender it models.
 */
module TouchSender {
  import opened Options
  import opened TouchTracker

  class TouchEventSequencedSender {
    const fingers: array<Option<Finger>>
    var zeroPos: (nat, nat)
    var lastTrackingId: nat
    var activeFinger: nat
    const emitMt: bool
    const emitNonMt: bool
    var queue: seq<Event>
    var sent: seq<Event>
    var requestedDeferredSync: bool

    ghost function View(): Sender
      reads this, fingers
    {
      Sender(fingers[..], zeroPos, lastTrackingId, activeFinger, emitMt, emitNonMt, queue, sent,
             requestedDeferredSync)
    }

    constructor (multi: bool, single: bool)
      ensures View() == Fresh(multi, single) && Valid(View()) && fresh(fingers)
    {
      fingers := new Option<Finger>[MAX_FINGERS](_ => None);
      zeroPos := (0, 0);
      lastTrackingId := 0;
      activeFinger := NO_SLOT;
      emitMt := multi;
      emitNonMt := single;
      queue := [];
      sent := [];
      requestedDeferredSync := true;
      new;
      assert fingers[..] == Fresh(multi, single).fingers;
    }

    /** The slot of a touch, by one pass over the fingers. */
    method FindSlot(sequence: Option<nat>) returns (slot: nat)
      requires Valid(View())
      ensures slot == SlotFor(fingers[..], sequence)
    {
      slot := 0;
      var foundEmpty := false;
      if sequence.Some? {
        var q := sequence.value;
        var i := 0;
        while i < fingers.Length
          invariant 0 <= i <= fingers.Length
          invariant forall j :: 0 <= j < i ==> !Follows(fingers[j], q)
          invariant foundEmpty ==> slot < i && fingers[slot].None? && forall j :: 0 <= j < slot ==> fingers[j].Some?
          invariant !foundEmpty ==> slot == 0 && forall j :: 0 <= j < i ==> fingers[j].Some?
        {
          if fingers[i].Some? && fingers[i].value.sequence == Some(q) {
            slot := i;
            break;
          } else if fingers[i].None? && !foundEmpty {
            slot := i;
            foundEmpty := true;
          }
          i := i + 1;
        }
      }
    }

    method Track(sequence: Option<nat>) returns (slot: nat)
      requires Valid(View())
      modifies fingers
      ensures Valid(View()) && slot == SlotFor(old(fingers[..]), sequence)
      ensures fingers[..] == Tracked(old(fingers[..]), sequence)
    {
      slot := FindSlot(sequence);
      if fingers[slot].None? {
        fingers[slot] := Some(Finger(sequence, None, None));
      }
    }

    method SyncNow()
      requires Valid(View())
      modifies this`queue, this`sent, this`zeroPos, this`requestedDeferredSync
      ensures Valid(View()) && View() == Sync(old(View()))
    {
      if queue == [] {
        return;
      }
      ghost var start := queue;
      requestedDeferredSync := false;
      var pending := 0;
      if emitNonMt && fingers[0].Some? && fingers[0].value.pos.Some? {
        var pos := fingers[0].value.pos.value;
        if pos.0 != zeroPos.0 {
          queue := queue + [Abs(ABS_X, pos.0)];
          pending := pending + 1;
        }
        if pos.1 != zeroPos.1 {
          queue := queue + [Abs(ABS_Y, pos.1)];
          pending := pending + 1;
        }
        zeroPos := pos;
      }
      assert queue == start + Pointer(old(View())) && pending == |Pointer(old(View()))|;
      sent := sent + (queue + [Event(EV_SYN, SYN_REPORT, 0)] + Blank(pending));
      queue := [];
    }

    /** Selects the slot and gives a new contact its tracking id. */
    method Announce(slot: nat)
      requires Valid(View()) && slot < MAX_FINGERS && fingers[slot].Some?
      modifies this`queue, this`activeFinger, this`lastTrackingId, fingers
      ensures View() == Identify(Select(old(View()), slot), slot)
    {
      if activeFinger != slot {
        queue := queue + [Abs(ABS_MT_SLOT, slot)];
        activeFinger := slot;
      }
      var finger := fingers[slot].value;
      if finger.id.None? {
        lastTrackingId := (lastTrackingId + 1) % ID_LIMIT;
        fingers[slot] := Some(finger.(id := Some(lastTrackingId)));
        queue := queue + [Abs(ABS_MT_TRACKING_ID, lastTrackingId)];
      }
    }

    /** Queues the coordinates that changed. */
    method QueueMotion(before: Option<(nat, nat)>, pos: (nat, nat))
      modifies this`queue
      ensures queue == old(queue) + Moved(before, pos)
    {
      if before.None? || before.value.0 != pos.0 {
        queue := queue + [Abs(ABS_MT_POSITION_X, pos.0)];
      }
      if before.None? || before.value.1 != pos.1 {
        queue := queue + [Abs(ABS_MT_POSITION_Y, pos.1)];
      }
    }

    /** Queues what changed about the finger in `slot`. */
    method QueueDescription(slot: nat, pos: (nat, nat))
      requires Valid(View()) && slot < MAX_FINGERS && fingers[slot].Some?
      modifies this`queue, this`activeFinger, this`lastTrackingId, fingers
      ensures Valid(View()) && View() == Describe(old(View()), slot, pos)
    {
      hide Moved;
      if emitMt {
        Announce(slot);
        QueueMotion(fingers[slot].value.pos, pos);
      }
      fingers[slot] := Some(fingers[slot].value.(pos := Some(pos)));
    }

    method PushTouch(sequence: Option<nat>, state: TouchState, pos: (nat, nat)) returns (schedule: bool)
      requires Valid(View())
      modifies this, fingers
      ensures Valid(View()) && (View(), schedule) == PushEvent(old(View()), sequence, state, pos)
    {
      var slot := Track(sequence);
      if !emitMt && slot != 0 {
        return false;
      }
      QueueDescription(slot, pos);
      schedule := ConcludeTouch(slot, state);
    }

    method ConcludeTouch(slot: nat, state: TouchState) returns (schedule: bool)
      requires Valid(View()) && slot < MAX_FINGERS
      modifies this`queue, this`sent, this`zeroPos, this`requestedDeferredSync, fingers
      ensures Valid(View()) && (View(), schedule) == Conclude(old(View()), slot, state)
    {
      match state {
        case Begin =>
          if emitNonMt {
            queue := queue + [Key(1)];
          }
          SyncNow();
          schedule := false;
        case End =>
          SyncNow();
          ghost var synced := View();
          if emitMt {
            queue := queue + [Abs(ABS_MT_TRACKING_ID, LIFTED)];
          }
          if emitNonMt {
            queue := queue + [Key(0)];
          }
          fingers[slot] := None;
          assert View() == Lift(synced, slot);
          SyncNow();
          schedule := false;
        case Update =>
          if requestedDeferredSync {
            schedule := false;
          } else {
            requestedDeferredSync := true;
            schedule := true;
          }
      }
    }
  }
}
