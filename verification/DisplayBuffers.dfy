/**
 * No buffer is ever duplicated or lost sight of: every buffer made for a live scanout is always
 * in exactly one place. As long as every present finds a frame and no alloc finds one of no
 * size, and only then, these are the four the channel was filled with, none is freed, and a
 * returning buffer finds room.
 */
module DisplayBuffers {
  import opened Options
  import opened DisplayProtocol

  lemma {:induction false} SentAppend(a: seq<Message>, b: seq<Message>)
    ensures Sent(a + b) == Sent(a) + Sent(b)
  {
    if a == [] {
      assert a + b == b;
    } else {
      assert (a + b)[1..] == a[1..] + b;
      SentAppend(a[1..], b);
    }
  }

  lemma SentOne(m: Message)
    ensures Sent([m]) == if m.UpdateScanout? then multiset{m.frame.id} else multiset{}
  {
    assert [m][1..] == [];
  }

  lemma SentHead(fifo: seq<Message>)
    requires fifo != []
    ensures Sent(fifo) == Sent([fifo[0]]) + Sent(fifo[1..])
  {
    SentOne(fifo[0]);
  }

  lemma PrefillOnce(c: nat, id: Id)
    requires id.channel == c
    ensures multiset(Prefill(c))[id] == if id.index < MAX_DISPLAY_BUFFERS then 1 else 0
  {
    assert Prefill(c) == [Id(c, 0), Id(c, 1), Id(c, 2), Id(c, 3)];
  }

  lemma SmallerCount(a: multiset<Id>, b: multiset<Id>)
    requires a <= b
    ensures |a| <= |b|
  {
    assert b == a + (b - a);
  }

  /** A channel that misses one of its own buffers and repeats none has room. */
  lemma HasRoom(ids: seq<Id>, c: nat, id: Id)
    requires id.channel == c && id.index < MAX_DISPLAY_BUFFERS && id !in ids
    requires forall i: Id :: multiset(ids)[i] <= (if i.channel == c && i.index < MAX_DISPLAY_BUFFERS then 1 else 0)
    ensures |ids| < MAX_DISPLAY_BUFFERS
  {
    var four := multiset{Id(c, 0), Id(c, 1), Id(c, 2), Id(c, 3)};
    assert id in four;
    assert multiset(ids) <= four - multiset{id};
    SmallerCount(multiset(ids), four - multiset{id});
    assert |multiset(ids)| == |ids|;
  }

  /** A message that carries no frame changes no buffer's place. */
  lemma QuietMessage(st: State, m: Message)
    requires !m.UpdateScanout?
    ensures Sent(st.fifo + [m]) == Sent(st.fifo)
  {
    SentAppend(st.fifo, [m]);
    SentOne(m);
  }

  // One channel.

  lemma FreshTally(c: nat, away: multiset<Id>)
    requires Known(away, c)
    ensures Tally(c, MAX_DISPLAY_BUFFERS, Prefill(c), None, away)
  {
    hide Prefill;
    forall id: Id | id.channel == c
      ensures multiset(Prefill(c))[id] + InHand(None)[id] + away[id] == if id.index < MAX_DISPLAY_BUFFERS then 1 else 0
    {
      PrefillOnce(c, id);
    }
  }

  lemma AllocTally(c: nat, made: nat, back: seq<Id>, current: Option<Frame>, len: nat, away: multiset<Id>)
    requires |back| > 0 && Tally(c, made, back, current, away)
    ensures Tally(c, made, back[1..], Some(Frame(back[0], len)), away + InHand(current))
  {
    assert back == [back[0]] + back[1..];
  }

  lemma PresentTally(sc: Scanout, back: seq<Id>, away: multiset<Id>)
    requires Tally(sc.channel, sc.made, back, sc.current, away)
    ensures Outgoing(sc).id.channel == sc.channel
    ensures Tally(sc.channel, if sc.current.None? then sc.made + 1 else sc.made, back, None,
                  away + multiset{Outgoing(sc).id})
  {
  }

  lemma ForeignTally(c: nat, made: nat, back: seq<Id>, current: Option<Frame>, away: multiset<Id>, id: Id)
    requires Tally(c, made, back, current, away) && id.channel != c
    ensures Tally(c, made, back, current, away + multiset{id})
    ensures Tally(c, made, back, current, away - multiset{id})
  {
  }

  /** A buffer that goes back to its channel is counted there. */
  lemma ReturnTally(c: nat, made: nat, back: seq<Id>, current: Option<Frame>, away: multiset<Id>, id: Id)
    requires Tally(c, made, back, current, away) && id.channel == c && id in away
    ensures Tally(c, made, back + [id], current, away - multiset{id})
  {
  }

  /** And there is room for it while the channel has only its four. */
  lemma RoomForOne(c: nat, back: seq<Id>, current: Option<Frame>, away: multiset<Id>, id: Id)
    requires Tally(c, MAX_DISPLAY_BUFFERS, back, current, away) && id.channel == c && id in away
    ensures |back| < MAX_DISPLAY_BUFFERS
  {
    forall i: Id
      ensures multiset(back)[i] <= (if i.channel == c && i.index < MAX_DISPLAY_BUFFERS then 1 else 0)
    {
      if i in back {
        assert multiset(back)[i] + InHand(current)[i] + away[i] == if i.index < MAX_DISPLAY_BUFFERS then 1 else 0;
      }
    }
    assert multiset(back)[id] + InHand(current)[id] + away[id] == if id.index < MAX_DISPLAY_BUFFERS then 1 else 0;
    assert multiset(back)[id] == 0;
    HasRoom(back, c, id);
  }

  // One step.

  lemma ConfigureKeeps(st: State, s: nat, w: nat, h: nat)
    requires Inv(st)
    ensures Inv(Configured(st, s, w, h))
  {
    hide Sent, FrameSize, Prefill, Tally, Known;
    QuietMessage(st, ConfigureScanout(s, w, h));
    var after := Configured(st, s, w, h);
    assert Away(after) == Away(st);
    ConfigureWires(st, s, w, h);
    KnownLonger(Away(st), st.created);
    if s !in st.scanouts {
      FreshTally(st.created, Away(st));
    }
    forall t | t in after.scanouts
      ensures Conserved(after, t)
    {
      if t in st.scanouts {
        assert Conserved(st, t);
      }
    }
  }

  lemma KnownLonger(away: multiset<Id>, created: nat)
    requires Known(away, created)
    ensures Known(away, created + 1)
  {
  }

  lemma ConfigureWires(st: State, s: nat, w: nat, h: nat)
    requires Wired(st)
    ensures Wired(Configured(st, s, w, h))
  {
    hide FrameSize, Prefill, Wired;
    if s in st.scanouts {
      SameWires(st, Configured(st, s, w, h));
    } else {
      NewWire(st, Configured(st, s, w, h), s);
    }
  }

  lemma NewWire(st: State, after: State, s: nat)
    requires Wired(st) && s !in st.scanouts && after.created == st.created + 1
    requires after.scanouts.Keys == st.scanouts.Keys + {s}
    requires after.channels.Keys == st.channels.Keys + {st.created}
    requires after.scanouts[s].channel == st.created
    requires forall t | t in st.scanouts :: after.scanouts[t].channel == st.scanouts[t].channel
    ensures Wired(after)
  {
    forall c | c in after.channels
      ensures exists t :: t in after.scanouts && after.scanouts[t].channel == c
    {
      if c in st.channels {
        var t :| t in st.scanouts && st.scanouts[t].channel == c;
        assert t in after.scanouts && after.scanouts[t].channel == c;
      }
    }
  }

  lemma DisableKeeps(st: State, s: nat)
    requires Inv(st)
    ensures Inv(Disabled(st, s))
  {
    hide Sent, Tally, Known;
    QuietMessage(st, DisableScanout(s));
    var after := Disabled(st, s);
    assert Away(after) == Away(st);
    DisableWires(st, s);
    forall t | t in after.scanouts
      ensures Conserved(after, t)
    {
      assert Conserved(st, t);
    }
  }

  lemma DisableWires(st: State, s: nat)
    requires Wired(st)
    ensures Wired(Disabled(st, s))
  {
    var after := Disabled(st, s);
    forall c | c in after.channels
      ensures exists t :: t in after.scanouts && after.scanouts[t].channel == c
    {
      var t :| t in st.scanouts && st.scanouts[t].channel == c;
      assert t in after.scanouts && after.scanouts[t].channel == c;
    }
  }

  /** Steps that leave every scanout its channel keep the wiring. */
  lemma SameWires(st: State, after: State)
    requires Wired(st) && after.created == st.created
    requires after.scanouts.Keys == st.scanouts.Keys && after.channels.Keys == st.channels.Keys
    requires forall t | t in st.scanouts :: after.scanouts[t].channel == st.scanouts[t].channel
    ensures Wired(after)
  {
  }

  lemma AllocKeeps(st: State, s: nat)
    requires Inv(st) && s in st.scanouts && |st.channels[st.scanouts[s].channel]| > 0
    ensures Inv(Allocated(st, s))
  {
    hide Away, Conserved, Tally, Known, InHand, Wired;
    WiredIn(st);
    var after, sc := Allocated(st, s), st.scanouts[s];
    SameWires(st, after);
    FreedHand(st, after, sc.current);
    assert Conserved(st, s);
    HandIsOwn(st, s);
    KnownHand(Away(st), sc.current, st.created);
    forall t | t in after.scanouts
      ensures Conserved(after, t)
    {
      if t == s {
        AllocConserves(st, s);
      } else {
        OtherChannel(st, s, t);
        ForeignConserves(st, after, t, sc.current);
      }
    }
  }

  lemma OtherChannel(st: State, s: nat, t: nat)
    requires Wired(st) && s in st.scanouts && t in st.scanouts && s != t
    ensures st.scanouts[s].channel != st.scanouts[t].channel
    ensures st.scanouts[s].channel in st.channels && st.scanouts[s].channel < st.created
  {
  }

  lemma FreedHand(st: State, after: State, hand: Option<Frame>)
    requires after.fifo == st.fifo && after.held == st.held && after.dropped == st.dropped + InHand(hand)
    ensures Away(after) == Away(st) + InHand(hand)
  {
    hide Sent;
  }

  lemma AllocConserves(st: State, s: nat)
    requires s in st.scanouts && st.scanouts[s].channel in st.channels
    requires |st.channels[st.scanouts[s].channel]| > 0 && Conserved(st, s)
    ensures Conserved(Allocated(st, s), s)
  {
    hide Away, Tally, InHand;
    var sc := st.scanouts[s];
    FreedHand(st, Allocated(st, s), sc.current);
    AllocTally(sc.channel, sc.made, st.channels[sc.channel], sc.current, sc.required, Away(st));
  }

  lemma ForeignConserves(st: State, after: State, t: nat, hand: Option<Frame>)
    requires t in st.scanouts && st.scanouts[t].channel in st.channels && Conserved(st, t)
    requires t in after.scanouts && after.scanouts[t] == st.scanouts[t]
    requires st.scanouts[t].channel in after.channels
    requires after.channels[st.scanouts[t].channel] == st.channels[st.scanouts[t].channel]
    requires Away(after) == Away(st) + InHand(hand)
    requires hand.Some? ==> hand.value.id.channel != st.scanouts[t].channel
    ensures Conserved(after, t)
  {
    hide Away, Tally, InHand;
    var tc := st.scanouts[t];
    ForeignHand(tc.channel, tc.made, st.channels[tc.channel], tc.current, Away(st), hand);
  }

  lemma HandIsOwn(st: State, s: nat)
    requires Wired(st) && s in st.scanouts && st.scanouts[s].channel in st.channels && Conserved(st, s)
    ensures var sc := st.scanouts[s];
      sc.current.Some? ==> sc.current.value.id.channel == sc.channel && sc.channel < st.created
  {
    hide Away;
  }

  lemma KnownHand(away: multiset<Id>, current: Option<Frame>, created: nat)
    requires Known(away, created) && (current.Some? ==> current.value.id.channel < created)
    ensures Known(away + InHand(current), created)
  {
  }

  lemma ForeignHand(c: nat, made: nat, back: seq<Id>, current: Option<Frame>, away: multiset<Id>, hand: Option<Frame>)
    requires Tally(c, made, back, current, away) && (hand.Some? ==> hand.value.id.channel != c)
    ensures Tally(c, made, back, current, away + InHand(hand))
  {
  }

  lemma PresentKeeps(st: State, s: nat)
    requires Inv(st) && s in st.scanouts
    ensures Inv(Presented(st, s))
  {
    hide Sent, Tally, Known, Outgoing;
    var after, sc := Presented(st, s), st.scanouts[s];
    var frame := Outgoing(sc);
    SameWires(st, after);
    SentAppend(st.fifo, [UpdateScanout(s, frame)]);
    SentOne(UpdateScanout(s, frame));
    assert Away(after) == Away(st) + multiset{frame.id};
    assert Conserved(st, s);
    PresentTally(sc, st.channels[sc.channel], Away(st));
    KnownMore(Away(st), frame.id, st.created);
    forall t | t in after.scanouts
      ensures Conserved(after, t)
    {
      assert Conserved(st, t);
      if t != s {
        var tc := st.scanouts[t];
        ForeignTally(tc.channel, tc.made, st.channels[tc.channel], tc.current, Away(st), frame.id);
      }
    }
  }

  lemma KnownMore(away: multiset<Id>, id: Id, created: nat)
    requires Known(away, created) && id.channel < created
    ensures Known(away + multiset{id}, created)
  {
  }

  lemma KnownLess(away: multiset<Id>, id: Id, created: nat)
    requires Known(away, created)
    ensures Known(away - multiset{id}, created)
  {
  }

  /**
   * `st` is `before` with one buffer that was away taken out. It goes back to its channel, or is
   * freed because the channel is full, or goes with its channel.
   */
  lemma GiveBackKeeps(before: State, st: State, id: Id)
    requires Inv(before) && id in Away(before)
    requires st.scanouts == before.scanouts && st.channels == before.channels && st.created == before.created
    requires Away(st) == Away(before) - multiset{id}
    ensures Inv(GiveBack(st, id))
  {
    hide Tally, Known, Away, Wired, Conserved;
    var after := GiveBack(st, id);
    KnownLess(Away(before), id, st.created);
    SameWires(before, after);
    WiredIn(before);
    if id.channel in st.channels && |st.channels[id.channel]| >= MAX_DISPLAY_BUFFERS {
      FreedIsAway(st, id);
      assert Away(after) == Away(before);
      forall t | t in after.scanouts
        ensures after.scanouts[t].channel in after.channels && Conserved(after, t)
      {
        SameConserved(before, after, t);
      }
    } else {
      SameAway(st, after);
      forall t | t in after.scanouts
        ensures after.scanouts[t].channel in after.channels && Conserved(after, t)
      {
        ReturnConserves(before, after, t, id);
      }
    }
  }

  lemma FreedIsAway(st: State, id: Id)
    ensures Away(st.(dropped := st.dropped + multiset{id})) == Away(st) + multiset{id}
  {
  }

  lemma SameConserved(st: State, after: State, s: nat)
    requires s in st.scanouts && st.scanouts[s].channel in st.channels && Conserved(st, s)
    requires after.scanouts == st.scanouts && after.channels == st.channels && Away(after) == Away(st)
    ensures Conserved(after, s)
  {
    hide Tally, Away;
  }

  lemma WiredIn(st: State)
    requires Wired(st)
    ensures forall s :: s in st.scanouts ==> st.scanouts[s].channel in st.channels
  {
  }

  lemma Owner(st: State, c: nat) returns (s: nat)
    requires Wired(st) && c in st.channels
    ensures s in st.scanouts && st.scanouts[s].channel == c
  {
    s :| s in st.scanouts && st.scanouts[s].channel == c;
  }

  lemma ReturnConserves(st: State, after: State, s: nat, id: Id)
    requires s in st.scanouts && st.scanouts[s].channel in st.channels
    requires Conserved(st, s) && id in Away(st)
    requires after.scanouts == st.scanouts && after.channels.Keys == st.channels.Keys
    requires Away(after) == Away(st) - multiset{id}
    requires forall c | c in st.channels ::
               after.channels[c] == st.channels[c] + if c == id.channel then [id] else []
    ensures Conserved(after, s)
  {
    hide Tally, Away;
    var sc := st.scanouts[s];
    if sc.channel == id.channel {
      ReturnTally(sc.channel, sc.made, st.channels[sc.channel], sc.current, Away(st), id);
    } else {
      ForeignTally(sc.channel, sc.made, st.channels[sc.channel], sc.current, Away(st), id);
      assert st.channels[sc.channel] + [] == st.channels[sc.channel];
    }
  }

  lemma SameAway(st: State, after: State)
    requires st.fifo == after.fifo && st.held == after.held && st.dropped == after.dropped
    ensures Away(st) == Away(after)
  {
  }

  lemma HandleKeeps(st: State)
    requires Inv(st) && st.fifo != []
    ensures Inv(Handled(st))
  {
    hide Sent, Tally, Known, GiveBack;
    SentHead(st.fifo);
    SentOne(st.fifo[0]);
    var rest := st.(fifo := st.fifo[1..], windows := Shown(st.windows, st.fifo[0]));
    var after := Handled(st);
    if st.fifo[0].UpdateScanout? && st.fifo[0].scanout !in st.windows {
      var id := st.fifo[0].frame.id;
      assert Away(rest) == Away(st) - multiset{id};
      GiveBackKeeps(st, rest, id);
    } else {
      assert Away(after) == Away(st);
      SameWires(st, after);
      forall t | t in after.scanouts
        ensures Conserved(after, t)
      {
        assert Conserved(st, t);
      }
    }
  }

  lemma ReleaseKeeps(st: State, id: Id)
    requires Inv(st) && id in st.held
    ensures Inv(GiveBack(st.(held := st.held - multiset{id}), id))
  {
    hide Sent, Tally, Known, GiveBack, Wired;
    var out := st.(held := st.held - multiset{id});
    assert Away(out) == Away(st) - multiset{id};
    GiveBackKeeps(st, out, id);
  }

  lemma StepKeeps(st: State, step: Step)
    requires Inv(st) && Enabled(st, step)
    ensures Inv(Next(st, step))
  {
    hide Inv, Configured, Disabled, Allocated, Presented, Handled, GiveBack;
    match step
    case Configure(s, w, h) => ConfigureKeeps(st, s, w, h);
    case Disable(s) => DisableKeeps(st, s);
    case Alloc(s) => if s in st.scanouts && Empty(st.scanouts[s].current) { AllocKeeps(st, s); }
    case Present(s) => if s in st.scanouts { PresentKeeps(st, s); }
    case Handle => HandleKeeps(st);
    case Release(id) => ReleaseKeeps(st, id);
  }

  /**
   * Under every interleaving each buffer made for a live scanout is in exactly one place, and
   * only a scanout's own buffers are ever in its channel.
   */
  lemma {:induction false} BuffersAreConserved(st: State, steps: seq<Step>)
    requires Inv(st) && Possible(st, steps)
    ensures Inv(RunFrom(st, steps))
    decreases |steps|
  {
    hide Inv, Next, Enabled;
    if steps != [] {
      StepKeeps(st, steps[0]);
      BuffersAreConserved(Next(st, steps[0]), steps[1..]);
    }
  }

  /** The same, spelled out for one buffer of one live scanout. */
  lemma EveryBufferIsInOnePlace(steps: seq<Step>, s: nat, id: Id)
    requires Possible(START, steps)
    ensures var st := RunFrom(START, steps);
      s in st.scanouts ==>
        var sc := st.scanouts[s];
        && sc.channel in st.channels
        && (id.channel == sc.channel ==>
              multiset(st.channels[sc.channel])[id] + InHand(sc.current)[id] + Sent(st.fifo)[id] + st.held[id]
              + st.dropped[id] == if id.index < sc.made then 1 else 0)
        && (id in st.channels[sc.channel] ==> id.channel == sc.channel)
  {
    hide RunFrom, Possible, Sent;
    StartIsConserved();
    BuffersAreConserved(START, steps);
    var st := RunFrom(START, steps);
    if s in st.scanouts {
      assert Conserved(st, s);
    }
  }

  lemma StartIsConserved()
    ensures Inv(START) && Whole(START)
  {
  }

  // The four buffers.

  lemma GiveBackWhole(before: State, st: State, id: Id)
    requires Inv(before) && Whole(before) && id in Away(before)
    requires st.scanouts == before.scanouts && st.channels == before.channels && st.dropped == before.dropped
    ensures Whole(GiveBack(st, id))
    ensures id.channel in st.channels ==> |st.channels[id.channel]| < MAX_DISPLAY_BUFFERS
  {
    hide Tally, Known, Away, Wired;
    if id.channel in st.channels {
      var s := Owner(before, id.channel);
      assert Conserved(before, s);
      RoomForOne(id.channel, st.channels[id.channel], before.scanouts[s].current, Away(before), id);
    }
  }

  lemma HandleWhole(st: State)
    requires Inv(st) && Whole(st) && st.fifo != []
    ensures Whole(Handled(st))
  {
    hide Sent, Inv, Whole, GiveBack;
    SentHead(st.fifo);
    SentOne(st.fifo[0]);
    var rest := st.(fifo := st.fifo[1..], windows := Shown(st.windows, st.fifo[0]));
    if st.fifo[0].UpdateScanout? && st.fifo[0].scanout !in st.windows {
      GiveBackWhole(st, rest, st.fifo[0].frame.id);
    } else {
      SameWhole(st, Handled(st));
    }
  }

  lemma SameWhole(st: State, after: State)
    requires Whole(st) && after.scanouts == st.scanouts && after.channels == st.channels
    requires after.dropped == st.dropped
    ensures Whole(after)
  {
  }

  lemma AllocWhole(st: State, s: nat)
    requires Inv(st) && Whole(st) && s in st.scanouts && |st.channels[st.scanouts[s].channel]| > 0
    ensures Whole(Allocated(st, s)) <==> st.scanouts[s].current.None?
  {
    hide Known;
    assert Conserved(st, s);
    var sc, after := st.scanouts[s], Allocated(st, s);
    if sc.current.Some? {
      assert sc.current.value.id in after.dropped && sc.current.value.id.channel in after.channels;
    }
  }

  lemma DroppedKnown(st: State)
    requires Known(Away(st), st.created)
    ensures forall id :: id in st.dropped ==> id.channel < st.created
  {
    forall id | id in st.dropped ensures id.channel < st.created { assert id in Away(st); }
  }

  lemma ConfigureWhole(st: State, s: nat, w: nat, h: nat)
    requires Inv(st) && Whole(st)
    ensures Whole(Configured(st, s, w, h))
  {
    hide FrameSize, Prefill, Known, Away, Wired, Conserved;
    DroppedKnown(st);
  }

  /** The step keeps each live scanout its four buffers if and only if it is careful. */
  lemma StepWhole(st: State, step: Step)
    requires Inv(st) && Whole(st) && Enabled(st, step)
    ensures Whole(Next(st, step)) <==> Careful(st, step)
  {
    hide Inv, Configured, Allocated, Handled, GiveBack;
    match step
    case Configure(s, w, h) => ConfigureWhole(st, s, w, h);
    case Disable(s) =>
    case Alloc(s) => if s in st.scanouts && Empty(st.scanouts[s].current) { AllocWhole(st, s); }
    case Present(s) => if s in st.scanouts { assert s in Presented(st, s).scanouts; }
    case Handle => HandleWhole(st);
    case Release(id) => GiveBackWhole(st, st.(held := st.held - multiset{id}), id);
  }

  predicate AllCareful(st: State, steps: seq<Step>)
    requires Possible(st, steps)
    decreases |steps|
  {
    steps == [] || (Careful(st, steps[0]) && AllCareful(Next(st, steps[0]), steps[1..]))
  }

  /** Every state of the run, the last included. */
  ghost predicate AlwaysWhole(st: State, steps: seq<Step>)
    requires Possible(st, steps)
    decreases |steps|
  {
    Whole(st) && (steps == [] || AlwaysWhole(Next(st, steps[0]), steps[1..]))
  }

  /** Over a whole run: the four buffers of each live scanout stay its four, none freed, if and
      only if every step is careful. */
  lemma {:induction false} WholeIffCareful(st: State, steps: seq<Step>)
    requires Inv(st) && Whole(st) && Possible(st, steps)
    ensures AlwaysWhole(st, steps) <==> AllCareful(st, steps)
    decreases |steps|
  {
    hide Inv, Whole, Next, Enabled, Careful;
    if steps != [] {
      StepKeeps(st, steps[0]);
      StepWhole(st, steps[0]);
      var next := Next(st, steps[0]);
      if Whole(next) {
        WholeIffCareful(next, steps[1..]);
      } else {
        NotWhole(next, steps[1..]);
      }
    }
  }

  lemma NotWhole(st: State, steps: seq<Step>)
    requires !Whole(st) && Possible(st, steps)
    ensures !AlwaysWhole(st, steps)
  {
  }

  lemma {:induction false} WholeAtEnd(st: State, steps: seq<Step>)
    requires Possible(st, steps) && AlwaysWhole(st, steps)
    ensures Whole(RunFrom(st, steps))
    decreases |steps|
  {
    hide Whole, Next, Enabled;
    if steps != [] { WholeAtEnd(Next(st, steps[0]), steps[1..]); }
  }

  /**
   * Careful runs: a live scanout has four buffers, each back in the channel, current, presented
   * or shown; and a buffer that is let go always finds room in its channel.
   */
  lemma FourBuffers(steps: seq<Step>, s: nat, id: Id)
    requires Possible(START, steps) && AllCareful(START, steps)
    ensures var st := RunFrom(START, steps);
      s in st.scanouts && id.channel == st.scanouts[s].channel ==>
        && id.channel in st.channels
        && multiset(st.channels[id.channel])[id] + InHand(st.scanouts[s].current)[id] + Sent(st.fifo)[id] + st.held[id]
           == (if id.index < MAX_DISPLAY_BUFFERS then 1 else 0)
        && (id in Sent(st.fifo) || id in st.held ==> |st.channels[id.channel]| < MAX_DISPLAY_BUFFERS)
  {
    hide RunFrom, Possible, Sent, AllCareful;
    StartIsConserved();
    BuffersAreConserved(START, steps);
    WholeIffCareful(START, steps);
    WholeAtEnd(START, steps);
    EveryBufferIsInOnePlace(steps, s, id);
    var st := RunFrom(START, steps);
    if s in st.scanouts && id.channel == st.scanouts[s].channel && (id in Sent(st.fifo) || id in st.held) {
      assert Conserved(st, s);
      assert id in Away(st);
      RoomForOne(id.channel, st.channels[id.channel], st.scanouts[s].current, Away(st), id);
    }
  }

  /** Two runs that are not careful: a present without a frame makes a fifth buffer, and an alloc
      over a frame of no size frees one. */
  lemma CarelessRuns()
    ensures var steps := [Configure(0, 1, 1), Present(0)];
      Possible(START, steps) && RunFrom(START, steps).scanouts[0].made == 5
    ensures var steps := [Configure(0, 0, 0), Alloc(0), Alloc(0)];
      Possible(START, steps) && RunFrom(START, steps).dropped == multiset{Id(0, 0)}
  {
    var a, b := [Configure(0, 1, 1), Present(0)], [Configure(0, 0, 0), Alloc(0), Alloc(0)];
    assert a[1..][1..] == [];
    assert Possible(Next(START, a[0]), a[1..]);
    var b1 := Configured(START, 0, 0, 0);
    var b2 := Allocated(b1, 0);
    assert b1.channels[0] == Prefill(0);
    assert b2.channels[0] == Prefill(0)[1..];
    assert b[1..][1..][1..] == [];
    assert Possible(Next(b2, Alloc(0)), b[1..][1..][1..]);
    assert Possible(b2, b[1..][1..]);
    assert Possible(b1, b[1..]);
  }
}
