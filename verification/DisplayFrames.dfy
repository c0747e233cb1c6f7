/**
 * Every frame the worker shows fits the window it is shown in if and only if every present
 * found a frame of the size its scanout required at that moment.
 */
module DisplayFrames {
  import opened DisplayProtocol

  /** The windows once everything in the FIFO has been handled. */
  function WindowsAfter(windows: Windows, fifo: seq<Message>): Windows
    decreases |fifo|
  {
    if fifo == [] then windows else WindowsAfter(Shown(windows, fifo[0]), fifo[1..])
  }

  /** A frame has its window, and four bytes for each of the window's pixels. */
  predicate Fits(windows: Windows, m: Message) {
    m.UpdateScanout? ==>
      && m.scanout in windows
      && m.frame.len == windows[m.scanout].width * windows[m.scanout].height * 4
  }

  /** Every frame in the FIFO fits the window there will be when its turn comes. */
  predicate AllFit(windows: Windows, fifo: seq<Message>)
    decreases |fifo|
  {
    fifo == [] || (Fits(windows, fifo[0]) && AllFit(Shown(windows, fifo[0]), fifo[1..]))
  }

  /** The machine's side and the worker's side of the configuration agree. */
  ghost predicate Agrees(scanouts: map<nat, Scanout>, windows: Windows) {
    && scanouts.Keys == windows.Keys
    && forall s :: s in scanouts ==> scanouts[s].required == windows[s].width * windows[s].height * 4
  }

  ghost predicate Inv(st: State) {
    Agrees(st.scanouts, WindowsAfter(st.windows, st.fifo))
  }

  /** What a present must find: a frame of the size the scanout requires now. */
  predicate Matches(st: State, step: Step) {
    step.Present? && step.scanout in st.scanouts ==>
      Outgoing(st.scanouts[step.scanout]).len == st.scanouts[step.scanout].required
  }

  predicate AllMatch(st: State, steps: seq<Step>)
    requires Possible(st, steps)
    decreases |steps|
  {
    steps == [] || (Matches(st, steps[0]) && AllMatch(Next(st, steps[0]), steps[1..]))
  }

  /** Every frame the run handles fits the window there is at that moment. */
  predicate HandledFit(st: State, steps: seq<Step>)
    requires Possible(st, steps)
    decreases |steps|
  {
    steps == []
    || ((steps[0].Handle? ==> Fits(st.windows, st.fifo[0])) && HandledFit(Next(st, steps[0]), steps[1..]))
  }

  lemma {:induction false} SendOne(windows: Windows, fifo: seq<Message>, m: Message)
    ensures WindowsAfter(windows, fifo + [m]) == Shown(WindowsAfter(windows, fifo), m)
    ensures AllFit(windows, fifo + [m]) <==>
            AllFit(windows, fifo) && Fits(WindowsAfter(windows, fifo), m)
    decreases |fifo|
  {
    hide Fits;
    if fifo == [] {
      assert fifo + [m] == [m];
      assert [m][1..] == [];
    } else {
      assert (fifo + [m])[0] == fifo[0];
      assert (fifo + [m])[1..] == fifo[1..] + [m];
      SendOne(Shown(windows, fifo[0]), fifo[1..], m);
    }
  }

  lemma SizeIs(w: nat, h: nat)
    ensures FrameSize(w, h) == w * h * 4
  {
  }

  /** One step: the configurations keep agreeing; a present adds a frame that fits if and only
      if it matches; handling takes one frame away; no other step changes whether all fit. */
  lemma StepFits(st: State, step: Step)
    requires Inv(st) && Enabled(st, step)
    ensures var next := Next(st, step);
      && Inv(next)
      && ((step.Handle? ==> Fits(st.windows, st.fifo[0])) && AllFit(next.windows, next.fifo)
          <==> AllFit(st.windows, st.fifo) && Matches(st, step))
  {
    hide AllFit, WindowsAfter, FrameSize, Presented, Outgoing, Prefill;
    match step
    case Configure(s, w, h) =>
      SizeIs(w, h);
      SendOne(st.windows, st.fifo, ConfigureScanout(s, w, h));
    case Disable(s) => SendOne(st.windows, st.fifo, DisableScanout(s));
    case Alloc(s) =>
    case Present(s) => if s in st.scanouts { PresentFits(st, s); }
    case Handle => HandleFits(st);
    case Release(id) =>
  }

  lemma PresentFits(st: State, s: nat)
    requires Inv(st) && s in st.scanouts
    ensures var next := Presented(st, s);
      && Inv(next)
      && (AllFit(next.windows, next.fifo) <==>
          AllFit(st.windows, st.fifo) && Outgoing(st.scanouts[s]).len == st.scanouts[s].required)
  {
    hide AllFit, WindowsAfter, FrameSize, Outgoing;
    SendOne(st.windows, st.fifo, UpdateScanout(s, Outgoing(st.scanouts[s])));
  }

  lemma HandleFits(st: State)
    requires Inv(st) && st.fifo != []
    ensures Inv(Handled(st))
    ensures AllFit(st.windows, st.fifo) <==>
            Fits(st.windows, st.fifo[0]) && AllFit(Handled(st).windows, Handled(st).fifo)
  {
    hide FrameSize;
  }

  /** Every frame handled in the run fits, and every frame left in the FIFO will, if and only if
      every frame that was in the FIFO would and every present matched. */
  lemma {:induction false} RunFits(st: State, steps: seq<Step>)
    requires Inv(st) && Possible(st, steps)
    ensures var end := RunFrom(st, steps);
      && Inv(end)
      && (HandledFit(st, steps) && AllFit(end.windows, end.fifo) <==>
          AllFit(st.windows, st.fifo) && AllMatch(st, steps))
    decreases |steps|
  {
    hide Inv, Next, Enabled, Matches, AllFit, Fits;
    if steps != [] {
      StepFits(st, steps[0]);
      RunFits(Next(st, steps[0]), steps[1..]);
    }
  }

  /**
   * From the start: whenever the worker handled a frame its window existed and the frame had
   * exactly that window's size, and so it will be for the frames under way, if and only if
   * every present of a live scanout found a frame of the size required at that moment.
   */
  lemma FramesFitIffMatched(steps: seq<Step>)
    requires Possible(START, steps)
    ensures var end := RunFrom(START, steps);
      && (HandledFit(START, steps) && AllFit(end.windows, end.fifo) <==> AllMatch(START, steps))
      && (end.fifo == [] ==> (HandledFit(START, steps) <==> AllMatch(START, steps)))
  {
    hide RunFrom, Possible, AllMatch, HandledFit, FrameSize;
    assert Inv(START);
    RunFits(START, steps);
  }

  // Runs in which every present matches.

  /** No scanout is given another size while a frame of it is being filled. */
  predicate Calm(st: State, step: Step) {
    step.Configure? && step.scanout in st.scanouts && st.scanouts[step.scanout].current.Some? ==>
      FrameSize(step.width, step.height) == st.scanouts[step.scanout].required
  }

  predicate AllCalm(st: State, steps: seq<Step>)
    requires Possible(st, steps)
    decreases |steps|
  {
    steps == [] || (Calm(st, steps[0]) && AllCalm(Next(st, steps[0]), steps[1..]))
  }

  /** A present of a live scanout finds a frame. */
  predicate Filled(st: State, step: Step) {
    step.Present? && step.scanout in st.scanouts ==> st.scanouts[step.scanout].current.Some?
  }

  predicate AllFilled(st: State, steps: seq<Step>)
    requires Possible(st, steps)
    decreases |steps|
  {
    steps == [] || (Filled(st, steps[0]) && AllFilled(Next(st, steps[0]), steps[1..]))
  }

  predicate Sized(st: State) {
    forall s :: s in st.scanouts && st.scanouts[s].current.Some? ==>
                  st.scanouts[s].current.value.len == st.scanouts[s].required
  }

  lemma CalmStep(st: State, step: Step)
    requires Sized(st) && Enabled(st, step) && Calm(st, step)
    ensures Sized(Next(st, step))
    ensures Filled(st, step) ==> Matches(st, step)
  {
    hide FrameSize, Prefill;
  }

  lemma {:induction false} CalmRunsMatch(st: State, steps: seq<Step>)
    requires Sized(st) && Possible(st, steps) && AllCalm(st, steps) && AllFilled(st, steps)
    ensures AllMatch(st, steps)
    decreases |steps|
  {
    hide Sized, Next, Enabled, Calm, Filled, Matches;
    if steps != [] {
      CalmStep(st, steps[0]);
      CalmRunsMatch(Next(st, steps[0]), steps[1..]);
    }
  }

  /**
   * If every present finds a frame and no scanout is resized while its frame is being filled,
   * then whenever the worker handles a frame its window exists and has the frame's size.
   */
  lemma HandledFrameFits(steps: seq<Step>)
    requires Possible(START, steps) && AllCalm(START, steps) && AllFilled(START, steps)
    ensures HandledFit(START, steps)
    ensures var st := RunFrom(START, steps);
      st.fifo != [] && st.fifo[0].UpdateScanout? ==>
        && st.fifo[0].scanout in st.windows
        && var window := st.windows[st.fifo[0].scanout];
           st.fifo[0].frame.len == window.width * window.height * 4
  {
    hide RunFrom, Possible, AllCalm, HandledFit, FrameSize;
    assert Sized(START);
    CalmRunsMatch(START, steps);
    FramesFitIffMatched(steps);
  }

  /** A present that does not match: the scanout was resized while its frame was being filled. */
  lemma ResizeWhileFilling()
    ensures var steps := [Configure(0, 1, 1), Alloc(0), Configure(0, 2, 2), Present(0)];
      && Possible(START, steps) && !AllMatch(START, steps)
      && var st := RunFrom(START, steps);
         && st.fifo == [ConfigureScanout(0, 1, 1), ConfigureScanout(0, 2, 2), UpdateScanout(0, Frame(Id(0, 0), 4))]
         && !AllFit(st.windows, st.fifo)
  {
    hide AllFit, WindowsAfter, HandledFit;
    var steps := [Configure(0, 1, 1), Alloc(0), Configure(0, 2, 2), Present(0)];
    var s1 := Configured(START, 0, 1, 1);
    var s2 := Allocated(s1, 0);
    var s3 := Configured(s2, 0, 2, 2);
    var s4 := Presented(s3, 0);
    var t1, t2, t3, t4 := steps[1..], steps[1..][1..], steps[1..][1..][1..], steps[1..][1..][1..][1..];
    assert t4 == [] && Possible(s4, t4) && RunFrom(s4, t4) == s4;
    assert Next(s3, t3[0]) == s4 && Possible(s3, t3) && !AllMatch(s3, t3);
    assert Possible(s2, t2) && Possible(s1, t1) && !AllMatch(s2, t2) && !AllMatch(s1, t1);
    NothingHandled(START, steps);
    FramesFitIffMatched(steps);
  }

  lemma {:induction false} NothingHandled(st: State, steps: seq<Step>)
    requires Possible(st, steps) && forall i :: 0 <= i < |steps| ==> !steps[i].Handle?
    ensures HandledFit(st, steps)
    decreases |steps|
  {
    hide Next, Enabled, Fits;
    if steps != [] { NothingHandled(Next(st, steps[0]), steps[1..]); }
  }
}
