/** The windows the worker shows, from the calls of the machine's thread alone. */
module DisplayWindows {
  import opened DisplayProtocol
  import opened DisplayBuffers
  import opened DisplayFrames

  /** Each scanout's last configuration, unless it was disabled since. */
  function Wanted(windows: Windows, steps: seq<Step>): Windows
    decreases |steps|
  {
    if steps == [] then windows
    else
      Wanted(match steps[0]
             case Configure(s, w, h) => windows[s := Window(w, h)]
             case Disable(s) => windows - {s}
             case _ => windows,
             steps[1..])
  }

  /** One step: only configuring and disabling change what there will be. */
  lemma StepWants(st: State, step: Step)
    requires Enabled(st, step)
    ensures WindowsAfter(Next(st, step).windows, Next(st, step).fifo) ==
            match step
            case Configure(s, w, h) => WindowsAfter(st.windows, st.fifo)[s := Window(w, h)]
            case Disable(s) => WindowsAfter(st.windows, st.fifo) - {s}
            case _ => WindowsAfter(st.windows, st.fifo)
  {
    hide FrameSize, WindowsAfter, Prefill, Outgoing;
    match step
    case Configure(s, w, h) => SendOne(st.windows, st.fifo, ConfigureScanout(s, w, h));
    case Disable(s) => SendOne(st.windows, st.fifo, DisableScanout(s));
    case Present(s) =>
      if s in st.scanouts { SendOne(st.windows, st.fifo, UpdateScanout(s, Outgoing(st.scanouts[s]))); }
    case Handle => HandleWants(st);
    case _ =>
  }

  lemma HandleWants(st: State)
    requires st.fifo != []
    ensures WindowsAfter(Handled(st).windows, Handled(st).fifo) == WindowsAfter(st.windows, st.fifo)
  {
  }

  lemma {:induction false} RunWants(st: State, steps: seq<Step>)
    requires Possible(st, steps)
    ensures var end := RunFrom(st, steps);
      WindowsAfter(end.windows, end.fifo) == Wanted(WindowsAfter(st.windows, st.fifo), steps)
    decreases |steps|
  {
    hide WindowsAfter, Enabled, Next;
    if steps != [] {
      StepWants(st, steps[0]);
      RunWants(Next(st, steps[0]), steps[1..]);
    }
  }

  /**
   * After any run, once everything sent is handled, there is a window for exactly the scanouts
   * configured and not disabled since, each as wide and as high as its last configuration; and
   * the machine's thread asks for frames of four bytes for each of its pixels.  There are sixteen
   * scanouts.
   */
  lemma WindowsFollowConfigurations(steps: seq<Step>)
    requires Possible(START, steps)
    ensures var st := RunFrom(START, steps);
      && WindowsAfter(st.windows, st.fifo) == Wanted(map[], steps)
      && (st.fifo == [] ==> st.windows == Wanted(map[], steps))
      && st.scanouts.Keys == Wanted(map[], steps).Keys
      && forall s :: s in st.scanouts ==>
                       var window := Wanted(map[], steps)[s];
                       st.scanouts[s].required == window.width * window.height * 4
    ensures var st := RunFrom(START, steps);
      forall s: nat :: (Enabled(st, Disable(s)) <==> s < 16) && (Enabled(st, Present(s)) <==> s < 16)
    ensures forall s, w, h :: Enabled(RunFrom(START, steps), Configure(s, w, h)) <==> s < 16
  {
    RunWants(START, steps);
    StartAgrees();
    RunFits(START, steps);
  }

  lemma StartAgrees()
    ensures DisplayFrames.Inv(START)
  {
  }

  /** A present without a frame sends one without bytes, which fits a window without pixels only. */
  lemma EmptyPresentFitsIff(steps: seq<Step>, s: nat)
    requires Possible(START, steps)
    ensures var st := RunFrom(START, steps);
      s in st.scanouts && st.scanouts[s].current.None? ==>
        && s in Wanted(map[], steps)
        && (Matches(st, Present(s)) <==> Wanted(map[], steps)[s].width * Wanted(map[], steps)[s].height * 4 == 0)
  {
    hide RunFrom, Wanted, Possible, WindowsAfter;
    WindowsFollowConfigurations(steps);
  }

  /** In a careful run an alloc that needs a buffer waits exactly while all four are presented or shown. */
  lemma AllocWaitsIff(steps: seq<Step>, s: nat)
    requires Possible(START, steps) && AllCareful(START, steps)
    ensures var st := RunFrom(START, steps);
      s < 16 && s in st.scanouts && st.scanouts[s].current.None? ==>
        (Enabled(st, Alloc(s)) <==>
         exists i :: 0 <= i < 4 && Free(st, Id(st.scanouts[s].channel, i)))
  {
    hide RunFrom, Possible, Sent, AllCareful, Free;
    var st := RunFrom(START, steps);
    if s < 16 && s in st.scanouts && st.scanouts[s].current.None? {
      var c := st.scanouts[s].channel;
      FourBuffers(steps, s, Id(c, 0));
      var back := st.channels[c];
      if back != [] {
        OwnBuffers(steps, s);
        FourBuffers(steps, s, back[0]);
        FreeMeans(st, back[0]);
        assert back[0] == Id(c, back[0].index);
      } else {
        forall i | 0 <= i < 4 ensures !Free(st, Id(c, i)) {
          FourBuffers(steps, s, Id(c, i));
          FreeMeans(st, Id(c, i));
        }
      }
    }
  }

  predicate Free(st: State, id: Id) {
    id !in Sent(st.fifo) && id !in st.held
  }

  lemma FreeMeans(st: State, id: Id)
    ensures Free(st, id) <==> Sent(st.fifo)[id] + st.held[id] == 0
  {
    hide Sent;
  }

  lemma OwnBuffers(steps: seq<Step>, s: nat)
    requires Possible(START, steps)
    ensures var st := RunFrom(START, steps);
      s in st.scanouts ==>
        && st.scanouts[s].channel in st.channels
        && var back := st.channels[st.scanouts[s].channel];
           forall i :: 0 <= i < |back| ==> back[i].channel == st.scanouts[s].channel
  {
    hide RunFrom, Possible, Sent;
    StartIsConserved();
    BuffersAreConserved(START, steps);
    var st := RunFrom(START, steps);
    if s in st.scanouts { assert Conserved(st, s); }
  }
}
