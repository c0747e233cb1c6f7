/**
 * The objects of the two threads, each method being one step of the protocol: the backend
 * that the machine calls, the worker that drains the FIFO, and the return of a buffer.
 */
module DisplayThreads {
  import opened Options
  import opened DisplayProtocol

  datatype BackendError = InvalidScanoutId | OutOfBuffers

  /** What both threads reach: the FIFO, the return channels and the buffers kept alive. */
  class Shared {
    var fifo: seq<Message>
    var channels: map<nat, seq<Id>>
    var created: nat
    var held: multiset<Id>
    var dropped: multiset<Id>

    constructor ()
      ensures fifo == [] && channels == map[] && created == 0 && held == multiset{}
      ensures dropped == multiset{}
    {
      fifo, channels, created, held, dropped := [], map[], 0, multiset{}, multiset{};
    }

    ghost function View(scanouts: map<nat, Scanout>, windows: Windows): State
      reads this
    {
      State(scanouts, channels, created, fifo, windows, held, dropped)
    }

    method Send(m: Message)
      modifies this`fifo
      ensures fifo == old(fifo) + [m]
    {
      fifo := fifo + [m];
    }

    /** Makes a channel and fills it with as many empty buffers as it can hold. */
    method NewChannel() returns (c: nat)
      modifies this`channels, this`created
      ensures c == old(created) && created == old(created) + 1
      ensures channels == old(channels)[c := Prefill(c)]
    {
      c := created;
      var buffers := [];
      for i := 0 to MAX_DISPLAY_BUFFERS
        invariant |buffers| == i && forall j :: 0 <= j < i ==> buffers[j] == Id(c, j)
      {
        buffers := buffers + [Id(c, i)];
      }
      assert buffers == Prefill(c);
      channels := channels[c := buffers];
      created := created + 1;
    }

    /** Dropping the last reference to a buffer. */
    method DropBuffer(id: Id)
      modifies this`channels, this`dropped
      ensures forall scanouts, windows ::
                View(scanouts, windows) == GiveBack(old(View(scanouts, windows)), id)
    {
      if id.channel in channels {
        if |channels[id.channel]| < MAX_DISPLAY_BUFFERS {
          channels := channels[id.channel := channels[id.channel] + [id]];
        } else {
          dropped := dropped + multiset{id};
        }
      }
    }

    /** The worker's toolkit lets go of a buffer it was showing. */
    method ReleaseBuffer(id: Id)
      requires id in held
      modifies this`held, this`channels, this`dropped
      ensures forall scanouts, windows ::
                View(scanouts, windows) == Next(old(View(scanouts, windows)), Release(id))
    {
      held := held - multiset{id};
      DropBuffer(id);
    }
  }

  class GtkDisplayBackend {
    const shared: Shared
    var scanouts: map<nat, Scanout>

    ghost function View(windows: Windows): State
      reads this, shared
    {
      shared.View(scanouts, windows)
    }

    constructor (channel: Shared)
      ensures shared == channel && scanouts == map[]
    {
      shared := channel;
      scanouts := map[];
    }

    method ConfigureDisplay(s: nat, width: nat, height: nat)
      requires s < MAX_DISPLAYS
      modifies this, shared
      ensures forall windows :: View(windows) == Next(old(View(windows)), Configure(s, width, height))
    {
      var required := FrameSize(width, height);
      if s in scanouts {
        scanouts := scanouts[s := scanouts[s].(required := required)];
      } else {
        var c := shared.NewChannel();
        scanouts := scanouts[s := Scanout(c, required, None, MAX_DISPLAY_BUFFERS)];
      }
      shared.Send(ConfigureScanout(s, width, height));
    }

    method DisableDisplay(s: nat)
      requires s < MAX_DISPLAYS
      modifies this, shared
      ensures forall windows :: View(windows) == Next(old(View(windows)), Disable(s))
    {
      if s in scanouts {
        shared.channels := shared.channels - {scanouts[s].channel};
      }
      scanouts := scanouts - {s};
      shared.Send(DisableScanout(s));
    }

    /** Waits for a buffer, so it is only complete once the channel holds one. */
    method AllocFrame(s: nat) returns (error: Option<BackendError>)
      requires forall windows :: Enabled(View(windows), Alloc(s))
      modifies this`scanouts, shared`channels, shared`dropped
      ensures forall windows :: View(windows) == Next(old(View(windows)), Alloc(s))
      ensures error == (if s !in old(scanouts) then Some(InvalidScanoutId)
                        else if old(scanouts)[s].current.Some? && old(scanouts)[s].current.value.len > 0 then
                          Some(OutOfBuffers)
                        else None)
      ensures error.None? ==>
                s in scanouts && scanouts[s].current.Some? && scanouts[s].current.value.len == scanouts[s].required
    {
      assert Enabled(View(map[]), Alloc(s));
      if s !in scanouts {
        return Some(InvalidScanoutId);
      }
      var scanout := scanouts[s];
      if !Empty(scanout.current) {
        return Some(OutOfBuffers);
      }
      var waiting := shared.channels[scanout.channel];
      shared.channels := shared.channels[scanout.channel := waiting[1..]];
      if scanout.current.Some? {
        shared.dropped := shared.dropped + multiset{scanout.current.value.id};
      }
      scanouts := scanouts[s := scanout.(current := Some(Frame(waiting[0], scanout.required)))];
      return None;
    }

    method PresentFrame(s: nat) returns (error: Option<BackendError>)
      requires s < MAX_DISPLAYS
      modifies this`scanouts, shared`fifo
      ensures forall windows :: View(windows) == Next(old(View(windows)), Present(s))
      ensures error == if s in old(scanouts) then None else Some(InvalidScanoutId)
    {
      if s !in scanouts {
        return Some(InvalidScanoutId);
      }
      var scanout := scanouts[s];
      var frame;
      if scanout.current.Some? {
        frame := scanout.current.value;
        scanouts := scanouts[s := scanout.(current := None)];
      } else {
        frame := Frame(Id(scanout.channel, scanout.made), 0);
        scanouts := scanouts[s := scanout.(made := scanout.made + 1)];
      }
      shared.Send(UpdateScanout(s, frame));
      return None;
    }
  }

  /** The state after the worker has drained `n` messages. */
  function Drained(st: State, n: nat): (r: State)
    requires n <= |st.fifo|
    ensures r.fifo == st.fifo[n..]
  {
    if n == 0 then st else Handled(Drained(st, n - 1))
  }

  class DisplayWorker {
    const shared: Shared
    var windows: Windows

    ghost function View(scanouts: map<nat, Scanout>): State
      reads this, shared
    {
      shared.View(scanouts, windows)
    }

    constructor (channel: Shared)
      ensures shared == channel && windows == map[]
    {
      shared := channel;
      windows := map[];
    }

    method HandleOne()
      requires shared.fifo != []
      modifies this, shared
      ensures shared.fifo == old(shared.fifo)[1..]
      ensures forall scanouts :: View(scanouts) == Next(old(View(scanouts)), Handle)
    {
      var m := shared.fifo[0];
      shared.fifo := shared.fifo[1..];
      match m {
        case ConfigureScanout(s, width, height) => windows := windows[s := Window(width, height)];
        case DisableScanout(s) => windows := windows - {s};
        case UpdateScanout(s, frame) =>
          if s in windows {
            shared.held := shared.held + multiset{frame.id};
          } else {
            shared.DropBuffer(frame.id);
          }
      }
    }

    /** Handles messages until none is left. */
    method HandleEvent()
      modifies this, shared
      ensures shared.fifo == []
      ensures forall scanouts :: View(scanouts) == Drained(old(View(scanouts)), |old(shared.fifo)|)
    {
      hide Handled;
      ghost var n := 0;
      while shared.fifo != []
        invariant n + |shared.fifo| == |old(shared.fifo)|
        invariant forall scanouts :: View(scanouts) == Drained(old(View(scanouts)), n)
        decreases |shared.fifo|
      {
        HandleOne();
        n := n + 1;
      }
    }
  }
}
