/**
 * Two threads share frame buffers: the machine's thread configures scanouts, fills buffers
 * and presents them; the display worker shows them and lets them go. Each scanout has its
 * own bounded channel on which buffers come back, and one FIFO carries everything else.
 *
 * The model is the state machine of both: any step that is possible may come next, so a run
 * is an arbitrary interleaving.
 */
module DisplayProtocol {
  import opened Options

  const MAX_DISPLAYS: nat := 16
  const MAX_DISPLAY_BUFFERS: nat := 4
  const BYTES_PER_PIXEL: nat := 4

  /** A buffer: the return channel it was made for, and its number among that channel's. */
  datatype Id = Id(channel: nat, index: nat)

  /** A buffer with the size it currently has. */
  datatype Frame = Frame(id: Id, len: nat)

  /** `made` counts the buffers made for the channel: four, and one more for each present
      without a frame, which sends the empty vector it finds. */
  datatype Scanout = Scanout(channel: nat, required: nat, current: Option<Frame>, made: nat)

  datatype Message =
    | ConfigureScanout(scanout: nat, width: nat, height: nat)
    | DisableScanout(scanout: nat)
    | UpdateScanout(scanout: nat, frame: Frame)

  datatype Window = Window(width: nat, height: nat)

  type Windows = map<nat, Window>

  /**
   * `channels` are the return channels whose receiving end still exists, `held` the buffers
   * the worker keeps alive, `dropped` those freed: refused by a full channel, or overwritten.
   */
  datatype State = State(scanouts: map<nat, Scanout>, channels: map<nat, seq<Id>>, created: nat,
                         fifo: seq<Message>, windows: Windows, held: multiset<Id>, dropped: multiset<Id>)

  datatype Step =
    | Configure(scanout: nat, width: nat, height: nat)
    | Disable(scanout: nat)
    | Alloc(scanout: nat)
    | Present(scanout: nat)
    | Handle
    | Release(id: Id)

  const START := State(map[], map[], 0, [], map[], multiset{}, multiset{})

  function FrameSize(width: nat, height: nat): nat {
    width * height * BYTES_PER_PIXEL
  }

  function Prefill(c: nat): (ids: seq<Id>)
    ensures |ids| == MAX_DISPLAY_BUFFERS
    ensures forall i :: 0 <= i < |ids| ==> ids[i] == Id(c, i)
  {
    seq(MAX_DISPLAY_BUFFERS, i requires i >= 0 => Id(c, i))
  }

  /** The last reference to a buffer goes: it returns to its channel if that still exists. */
  function GiveBack(st: State, id: Id): State {
    if id.channel !in st.channels then st
    else if |st.channels[id.channel]| >= MAX_DISPLAY_BUFFERS then st.(dropped := st.dropped + multiset{id})
    else st.(channels := st.channels[id.channel := st.channels[id.channel] + [id]])
  }

  function Shown(windows: Windows, m: Message): Windows {
    match m
    case ConfigureScanout(s, w, h) => windows[s := Window(w, h)]
    case DisableScanout(s) => windows - {s}
    case UpdateScanout(_, _) => windows
  }

  function Configured(st: State, s: nat, w: nat, h: nat): State {
    var message := ConfigureScanout(s, w, h);
    if s in st.scanouts then
      st.(scanouts := st.scanouts[s := st.scanouts[s].(required := FrameSize(w, h))],
          fifo := st.fifo + [message])
    else
      st.(scanouts := st.scanouts[s := Scanout(st.created, FrameSize(w, h), None, MAX_DISPLAY_BUFFERS)],
          channels := st.channels[st.created := Prefill(st.created)],
          created := st.created + 1,
          fifo := st.fifo + [message])
  }

  function Disabled(st: State, s: nat): State {
    st.(scanouts := st.scanouts - {s},
        channels := if s in st.scanouts then st.channels - {st.scanouts[s].channel} else st.channels,
        fifo := st.fifo + [DisableScanout(s)])
  }

  /** An empty current buffer counts as none. */
  predicate Empty(current: Option<Frame>) {
    current.None? || current.value.len == 0
  }

  /** The frame received takes the place of the current buffer, which is freed. */
  function Allocated(st: State, s: nat): State
    requires s in st.scanouts && st.scanouts[s].channel in st.channels
    requires |st.channels[st.scanouts[s].channel]| > 0
  {
    var sc := st.scanouts[s];
    var back := st.channels[sc.channel];
    st.(scanouts := st.scanouts[s := sc.(current := Some(Frame(back[0], sc.required)))],
        channels := st.channels[sc.channel := back[1..]],
        dropped := st.dropped + InHand(sc.current))
  }

  /** What a present sends: the current buffer, or a new empty one. */
  function Outgoing(sc: Scanout): Frame {
    match sc.current
    case Some(frame) => frame
    case None => Frame(Id(sc.channel, sc.made), 0)
  }

  function Presented(st: State, s: nat): State
    requires s in st.scanouts
  {
    var sc := st.scanouts[s];
    st.(scanouts := st.scanouts[s := sc.(current := None, made := if sc.current.None? then sc.made + 1 else sc.made)],
        fifo := st.fifo + [UpdateScanout(s, Outgoing(sc))])
  }

  /** The worker takes one message. A frame for no window is let go at once. */
  function Handled(st: State): State
    requires st.fifo != []
  {
    var rest := st.(fifo := st.fifo[1..], windows := Shown(st.windows, st.fifo[0]));
    match st.fifo[0]
    case UpdateScanout(s, frame) =>
      if s in st.windows then rest.(held := rest.held + multiset{frame.id}) else GiveBack(rest, frame.id)
    case _ => rest
  }

  /** A step can be taken: a receive waits for a buffer. */
  predicate Enabled(st: State, step: Step) {
    match step
    case Configure(s, _, _) => s < MAX_DISPLAYS
    case Disable(s) => s < MAX_DISPLAYS
    case Alloc(s) =>
      s < MAX_DISPLAYS &&
      (s in st.scanouts && Empty(st.scanouts[s].current) ==>
         st.scanouts[s].channel in st.channels && |st.channels[st.scanouts[s].channel]| > 0)
    case Present(s) => s < MAX_DISPLAYS
    case Handle => st.fifo != []
    case Release(id) => id in st.held
  }

  function Next(st: State, step: Step): State
    requires Enabled(st, step)
  {
    match step
    case Configure(s, w, h) => Configured(st, s, w, h)
    case Disable(s) => Disabled(st, s)
    case Alloc(s) => if s in st.scanouts && Empty(st.scanouts[s].current) then Allocated(st, s) else st
    case Present(s) => if s in st.scanouts then Presented(st, s) else st
    case Handle => Handled(st)
    case Release(id) => GiveBack(st.(held := st.held - multiset{id}), id)
  }

  /** A run from the start: every step possible when it is taken. */
  predicate Possible(st: State, steps: seq<Step>)
    decreases |steps|
  {
    steps == [] || (Enabled(st, steps[0]) && Possible(Next(st, steps[0]), steps[1..]))
  }

  function RunFrom(st: State, steps: seq<Step>): State
    requires Possible(st, steps)
    decreases |steps|
  {
    if steps == [] then st else RunFrom(Next(st, steps[0]), steps[1..])
  }

  // Where the buffers are.

  function Sent(fifo: seq<Message>): multiset<Id> {
    if fifo == [] then multiset{}
    else (if fifo[0].UpdateScanout? then multiset{fifo[0].frame.id} else multiset{}) + Sent(fifo[1..])
  }

  function InHand(current: Option<Frame>): multiset<Id> {
    if current.Some? then multiset{current.value.id} else multiset{}
  }

  /** The buffers that are neither in a channel nor current: presented and not yet handled,
      held by the worker, or freed. */
  function Away(st: State): multiset<Id> {
    Sent(st.fifo) + st.held + st.dropped
  }

  /**
   * Every buffer made for channel `c` is in exactly one place: back in the channel, current,
   * or away. And nothing but its own buffers is ever in the channel.
   */
  ghost predicate Tally(c: nat, made: nat, back: seq<Id>, current: Option<Frame>, away: multiset<Id>) {
    && made >= 4
    && (forall id: Id | id.channel == c ::
          multiset(back)[id] + InHand(current)[id] + away[id] == if id.index < made then 1 else 0)
    && (forall i :: 0 <= i < |back| ==> back[i].channel == c)
    && (current.Some? ==> current.value.id.channel == c)
  }

  /** Live scanouts and live return channels correspond one to one. */
  ghost predicate Wired(st: State) {
    && (forall s :: s in st.scanouts ==> st.scanouts[s].channel in st.channels)
    && (forall c :: c in st.channels ==> c < st.created)
    && (forall c :: c in st.channels ==> exists s :: s in st.scanouts && st.scanouts[s].channel == c)
    && (forall s, t | s in st.scanouts && t in st.scanouts ::
          st.scanouts[s].channel == st.scanouts[t].channel ==> s == t)
  }

  /** No buffer of a channel yet to be created exists. */
  ghost predicate Known(away: multiset<Id>, created: nat) {
    forall id :: id in away ==> id.channel < created
  }

  ghost predicate Conserved(st: State, s: nat)
    requires s in st.scanouts && st.scanouts[s].channel in st.channels
  {
    var sc := st.scanouts[s];
    Tally(sc.channel, sc.made, st.channels[sc.channel], sc.current, Away(st))
  }

  ghost predicate Inv(st: State) {
    && Wired(st)
    && Known(Away(st), st.created)
    && (forall s :: s in st.scanouts ==> Conserved(st, s))
  }

  /** Each live scanout has its four buffers: none was added and none freed. */
  ghost predicate Whole(st: State) {
    && (forall s :: s in st.scanouts ==> st.scanouts[s].made == 4)
    && (forall id :: id in st.dropped ==> id.channel !in st.channels)
  }

  /** A present finds a frame, and no alloc finds one of no size. */
  predicate Careful(st: State, step: Step) {
    match step
    case Alloc(s) => s in st.scanouts && st.scanouts[s].current.Some? ==> st.scanouts[s].current.value.len > 0
    case Present(s) => s in st.scanouts ==> st.scanouts[s].current.Some?
    case _ => true
  }
}
