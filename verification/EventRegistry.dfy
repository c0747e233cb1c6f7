/**
 * The event manager's registry of subscribers beside the kernel's interest set, when any
 * kernel call may be refused and callbacks change the registry while a batch is delivered.
 *
 * A command carries whether the kernel refuses it for reasons of its own; the kernel also
 * refuses to add what it has and to delete or modify what it has not.
 */
module EventRegistry {
  import opened Options

  datatype Command =
    | Register(fd: nat, mask: nat, who: nat, refused: bool)
    | Unregister(fd: nat, refused: bool)
    | Modify(fd: nat, mask: nat, refused: bool)

  datatype Outcome = Done | AlreadyExists | NotFound | PollFailed

  type Interests = map<nat, nat>

  datatype Manager = Manager(subscribers: map<nat, nat>, kernel: Interests)

  datatype Event = Event(fd: nat, mask: nat)

  // The kernel.

  predicate Adds(kernel: Interests, fd: nat, refused: bool) {
    !refused && fd !in kernel
  }

  predicate Finds(kernel: Interests, fd: nat, refused: bool) {
    !refused && fd in kernel
  }

  // The registry.

  function Do(m: Manager, c: Command): (Manager, Outcome) {
    match c
    case Register(fd, mask, who, refused) =>
      if fd in m.subscribers then (m, AlreadyExists)
      else if !Adds(m.kernel, fd, refused) then (m, PollFailed)
      else (Manager(m.subscribers[fd := who], m.kernel[fd := mask]), Done)
    case Unregister(fd, refused) =>
      if fd !in m.subscribers then (m, NotFound)
      else if !Finds(m.kernel, fd, refused) then (m.(subscribers := m.subscribers - {fd}), PollFailed)
      else (Manager(m.subscribers - {fd}, m.kernel - {fd}), Done)
    case Modify(fd, mask, refused) =>
      if fd !in m.subscribers then (m, NotFound)
      else if !Finds(m.kernel, fd, refused) then (m, PollFailed)
      else (m.(kernel := m.kernel[fd := mask]), Done)
  }

  /** The commands of a callback, and what each returned. */
  function DoAll(m: Manager, cs: seq<Command>): (r: (Manager, seq<(Command, Outcome)>))
    ensures |r.1| == |cs|
  {
    if cs == [] then (m, [])
    else
      var (before, log) := DoAll(m, cs[..|cs| - 1]);
      var (after, outcome) := Do(before, cs[|cs| - 1]);
      (after, log + [(cs[|cs| - 1], outcome)])
  }

  function Owner(m: Manager, fd: nat): Option<nat> {
    if fd in m.subscribers then Some(m.subscribers[fd]) else None
  }

  // A batch of events.

  /** One batch: `scripts[i]` is what the callback of event i does, if there is one. */
  datatype Batch = Batch(events: seq<Event>, scripts: seq<seq<Command>>)

  predicate Fits(b: Batch) {
    |b.events| == |b.scripts|
  }

  /** The manager, the log of commands and the deliveries after `n` events. */
  datatype Progress = Progress(manager: Manager, log: seq<(Command, Outcome)>, got: seq<Option<nat>>)

  function Deliver(p: Progress, e: Event, script: seq<Command>): Progress {
    var owner := Owner(p.manager, e.fd);
    if owner.None? then p.(got := p.got + [None])
    else
      var (after, log) := DoAll(p.manager, script);
      Progress(after, p.log + log, p.got + [owner])
  }

  function Dispatch(m: Manager, b: Batch, n: nat): (p: Progress)
    requires Fits(b) && n <= |b.events|
    ensures |p.got| == n
  {
    if n == 0 then Progress(m, [], []) else Deliver(Dispatch(m, b, n - 1), b.events[n - 1], b.scripts[n - 1])
  }

  // Who owns a descriptor, from the history of commands alone.

  /** What one logged command says about the owner of `fd`. */
  function Told(entry: (Command, Outcome), fd: nat, owner: Option<nat>): Option<nat> {
    match entry.0
    case Register(f, _, who, _) => if f == fd && entry.1 == Done then Some(who) else owner
    case Unregister(f, _) => if f == fd && entry.1 != NotFound then None else owner
    case Modify(_, _, _) => owner
  }

  function OwnerAfter(log: seq<(Command, Outcome)>, fd: nat, owner: Option<nat>): Option<nat> {
    if log == [] then owner
    else Told(log[|log| - 1], fd, OwnerAfter(log[..|log| - 1], fd, owner))
  }

  lemma DoTells(m: Manager, c: Command, fd: nat)
    ensures var (after, outcome) := Do(m, c);
      Owner(after, fd) == Told((c, outcome), fd, Owner(m, fd))
  {
  }

  lemma {:induction false} DoAllTells(m: Manager, cs: seq<Command>, fd: nat)
    ensures Owner(DoAll(m, cs).0, fd) == OwnerAfter(DoAll(m, cs).1, fd, Owner(m, fd))
  {
    hide Do, Told;
    if cs != [] {
      var n := |cs| - 1;
      var (before, log) := DoAll(m, cs[..n]);
      var (after, outcome) := Do(before, cs[n]);
      DoAllTells(m, cs[..n], fd);
      DoTells(before, cs[n], fd);
      assert (log + [(cs[n], outcome)])[..n] == log;
    }
  }

  lemma {:induction false} OwnerAfterAppend(a: seq<(Command, Outcome)>, b: seq<(Command, Outcome)>,
                                            fd: nat, owner: Option<nat>)
    ensures OwnerAfter(a + b, fd, owner) == OwnerAfter(b, fd, OwnerAfter(a, fd, owner))
    decreases |b|
  {
    hide Told;
    if b == [] {
      assert a + b == a;
    } else {
      assert (a + b)[..|a + b| - 1] == a + b[..|b| - 1];
      OwnerAfterAppend(a, b[..|b| - 1], fd, owner);
    }
  }

  lemma {:induction false} DispatchTells(m: Manager, b: Batch, n: nat, fd: nat)
    requires Fits(b) && n <= |b.events|
    ensures Owner(Dispatch(m, b, n).manager, fd) == OwnerAfter(Dispatch(m, b, n).log, fd, Owner(m, fd))
  {
    hide Owner, DoAll, OwnerAfter;
    if n == 0 {
      NothingTold(fd, Owner(m, fd));
    } else {
      var before := Dispatch(m, b, n - 1);
      DispatchTells(m, b, n - 1, fd);
      DoAllTells(before.manager, b.scripts[n - 1], fd);
      OwnerAfterAppend(before.log, DoAll(before.manager, b.scripts[n - 1]).1, fd, Owner(m, fd));
    }
  }

  lemma NothingTold(fd: nat, owner: Option<nat>)
    ensures OwnerAfter([], fd, owner) == owner
  {
  }

  /**
   * Each event of a batch goes to whoever the commands so far leave registered for its
   * descriptor, callbacks of the same batch included, and to nobody if that is no one.
   */
  lemma {:induction false} DeliveredToOwner(m: Manager, b: Batch, n: nat, i: nat)
    requires Fits(b) && i < n <= |b.events|
    ensures Dispatch(m, b, n).got[i] ==
            OwnerAfter(Dispatch(m, b, i).log, b.events[i].fd, Owner(m, b.events[i].fd))
    ensures Dispatch(m, b, i).log <= Dispatch(m, b, n).log
  {
    hide OwnerAfter, DoAll, Owner;
    DispatchTells(m, b, i, b.events[i].fd);
    if i + 1 < n {
      DeliveredToOwner(m, b, n - 1, i);
    }
  }

  // Registry and kernel.

  /** The descriptor whose deletion the kernel refused, if this is what the entry says. */
  function Leak(entry: (Command, Outcome)): set<nat> {
    if entry.0.Unregister? && entry.1 == PollFailed then {entry.0.fd} else {}
  }

  function Leaks(log: seq<(Command, Outcome)>): set<nat> {
    if log == [] then {} else Leaks(log[..|log| - 1]) + Leak(log[|log| - 1])
  }

  lemma {:induction false} LeaksAppend(a: seq<(Command, Outcome)>, b: seq<(Command, Outcome)>)
    ensures Leaks(a + b) == Leaks(a) + Leaks(b)
    decreases |b|
  {
    hide Leak;
    if b == [] {
      assert a + b == a;
    } else {
      assert (a + b)[..|a + b| - 1] == a + b[..|b| - 1];
      LeaksAppend(a, b[..|b| - 1]);
    }
  }

  /** The kernel watches the registered descriptors and the leaked ones, and these differ. */
  predicate Watches(m: Manager, leaked: set<nat>) {
    m.kernel.Keys == m.subscribers.Keys + leaked && m.subscribers.Keys !! leaked
  }

  lemma DoKeeps(m: Manager, c: Command, leaked: set<nat>)
    requires Watches(m, leaked)
    ensures var (after, outcome) := Do(m, c);
      Watches(after, leaked + Leak((c, outcome)))
  {
  }

  lemma {:induction false} DoAllKeeps(m: Manager, cs: seq<Command>, leaked: set<nat>)
    requires Watches(m, leaked)
    ensures Watches(DoAll(m, cs).0, leaked + Leaks(DoAll(m, cs).1))
  {
    hide Do, Watches, Leak;
    if cs == [] {
      assert leaked + Leaks([]) == leaked;
    } else {
      var n := |cs| - 1;
      var (before, log) := DoAll(m, cs[..n]);
      var entry := (cs[n], Do(before, cs[n]).1);
      DoAllKeeps(m, cs[..n], leaked);
      DoKeeps(before, cs[n], leaked + Leaks(log));
      assert (log + [entry])[..n] == log;
      assert leaked + Leaks(log) + Leak(entry) == leaked + Leaks(log + [entry]);
    }
  }

  /** Through any batch. */
  lemma {:induction false} DispatchKeeps(m: Manager, b: Batch, n: nat, leaked: set<nat>)
    requires Watches(m, leaked) && Fits(b) && n <= |b.events|
    ensures Watches(Dispatch(m, b, n).manager, leaked + Leaks(Dispatch(m, b, n).log))
  {
    hide DoAll, Watches, Leaks, Owner;
    if n == 0 {
      NothingLeaks(leaked);
    } else {
      var before := Dispatch(m, b, n - 1);
      DispatchKeeps(m, b, n - 1, leaked);
      if Owner(before.manager, b.events[n - 1].fd).Some? {
        var did := DoAll(before.manager, b.scripts[n - 1]).1;
        DoAllKeeps(before.manager, b.scripts[n - 1], leaked + Leaks(before.log));
        LeaksAppend(before.log, did);
        assert leaked + Leaks(before.log) + Leaks(did) == leaked + Leaks(before.log + did);
      }
    }
  }

  lemma NothingLeaks(leaked: set<nat>)
    ensures leaked + Leaks([]) == leaked
  {
  }

  /** Once unregistered, even if the kernel refused, a descriptor gets nothing until re-registered. */
  lemma {:induction false} NothingAfterUnregister(log: seq<(Command, Outcome)>, fd: nat, owner: Option<nat>, j: nat)
    requires j < |log| && log[j].0.Unregister? && log[j].0.fd == fd && log[j].1 != NotFound
    requires forall k :: j < k < |log| && log[k].0.Register? && log[k].0.fd == fd ==> log[k].1 != Done
    ensures OwnerAfter(log, fd, owner).None?
  {
    var n := |log| - 1;
    if j < n {
      NothingAfterUnregister(log[..n], fd, owner, j);
    }
  }

  // Subscribing to a whole list, and probing.

  type Interest = (nat, nat)

  /** The first `n` interests of a list registered for `who`. */
  function RegisterFirst(m: Manager, interests: seq<Interest>, who: nat, n: nat): Manager
    requires n <= |interests|
  {
    if n == 0 then m
    else
      var before := RegisterFirst(m, interests, who, n - 1);
      var (fd, mask) := interests[n - 1];
      Manager(before.subscribers[fd := who], before.kernel[fd := mask])
  }

  lemma {:induction false} RegisterFirstOwns(m: Manager, interests: seq<Interest>, who: nat, n: nat, fd: nat)
    requires n <= |interests|
    ensures Owner(RegisterFirst(m, interests, who, n), fd) ==
            if exists i :: 0 <= i < n && interests[i].0 == fd then Some(who) else Owner(m, fd)
  {
    if n > 0 {
      RegisterFirstOwns(m, interests, who, n - 1, fd);
    }
  }

  /** How many registrations succeed before one fails. */
  function Accepted(m: Manager, interests: seq<Interest>, who: nat, refused: seq<bool>, n: nat): (k: nat)
    requires |refused| == |interests| && n <= |interests|
    ensures n <= k <= |interests|
    decreases |interests| - n
  {
    if n == |interests| then n
    else
      var (fd, mask) := interests[n];
      var c := Register(fd, mask, who, refused[n]);
      if Do(RegisterFirst(m, interests, who, n), c).1 != Done then n
      else Accepted(m, interests, who, refused, n + 1)
  }

  function Added(m: Manager, interests: seq<Interest>, who: nat, refused: seq<bool>): Manager
    requires |refused| == |interests|
  {
    RegisterFirst(m, interests, who, Accepted(m, interests, who, refused, 0))
  }

  /** Each accepted registration is one the registry and the kernel did not have. */
  lemma {:induction false} AddedKeeps(m: Manager, interests: seq<Interest>, who: nat, refused: seq<bool>, n: nat,
                                      leaked: set<nat>)
    requires |refused| == |interests| && n <= |interests| && Watches(RegisterFirst(m, interests, who, n), leaked)
    ensures Watches(RegisterFirst(m, interests, who, Accepted(m, interests, who, refused, n)), leaked)
    decreases |interests| - n
  {
    if n < |interests| {
      var c := Register(interests[n].0, interests[n].1, who, refused[n]);
      var before := RegisterFirst(m, interests, who, n);
      if Do(before, c).1 == Done {
        DoKeeps(before, c, leaked);
        AddedKeeps(m, interests, who, refused, n + 1, leaked);
      }
    }
  }

  // Whole lives of a manager.

  datatype Call =
    | Single(command: Command)
    | Add(interests: seq<Interest>, who: nat, refused: seq<bool>)
    | Run(batch: Batch)

  predicate Proper(c: Call) {
    && (c.Add? ==> |c.refused| == |c.interests|)
    && (c.Run? ==> Fits(c.batch))
  }

  function Step(m: Manager, c: Call): Manager
    requires Proper(c)
  {
    match c
    case Single(command) => Do(m, command).0
    case Add(interests, who, refused) => Added(m, interests, who, refused)
    case Run(batch) => Dispatch(m, batch, |batch.events|).manager
  }

  /** What the callers of a life got to see. */
  function Seen(m: Manager, c: Call): seq<(Command, Outcome)>
    requires Proper(c)
  {
    match c
    case Single(command) => [(command, Do(m, command).1)]
    case Add(_, _, _) => []
    case Run(batch) => Dispatch(m, batch, |batch.events|).log
  }

  function Life(calls: seq<Call>): (r: (Manager, seq<(Command, Outcome)>))
    requires forall i :: 0 <= i < |calls| ==> Proper(calls[i])
  {
    if calls == [] then (Manager(map[], map[]), [])
    else
      var (before, log) := Life(calls[..|calls| - 1]);
      (Step(before, calls[|calls| - 1]), log + Seen(before, calls[|calls| - 1]))
  }

  lemma StepKeeps(m: Manager, c: Call, leaked: set<nat>)
    requires Proper(c) && Watches(m, leaked)
    ensures Watches(Step(m, c), leaked + Leaks(Seen(m, c)))
  {
    hide Watches, Do, Dispatch, Leak, Accepted;
    match c
    case Single(command) =>
      DoKeeps(m, command, leaked);
      OneLeak((command, Do(m, command).1));
    case Add(interests, who, refused) =>
      AddedKeeps(m, interests, who, refused, 0, leaked);
      NothingLeaks(leaked);
    case Run(batch) => DispatchKeeps(m, batch, |batch.events|, leaked);
  }

  lemma OneLeak(entry: (Command, Outcome))
    ensures Leaks([entry]) == Leak(entry)
  {
    assert [entry][..0] == [];
  }

  /**
   * Whatever is called, whatever callbacks do and whatever the kernel refuses: the kernel
   * watches exactly the registered descriptors and, for ever, those whose unregistering it
   * refused. So no subscriber is registered for what is not watched, and the two sets are equal
   * if and only if no unregistering was refused.
   */
  lemma {:induction false} RegistryWithinKernel(calls: seq<Call>)
    requires forall i :: 0 <= i < |calls| ==> Proper(calls[i])
    ensures var (m, log) := Life(calls);
      && m.kernel.Keys == m.subscribers.Keys + Leaks(log) && m.subscribers.Keys !! Leaks(log)
      && m.subscribers.Keys <= m.kernel.Keys
      && (m.subscribers.Keys == m.kernel.Keys <==>
          forall i :: 0 <= i < |log| && log[i].0.Unregister? ==> log[i].1 != PollFailed)
  {
    LifeKeeps(calls);
    LeaksNothing(Life(calls).1);
  }

  lemma {:induction false} LifeKeeps(calls: seq<Call>)
    requires forall i :: 0 <= i < |calls| ==> Proper(calls[i])
    ensures Watches(Life(calls).0, Leaks(Life(calls).1))
  {
    hide Watches, Step, Seen, Leaks;
    if calls == [] {
      EmptyWatches();
    } else {
      var n := |calls| - 1;
      var (before, log) := Life(calls[..n]);
      LifeKeeps(calls[..n]);
      StepKeeps(before, calls[n], Leaks(log));
      LeaksAppend(log, Seen(before, calls[n]));
    }
  }

  lemma EmptyWatches()
    ensures Watches(Manager(map[], map[]), Leaks([]))
  {
  }

  lemma {:induction false} LeaksNothing(log: seq<(Command, Outcome)>)
    ensures Leaks(log) == {} <==> forall i :: 0 <= i < |log| && log[i].0.Unregister? ==> log[i].1 != PollFailed
  {
    if log != [] {
      var n := |log| - 1;
      LeaksNothing(log[..n]);
      assert forall i :: 0 <= i < n ==> log[..n][i] == log[i];
    }
  }

  /** A descriptor registered, unregistered while the kernel refuses, and registered again: the
      kernel still watches it and nobody is subscribed. */
  lemma RefusedDeleteLeaks()
    ensures var calls :=
        [Single(Register(3, 1, 7, false)), Single(Unregister(3, true)), Single(Register(3, 1, 8, false))];
      Life(calls).0 == Manager(map[], map[3 := 1])
  {
    var calls := [Single(Register(3, 1, 7, false)), Single(Unregister(3, true)), Single(Register(3, 1, 8, false))];
    assert calls[..2][..1][..0] == [];
    assert Life(calls[..2][..1]).0 == Manager(map[3 := 7], map[3 := 1]);
    assert Life(calls[..2]).0 == Manager(map[], map[3 := 1]);
  }

  // The object.

  class EventManager {
    var subscribers: map<nat, nat>
    var kernel: Interests

    ghost function View(): Manager
      reads this
    {
      Manager(subscribers, kernel)
    }

    constructor ()
      ensures View() == Manager(map[], map[])
    {
      subscribers, kernel := map[], map[];
    }

    method RegisterFd(fd: nat, mask: nat, who: nat, refused: bool) returns (outcome: Outcome)
      modifies this
      ensures (View(), outcome) == Do(old(View()), Register(fd, mask, who, refused))
    {
      if fd in subscribers {
        return AlreadyExists;
      }
      if refused || fd in kernel {
        return PollFailed;
      }
      kernel := kernel[fd := mask];
      subscribers := subscribers[fd := who];
      return Done;
    }

    method UnregisterFd(fd: nat, refused: bool) returns (outcome: Outcome)
      modifies this
      ensures (View(), outcome) == Do(old(View()), Unregister(fd, refused))
    {
      if fd !in subscribers {
        return NotFound;
      }
      subscribers := subscribers - {fd};
      if refused || fd !in kernel {
        return PollFailed;
      }
      kernel := kernel - {fd};
      return Done;
    }

    method ModifyFd(fd: nat, mask: nat, refused: bool) returns (outcome: Outcome)
      modifies this
      ensures (View(), outcome) == Do(old(View()), Modify(fd, mask, refused))
    {
      if fd !in subscribers {
        return NotFound;
      }
      if refused || fd !in kernel {
        return PollFailed;
      }
      kernel := kernel[fd := mask];
      return Done;
    }

    /** Adds and deletes again; the deletion is not refused, or the program stops. */
    method IsPollable(fd: nat, refused: bool) returns (pollable: bool)
      modifies this
      ensures View() == old(View())
      ensures pollable == Adds(kernel, fd, refused)
    {
      if refused || fd in kernel {
        return false;
      }
      kernel := kernel[fd := 0];
      kernel := kernel - {fd};
      assert kernel == old(kernel);
      return true;
    }

    /** A failing subscription leaves exactly the interests before the failing one registered. */
    method AddSubscriber(interests: seq<Interest>, who: nat, refused: seq<bool>) returns (outcome: Outcome)
      requires |refused| == |interests|
      modifies this
      ensures View() == Added(old(View()), interests, who, refused)
      ensures outcome == Done <==> Accepted(old(View()), interests, who, refused, 0) == |interests|
    {
      for i := 0 to |interests|
        invariant View() == RegisterFirst(old(View()), interests, who, i)
        invariant Accepted(old(View()), interests, who, refused, 0) == Accepted(old(View()), interests, who, refused, i)
      {
        outcome := RegisterFd(interests[i].0, interests[i].1, who, refused[i]);
        if outcome != Done {
          return;
        }
      }
      outcome := Done;
    }

    method Obey(command: Command) returns (outcome: Outcome)
      modifies this
      ensures (View(), outcome) == Do(old(View()), command)
    {
      match command {
        case Register(fd, mask, who, refused) => outcome := RegisterFd(fd, mask, who, refused);
        case Unregister(fd, refused) => outcome := UnregisterFd(fd, refused);
        case Modify(fd, mask, refused) => outcome := ModifyFd(fd, mask, refused);
      }
    }

    /** A callback: it may do anything to the registry that called it. */
    method Process(script: seq<Command>) returns (log: seq<(Command, Outcome)>)
      modifies this
      ensures (View(), log) == DoAll(old(View()), script)
    {
      log := [];
      for i := 0 to |script|
        invariant (View(), log) == DoAll(old(View()), script[..i])
      {
        var outcome := Obey(script[i]);
        log := log + [(script[i], outcome)];
        assert script[..i + 1][..i] == script[..i];
      }
      assert script[..|script|] == script;
    }

    method DispatchEvents(batch: Batch) returns (ghost log: seq<(Command, Outcome)>, got: seq<Option<nat>>)
      requires Fits(batch)
      modifies this
      ensures Progress(View(), log, got) == Dispatch(old(View()), batch, |batch.events|)
    {
      log, got := [], [];
      for i := 0 to |batch.events|
        invariant Progress(View(), log, got) == Dispatch(old(View()), batch, i)
      {
        var fd := batch.events[i].fd;
        if fd in subscribers {
          var who := subscribers[fd];
          got := got + [Some(who)];
          var did := Process(batch.scripts[i]);
          log := log + did;
        } else {
          got := got + [None];
        }
      }
    }
  }
}
