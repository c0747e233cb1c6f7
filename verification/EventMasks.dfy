/**
 * What the event manager's history says about each descriptor: who is called for it, and which
 * events the kernel was last asked to report.
 */
module EventMasks {
  import opened Options
  import opened EventRegistry

  type History = seq<(Command, Outcome)>

  function Mask(m: Manager, fd: nat): Option<nat> {
    if fd in m.kernel then Some(m.kernel[fd]) else None
  }

  /** What one logged command says about the mask of `fd`; a refused one says nothing. */
  function MaskTold(entry: (Command, Outcome), fd: nat, mask: Option<nat>): Option<nat> {
    if entry.1 != Done || entry.0.fd != fd then mask
    else
      match entry.0
      case Register(_, x, _, _) => Some(x)
      case Modify(_, x, _) => Some(x)
      case Unregister(_, _) => None
  }

  /** The mask of the last successful command for `fd`. */
  function MaskAfter(log: History, fd: nat, mask: Option<nat>): Option<nat> {
    if log == [] then mask else MaskTold(log[|log| - 1], fd, MaskAfter(log[..|log| - 1], fd, mask))
  }

  lemma {:induction false} MaskAfterAppend(a: History, b: History, fd: nat, mask: Option<nat>)
    ensures MaskAfter(a + b, fd, mask) == MaskAfter(b, fd, MaskAfter(a, fd, mask))
    decreases |b|
  {
    hide MaskTold;
    if b == [] {
      assert a + b == a;
    } else {
      assert (a + b)[..|a + b| - 1] == a + b[..|b| - 1];
      MaskAfterAppend(a, b[..|b| - 1], fd, mask);
    }
  }

  lemma DoMasks(m: Manager, c: Command, fd: nat)
    ensures var (after, outcome) := Do(m, c);
      Mask(after, fd) == MaskTold((c, outcome), fd, Mask(m, fd))
  {
  }

  lemma {:induction false} DoAllMasks(m: Manager, cs: seq<Command>, fd: nat)
    ensures Mask(DoAll(m, cs).0, fd) == MaskAfter(DoAll(m, cs).1, fd, Mask(m, fd))
  {
    hide Do, MaskTold, Mask;
    if cs != [] {
      var n := |cs| - 1;
      var (before, log) := DoAll(m, cs[..n]);
      var (after, outcome) := Do(before, cs[n]);
      DoAllMasks(m, cs[..n], fd);
      DoMasks(before, cs[n], fd);
      assert (log + [(cs[n], outcome)])[..n] == log;
    }
  }

  lemma {:induction false} DispatchMasks(m: Manager, b: Batch, n: nat, fd: nat)
    requires Fits(b) && n <= |b.events|
    ensures Mask(Dispatch(m, b, n).manager, fd) == MaskAfter(Dispatch(m, b, n).log, fd, Mask(m, fd))
  {
    hide Owner, DoAll, MaskTold, Mask;
    if n > 0 {
      var before := Dispatch(m, b, n - 1);
      DispatchMasks(m, b, n - 1, fd);
      DoAllMasks(before.manager, b.scripts[n - 1], fd);
      MaskAfterAppend(before.log, DoAll(before.manager, b.scripts[n - 1]).1, fd, Mask(m, fd));
    }
  }

  /** The registrations of a subscriber's first interests, as if asked for one by one. */
  function Registrations(interests: seq<Interest>, who: nat, n: nat): (log: History)
    requires n <= |interests|
    ensures |log| == n
    ensures forall i :: 0 <= i < n ==> log[i] == (Register(interests[i].0, interests[i].1, who, false), Done)
  {
    seq(n, i requires 0 <= i < |interests| => (Register(interests[i].0, interests[i].1, who, false), Done))
  }

  lemma {:induction false} RegistrationsTell(m: Manager, interests: seq<Interest>, who: nat, n: nat, fd: nat)
    requires n <= |interests|
    ensures var after, log := RegisterFirst(m, interests, who, n), Registrations(interests, who, n);
      && Mask(after, fd) == MaskAfter(log, fd, Mask(m, fd))
      && Owner(after, fd) == OwnerAfter(log, fd, Owner(m, fd))
    decreases n
  {
    if n > 0 {
      RegistrationsTell(m, interests, who, n - 1, fd);
      assert Registrations(interests, who, n)[..n - 1] == Registrations(interests, who, n - 1);
    }
  }

  // Whole lives.

  /** All commands of a call, those of callbacks and of subscribing included. */
  function Told(m: Manager, c: Call): History
    requires Proper(c)
  {
    match c
    case Single(command) => [(command, Do(m, command).1)]
    case Add(interests, who, refused) => Registrations(interests, who, Accepted(m, interests, who, refused, 0))
    case Run(batch) => Dispatch(m, batch, |batch.events|).log
  }

  function ToldAll(calls: seq<Call>): History
    requires forall i :: 0 <= i < |calls| ==> Proper(calls[i])
  {
    if calls == [] then []
    else ToldAll(calls[..|calls| - 1]) + Told(Life(calls[..|calls| - 1]).0, calls[|calls| - 1])
  }

  lemma StepTells(m: Manager, c: Call, fd: nat)
    requires Proper(c)
    ensures Mask(Step(m, c), fd) == MaskAfter(Told(m, c), fd, Mask(m, fd))
    ensures Owner(Step(m, c), fd) == OwnerAfter(Told(m, c), fd, Owner(m, fd))
  {
    hide Do, Dispatch, Accepted, Mask, Owner, MaskAfter, OwnerAfter, RegisterFirst;
    match c
    case Single(command) =>
      DoMasks(m, command, fd);
      DoTells(m, command, fd);
      OneTold((command, Do(m, command).1), fd, Mask(m, fd), Owner(m, fd));
    case Add(interests, who, refused) =>
      RegistrationsTell(m, interests, who, Accepted(m, interests, who, refused, 0), fd);
    case Run(batch) =>
      DispatchMasks(m, batch, |batch.events|, fd);
      DispatchTells(m, batch, |batch.events|, fd);
  }

  lemma OneTold(entry: (Command, Outcome), fd: nat, mask: Option<nat>, owner: Option<nat>)
    ensures MaskAfter([entry], fd, mask) == MaskTold(entry, fd, mask)
    ensures OwnerAfter([entry], fd, owner) == EventRegistry.Told(entry, fd, owner)
  {
    assert [entry][..0] == [];
  }

  /**
   * Whatever is called, whatever callbacks do and whatever the kernel refuses: the mask the
   * kernel holds for a descriptor is that of the last successful register or modify since it was
   * last deleted, and its subscriber is the one last registered and not unregistered since.
   */
  lemma {:induction false} MaskIsLastAsked(calls: seq<Call>, fd: nat)
    requires forall i :: 0 <= i < |calls| ==> Proper(calls[i])
    ensures Mask(Life(calls).0, fd) == MaskAfter(ToldAll(calls), fd, None)
    ensures Owner(Life(calls).0, fd) == OwnerAfter(ToldAll(calls), fd, None)
  {
    hide Step, Told, MaskAfter, OwnerAfter;
    if calls == [] {
      NoneTold(fd);
    } else {
      var n := |calls| - 1;
      var before := Life(calls[..n]).0;
      MaskIsLastAsked(calls[..n], fd);
      StepTells(before, calls[n], fd);
      MaskAfterAppend(ToldAll(calls[..n]), Told(before, calls[n]), fd, None);
      OwnerAfterAppend(ToldAll(calls[..n]), Told(before, calls[n]), fd, None);
    }
  }

  lemma NoneTold(fd: nat)
    ensures MaskAfter([], fd, None) == None && OwnerAfter([], fd, None) == None
  {
  }
}
