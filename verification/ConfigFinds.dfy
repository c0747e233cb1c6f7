/** What the walk over nodes finds, said without walking: for each thing looked
    for, the first string with the right name decides, key or not, over the nodes
    as the environment has left them by then. */
module ConfigFinds {
  import opened Options
  import opened ConfigReader
  import opened ConfigNodes

  /** The nodes after an environment has been read. */
  function Cleared(ns: seq<Node>, ps: seq<int>): (r: seq<Node>)
    requires |ns| == |ps| && Hit(ns, IsEnv, true)
    ensures |r| == |ns|
  {
    Cut(ns, ps, map[], Entries(ns)).0
  }

  /** The nodes from the first hit on, as they are when it is met: `done` tells
      whether the environment has been read. */
  function Meets(ns: seq<Node>, ps: seq<int>, name: Name, done: bool): (r: Option<seq<Node>>)
    requires |ns| == |ps|
    ensures r.Some? ==> Hit(r.value, name, false)
    decreases |ns|
  {
    if ns == [] then None
    else if Hit(ns, name, false) then Some(ns)
    else if !done && Hit(ns, IsEnv, true) then Meets(Cleared(ns, ps)[1..], ps[1..], name, true)
    else Meets(ns[1..], ps[1..], name, done)
  }

  function VectorFrom(at: Option<seq<Node>>): Option<Option<seq<string>>>
    requires at.Some? ==> |at.value| > 1
  {
    match at
    case None => Some(None)
    case Some(at) => VectorAt(at[1..])
  }

  function DirFrom(at: Option<seq<Node>>): Option<string>
    requires at.Some? ==> |at.value| > 1
  {
    match at
    case None => None
    case Some(at) => TextAt(at[1])
  }

  /** The environment after the entries of the first `Env` with an array after it. */
  function EnvFrom(ns: seq<Node>, ps: seq<int>, env: Env): Env
    requires |ns| == |ps|
  {
    match Find(ns, IsEnv, true)
    case None => env
    case Some(at) => Cut(at, ps[|ns| - |at|..], env, Entries(at)).1
  }

  /* ---- names and NULs ---- */

  /** A name that no text with a NUL has. */
  ghost predicate Proper(name: Name) {
    forall s :: name(s) ==> '\0' !in s
  }

  lemma NamesAreProper()
    ensures Proper(IsArgs) && Proper(IsEntry) && Proper(IsDir)
  {
  }

  /** The same nodes but for NULs. */
  ghost predicate Holed(ns: seq<Node>, was: seq<Node>) {
    && |ns| == |was|
    && forall k :: 0 <= k < |ns| ==>
         && ns[k].kind == was[k].kind && ns[k].size == was[k].size && |ns[k].text| == |was[k].text|
         && forall i :: 0 <= i < |ns[k].text| ==> ns[k].text[i] == was[k].text[i] || ns[k].text[i] == '\0'
  }

  lemma PierceHoles(ns: seq<Node>, ps: seq<int>, x: int)
    requires |ns| == |ps|
    ensures Holed(Pierce(ns, ps, x), ns)
  {
  }

  lemma HoledTwice(a: seq<Node>, b: seq<Node>, c: seq<Node>)
    requires Holed(a, b) && Holed(b, c)
    ensures Holed(a, c)
  {
  }

  lemma CutAtHoles(ns: seq<Node>, ps: seq<int>, j: nat)
    requires j < |ns| == |ps|
    ensures Holed(CutAt(ns, ps, j), ns)
  {
    hide Holed, Pierce, CString, EqualsAt;
    var s := CString(ns[j].text);
    var ended := Pierce(ns, ps, EndAt(ns, ps, j));
    PierceHoles(ns, ps, EndAt(ns, ps, j));
    PierceHoles(ended, ps, ps[j] + EqualsAt(s));
    HoledTwice(Pierce(ended, ps, ps[j] + EqualsAt(s)), ended, ns);
  }

  lemma {:induction false} CutHoles(ns: seq<Node>, ps: seq<int>, env: Env, n: nat)
    requires n + 2 <= |ns| == |ps|
    ensures Holed(Cut(ns, ps, env, n).0, ns)
  {
    hide CutAt, AddEntry, CString;
    if n > 0 {
      hide Holed;
      CutHoles(ns, ps, env, n - 1);
      CutAtHoles(Cut(ns, ps, env, n - 1).0, ps, n + 1);
      HoledTwice(Cut(ns, ps, env, n).0, Cut(ns, ps, env, n - 1).0, ns);
    }
  }

  /** What is cut does not depend on the environment so far. */
  lemma {:induction false} CutIgnoresEnv(ns: seq<Node>, ps: seq<int>, env: Env, n: nat)
    requires n + 2 <= |ns| == |ps|
    ensures Cut(ns, ps, env, n).0 == Cut(ns, ps, map[], n).0
  {
    hide CutAt, AddEntry, CString;
    if n > 0 { CutIgnoresEnv(ns, ps, env, n - 1); }
  }

  /** A hole makes no name. */
  lemma HoledCalled(n: Node, was: Node, name: Name)
    requires Holed([n], [was]) && Called(n, name) && Proper(name)
    ensures n == was
  {
    assert [n][0] == n && [was][0] == was;
    assert forall i :: 0 <= i < |n.text| ==> n.text[i] in n.text;
    assert n.text == was.text;
  }

  lemma HoledAt(ns: seq<Node>, was: seq<Node>, k: nat)
    requires Holed(ns, was) && k < |ns|
    ensures Holed([ns[k]], [was[k]])
  {
  }

  /* ---- a turn ---- */

  /** After an environment has been read the string in front has no other name. */
  lemma EnvIsNoOther(ns: seq<Node>, ps: seq<int>, env: Env, name: Name)
    requires |ns| == |ps| && Hit(ns, IsEnv, true) && Proper(name) && forall s :: name(s) ==> !IsEnv(s)
    ensures !Called(Cut(ns, ps, env, Entries(ns)).0[0], name)
  {
    hide Holed, Cut, IsEnv, Proper;
    var after := Cut(ns, ps, env, Entries(ns)).0;
    CutHoles(ns, ps, env, Entries(ns));
    HoledAt(after, ns, 0);
    if Called(after[0], name) { HoledCalled(after[0], ns[0], name); }
  }

  lemma NamesApart()
    ensures forall s :: IsEnv(s) ==> !IsArgs(s) && !IsEntry(s) && !IsDir(s)
    ensures forall s :: IsArgs(s) ==> !IsEntry(s) && !IsDir(s)
    ensures forall s :: IsDir(s) ==> !IsEntry(s)
  {
    forall s ensures IsEnv(s) ==> !IsArgs(s) && !IsEntry(s) && !IsDir(s) { NamesDiffer(s); }
    forall s ensures IsArgs(s) ==> !IsEntry(s) && !IsDir(s) { NamesDiffer(s); }
    forall s ensures IsDir(s) ==> !IsEntry(s) { NamesDiffer(s); }
  }

  lemma OthersArgv(r: Reader, ns: seq<Node>)
    requires ns != []
    ensures var args := if !r.parsedArgs && Hit(ns, IsArgs, false) then VectorAt(ns[1..]) else Some(r.args);
      var entry := if !r.parsedEntry && Hit(ns, IsEntry, false) then VectorAt(ns[1..]) else Some(r.entry);
      var o := MeetOthers(r, ns);
      && (o.None? <==> args == None || entry == None)
      && (o.Some? ==>
            && Some(o.value.args) == args && Some(o.value.entry) == entry
            && o.value.parsedArgs == (r.parsedArgs || Hit(ns, IsArgs, false))
            && o.value.parsedEntry == (r.parsedEntry || Hit(ns, IsEntry, false))
            && o.value.env == r.env && o.value.parsedEnv == r.parsedEnv)
  {
    hide SameName, VectorAt, TextAt;
    NamesDiffer(ns[0].text);
  }

  lemma OthersDir(r: Reader, ns: seq<Node>)
    requires ns != [] && MeetOthers(r, ns).Some?
    ensures var o := MeetOthers(r, ns).value;
      && o.workdir == (if !r.parsedDir && Hit(ns, IsDir, false) then TextAt(ns[1]) else r.workdir)
      && o.parsedDir == (r.parsedDir || Hit(ns, IsDir, false))
      && o.env == r.env && o.parsedEnv == r.parsedEnv
  {
    hide SameName, VectorAt, TextAt;
    NamesDiffer(ns[0].text);
  }

  /** What a turn leaves of a look for `name`. */
  lemma TurnMeets(r: Reader, ns: seq<Node>, ps: seq<int>, name: Name)
    requires ns != [] && |ns| == |ps| && Proper(name) && forall s :: name(s) ==> !IsEnv(s)
    ensures var (s, cut) := MeetEnv(r, ns, ps);
      && Hit(cut, name, false) == Hit(ns, name, false) && (Hit(ns, name, false) ==> cut == ns)
      && s == r.(env := s.env, parsedEnv := r.parsedEnv || Hit(ns, IsEnv, true))
      && (!Hit(ns, name, false) ==>
            Meets(ns, ps, name, r.parsedEnv) == Meets(Beyond(r, ns, ps), ps[1..], name, s.parsedEnv))
  {
    hide Cut, IsEnv, Proper;
    if !r.parsedEnv && Hit(ns, IsEnv, true) {
      EnvIsNoOther(ns, ps, r.env, name);
      CutIgnoresEnv(ns, ps, r.env, Entries(ns));
    }
  }

  /* ---- the walk ---- */

  /** The argument vectors: the first strings called `args` or `Cmd`, and
      `Entrypoint`, decide; a vector that does not fit is the only thing that can
      stop the walk. */
  lemma {:induction false} WalkFindsArgv(r: Reader, ns: seq<Node>, ps: seq<int>)
    requires |ns| == |ps| && (r.parsedArgs || r.args == None) && (r.parsedEntry || r.entry == None)
    ensures var o := WalkNodes(r, ns, ps);
      var args := if r.parsedArgs then Some(r.args) else VectorFrom(Meets(ns, ps, IsArgs, r.parsedEnv));
      var entry := if r.parsedEntry then Some(r.entry) else VectorFrom(Meets(ns, ps, IsEntry, r.parsedEnv));
      && (o.None? <==> args == None || entry == None)
      && (o.Some? ==> Some(o.value.args) == args && Some(o.value.entry) == entry)
    decreases |ns|
  {
    hide MeetEnv, MeetOthers, Beyond, VectorAt, IsArgs, IsEntry, IsEnv, Proper, Cleared;
    if ns != [] && !AllParsed(r) {
      NamesAreProper();
      NamesApart();
      TurnMeets(r, ns, ps, IsArgs);
      TurnMeets(r, ns, ps, IsEntry);
      var (s, cut) := MeetEnv(r, ns, ps);
      OthersArgv(s, cut);
      if Meet(r, ns, ps).Some? { WalkFindsArgv(Meet(r, ns, ps).value, Beyond(r, ns, ps), ps[1..]); }
    }
  }

  /** The working directory, likewise. */
  lemma {:induction false} WalkFindsDir(r: Reader, ns: seq<Node>, ps: seq<int>)
    requires |ns| == |ps| && (r.parsedDir || r.workdir == None) && WalkNodes(r, ns, ps).Some?
    ensures WalkNodes(r, ns, ps).value.workdir ==
            if r.parsedDir then r.workdir else DirFrom(Meets(ns, ps, IsDir, r.parsedEnv))
    decreases |ns|
  {
    hide MeetEnv, MeetOthers, Beyond, TextAt, IsDir, IsEnv, Proper, Cleared;
    if ns != [] && !AllParsed(r) {
      NamesAreProper();
      NamesApart();
      TurnMeets(r, ns, ps, IsDir);
      var (s, cut) := MeetEnv(r, ns, ps);
      OthersDir(s, cut);
      WalkFindsDir(Meet(r, ns, ps).value, Beyond(r, ns, ps), ps[1..]);
    }
  }

  /** The environment: the entries after the first string called `Env` with an
      array after it. */
  lemma {:induction false} WalkFindsEnv(r: Reader, ns: seq<Node>, ps: seq<int>)
    requires |ns| == |ps| && WalkNodes(r, ns, ps).Some?
    ensures WalkNodes(r, ns, ps).value.env == if r.parsedEnv then r.env else EnvFrom(ns, ps, r.env)
    decreases |ns|
  {
    hide MeetOthers, IsEnv, Cut, IsDir;
    if ns != [] && !AllParsed(r) {
      var (s, cut) := MeetEnv(r, ns, ps);
      OthersDir(s, cut);
      EnvUnfold(ns, ps, r.env);
      WalkFindsEnv(Meet(r, ns, ps).value, Beyond(r, ns, ps), ps[1..]);
    }
  }

  lemma EnvUnfold(ns: seq<Node>, ps: seq<int>, env: Env)
    requires |ns| == |ps| && ns != []
    ensures EnvFrom(ns, ps, env) ==
            if Hit(ns, IsEnv, true) then Cut(ns, ps, env, Entries(ns)).1 else EnvFrom(ns[1..], ps[1..], env)
  {
    hide Cut, Called, Entries;
    if Hit(ns, IsEnv, true) {
      assert ps[0..] == ps;
    } else if Find(ns, IsEnv, true).Some? {
      var at := Find(ns, IsEnv, true).value;
      assert ps[1..][|ns[1..]| - |at|..] == ps[|ns| - |at|..];
    }
  }
}
