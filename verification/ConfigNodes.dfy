/** The configuration walk without its text.  Tokens show a list of nodes, parents
    before children: what kind each is, what it says, and how many children it
    has.  Cutting the text apart pierces every node that lies over the place, so
    the walk over nodes also knows where each begins. */
module ConfigNodes {
  import opened Options
  import opened JsonLexing
  import opened JsonMachine
  import opened ConfigReader

  datatype Node = Node(kind: Kind, text: string, size: nat)

  /** What the first `n` nodes say, as C reads it. */
  function Texts(ns: seq<Node>, n: nat): (r: seq<string>)
    ensures |r| == if n < |ns| then n else |ns|
    ensures forall i :: 0 <= i < |r| ==> r[i] == CString(ns[i].text)
  {
    seq(if n < |ns| then n else |ns|, i requires 0 <= i < |ns| => CString(ns[i].text))
  }

  predicate Says(n: Node, name: string) {
    n.kind == String && SameName(n.text, name)
  }

  /** The vector of the node in front: as many of the nodes after it as it has children. */
  function VectorAt(ns: seq<Node>): Option<Option<seq<string>>>
    requires ns != []
  {
    var n := ns[0].size;
    if n >= MAX_ARGS then None
    else if n == 0 then Some(None)
    else Some(Some(Texts(ns[1..], n)))
  }

  function TextAt(n: Node): Option<string> {
    if n.text == "" then None else Some(CString(n.text))
  }

  /* ---- names ---- */

  predicate IsArgs(s: string) {
    SameName(s, "args") || SameName(s, "Cmd")
  }

  predicate IsDir(s: string) {
    SameName(s, "WorkingDir") || SameName(s, "Cwd")
  }

  predicate IsEntry(s: string) {
    SameName(s, "Entrypoint")
  }

  predicate IsEnv(s: string) {
    SameName(s, "Env")
  }

  lemma NamesDiffer(s: string)
    ensures IsEnv(s) ==> !IsArgs(s) && !IsDir(s) && !IsEntry(s)
    ensures IsArgs(s) ==> !IsDir(s) && !IsEntry(s)
    ensures IsDir(s) ==> !IsEntry(s)
    ensures !(SameName(s, "args") && SameName(s, "Cmd")) && !(SameName(s, "WorkingDir") && SameName(s, "Cwd"))
  {
    if |s| > 1 {
      var first, second := s[0], s[1];
    }
  }

  /* ---- the first string with a name ---- */

  type Name = string -> bool

  predicate Called(n: Node, name: Name) {
    n.kind == String && name(n.text)
  }

  /** A string with the name and a node after it; an array, if only arrays will do. */
  predicate Hit(ns: seq<Node>, name: Name, arrays: bool) {
    |ns| > 1 && Called(ns[0], name) && (arrays ==> ns[1].kind == Array)
  }

  /** The nodes from the first hit on. */
  function Find(ns: seq<Node>, name: Name, arrays: bool): (r: Option<seq<Node>>)
    ensures r.Some? ==> Hit(r.value, name, arrays) && |r.value| <= |ns|
  {
    if ns == [] then None
    else if Hit(ns, name, arrays) then Some(ns)
    else Find(ns[1..], name, arrays)
  }

  lemma {:induction false} FindIsSuffix(ns: seq<Node>, name: Name, arrays: bool)
    ensures var r := Find(ns, name, arrays); r.Some? ==> r.value == ns[|ns| - |r.value|..]
  {
    hide Hit;
    if ns != [] { FindIsSuffix(ns[1..], name, arrays); }
  }

  /* ---- cutting ---- */

  /** A NUL at place `x` of the text, under a node that begins at `p`. */
  function Pierced(n: Node, p: int, x: int): (r: Node)
    ensures r.kind == n.kind && r.size == n.size && |r.text| == |n.text|
    ensures forall i :: 0 <= i < |n.text| ==> r.text[i] == if p + i == x then '\0' else n.text[i]
  {
    if p <= x < p + |n.text| then n.(text := n.text[x - p := '\0']) else n
  }

  function Pierce(ns: seq<Node>, ps: seq<int>, x: int): (r: seq<Node>)
    requires |ps| == |ns|
    ensures |r| == |ns| && forall k :: 0 <= k < |ns| ==> r[k] == Pierced(ns[k], ps[k], x)
  {
    seq(|ns|, k requires 0 <= k < |ns| => Pierced(ns[k], ps[k], x))
  }

  /** Where a node ends. */
  function EndAt(ns: seq<Node>, ps: seq<int>, j: nat): int
    requires j < |ns| == |ps|
  {
    ps[j] + |ns[j].text|
  }

  /** One entry read: a NUL behind it, and one at its first `=`. */
  function CutAt(ns: seq<Node>, ps: seq<int>, j: nat): (r: seq<Node>)
    requires j < |ns| == |ps|
    ensures |r| == |ns|
  {
    var s := CString(ns[j].text);
    var ended := Pierce(ns, ps, EndAt(ns, ps, j));
    if EqualsAt(s) == |s| then ended else Pierce(ended, ps, ps[j] + EqualsAt(s))
  }

  /** The first `n` nodes after the second read as entries, one after the other. */
  function Cut(ns: seq<Node>, ps: seq<int>, env: Env, n: nat): (r: (seq<Node>, Env))
    requires n + 2 <= |ns| == |ps|
    ensures |r.0| == |ns|
  {
    if n == 0 then (ns, env)
    else
      var (ns', env') := Cut(ns, ps, env, n - 1);
      (CutAt(ns', ps, n + 1), AddEntry(env', CString(ns'[n + 1].text)))
  }

  /** How many nodes after the second are read: the children of an array, if there are as many. */
  function Entries(ns: seq<Node>): (n: nat)
    requires |ns| > 1
    ensures n + 2 <= |ns|
  {
    if ns[1].size + 2 <= |ns| then ns[1].size else |ns| - 2
  }

  /* ---- the walk over nodes ---- */

  function MeetEnv(r: Reader, ns: seq<Node>, ps: seq<int>): (q: (Reader, seq<Node>))
    requires |ns| == |ps|
    ensures |q.1| == |ns|
  {
    if !r.parsedEnv && Hit(ns, IsEnv, true) then
      var (after, env) := Cut(ns, ps, r.env, Entries(ns));
      (r.(env := env, parsedEnv := true), after)
    else (r, ns)
  }

  function MeetArgs(r: Reader, ns: seq<Node>, name: string): Option<Reader>
    requires ns != []
  {
    if !r.parsedArgs && Says(ns[0], name) && |ns| > 1 then
      match VectorAt(ns[1..])
      case None => None
      case Some(args) => Some(r.(args := args, parsedArgs := true))
    else Some(r)
  }

  function MeetDir(r: Reader, ns: seq<Node>, name: string): Reader
    requires ns != []
  {
    if !r.parsedDir && Says(ns[0], name) && |ns| > 1 then r.(workdir := TextAt(ns[1]), parsedDir := true)
    else r
  }

  function MeetEntry(r: Reader, ns: seq<Node>): Option<Reader>
    requires ns != []
  {
    if !r.parsedEntry && Says(ns[0], "Entrypoint") && |ns| > 1 then
      match VectorAt(ns[1..])
      case None => None
      case Some(args) => Some(r.(entry := args, parsedEntry := true))
    else Some(r)
  }

  /** What the nodes say to a reader who has dealt with the environment. */
  function MeetOthers(r: Reader, ns: seq<Node>): Option<Reader>
    requires ns != []
  {
    match MeetArgs(r, ns, "args")
    case None => None
    case Some(r1) =>
      match MeetArgs(r1, ns, "Cmd")
      case None => None
      case Some(r2) => MeetEntry(MeetDir(MeetDir(r2, ns, "WorkingDir"), ns, "Cwd"), ns)
  }

  /** What meeting the node in front does to what has been found. */
  function Meet(r: Reader, ns: seq<Node>, ps: seq<int>): Option<Reader>
    requires ns != [] && |ns| == |ps|
  {
    MeetOthers(MeetEnv(r, ns, ps).0, MeetEnv(r, ns, ps).1)
  }

  /** The nodes after it, pierced if it began an environment. */
  function Beyond(r: Reader, ns: seq<Node>, ps: seq<int>): (q: seq<Node>)
    requires ns != [] && |ns| == |ps|
    ensures |q| == |ns| - 1
  {
    MeetEnv(r, ns, ps).1[1..]
  }

  function WalkNodes(r: Reader, ns: seq<Node>, ps: seq<int>): Option<Reader>
    requires |ns| == |ps|
    decreases |ns|
  {
    if ns == [] || AllParsed(r) then Some(r)
    else
      match Meet(r, ns, ps)
      case None => None
      case Some(r') => WalkNodes(r', Beyond(r, ns, ps), ps[1..])
  }

  /* ---- tokens that show nodes ---- */

  /** The same but for the text. */
  predicate Like(r: Option<Reader>, s: Option<Reader>) {
    match (r, s)
    case (None, None) => true
    case (Some(r), Some(s)) => r.(data := "") == s.(data := "")
    case _ => false
  }

  predicate Shown(t: Token, data: string, n: Node) {
    && 0 <= t.start <= t.end <= |data| && t.kind == n.kind && t.size == n.size
    && data[t.start..t.end] == n.text && '\\' !in n.text
  }

  ghost predicate AllShown(ts: seq<Token>, data: string, ns: seq<Node>) {
    |ts| == |ns| && forall k :: 0 <= k < |ts| ==> Shown(ts[k], data, ns[k])
  }

  /** Where the tokens begin. */
  function Starts(ts: seq<Token>): (ps: seq<int>)
    ensures |ps| == |ts| && forall k :: 0 <= k < |ts| ==> ps[k] == ts[k].start
  {
    seq(|ts|, k requires 0 <= k < |ts| => ts[k].start)
  }

  lemma ShownTail(ts: seq<Token>, data: string, ns: seq<Node>)
    requires AllShown(ts, data, ns) && ts != []
    ensures AllShown(ts[1..], data, ns[1..]) && Starts(ts[1..]) == Starts(ts)[1..]
  {
    hide Shown;
  }

  lemma OnePierced(t: Token, data: string, n: Node, x: nat)
    requires Shown(t, data, n) && x <= |data|
    ensures Shown(t, PutNul(data, x), Pierced(n, t.start, x))
  {
    var m, after := Pierced(n, t.start, x), PutNul(data, x);
    assert forall i :: 0 <= i < |m.text| ==> after[t.start..t.end][i] == m.text[i];
    assert after[t.start..t.end] == m.text;
  }

  lemma PierceShown(ts: seq<Token>, data: string, ns: seq<Node>, x: nat)
    requires AllShown(ts, data, ns) && x <= |data|
    ensures AllShown(ts, PutNul(data, x), Pierce(ns, Starts(ts), x))
  {
    hide Shown, Pierced, PutNul;
    forall k | 0 <= k < |ts|
      ensures Shown(ts[k], PutNul(data, x), Pierce(ns, Starts(ts), x)[k])
    {
      OnePierced(ts[k], data, ns[k], x);
    }
  }

  /** Reading one entry cuts the text as it cuts the nodes. */
  lemma CutAtShown(ts: seq<Token>, data: string, ns: seq<Node>, j: nat)
    requires AllShown(ts, data, ns) && j < |ts|
    ensures Shown(ts[j], data, ns[j])
    ensures AllShown(ts, CutEntry(data, ts[j], ns[j].text), CutAt(ns, Starts(ts), j))
  {
    hide AllShown, Pierce, CString, EqualsAt;
    Lengths(ts, data, ns);
    var t, u := ts[j], ns[j].text;
    ShownAt(ts, data, ns, j);
    assert Overwrite(data, t.start, u) == data;
    var ended := PutNul(data, t.end);
    PierceShown(ts, data, ns, t.end);
    var k := EqualsAt(CString(u));
    if k < |CString(u)| {
      assert PutNul(ended, t.end) == ended;
      PierceShown(ts, ended, Pierce(ns, Starts(ts), t.end), t.start + k);
    }
  }

  lemma ShownAt(ts: seq<Token>, data: string, ns: seq<Node>, j: nat)
    requires AllShown(ts, data, ns) && j < |ts|
    ensures |ns| == |ts| && Shown(ts[j], data, ns[j])
  {
  }

  lemma {:induction false} EnvShown(data: string, env: Env, toks: seq<Token>, i: nat, n: nat, un: string -> string,
                                    ts: seq<Token>, ns: seq<Node>)
    requires Fits(toks, |data|) && i + 1 + n < |toks| && Identity(un) && Shrinks(un)
    requires ts == toks[i..] && AllShown(ts, data, ns)
    ensures n + 2 <= |ns| == |ts|
    ensures var (d, e) := EnvAfter(data, env, toks, i + 1, n, un);
      var (c, f) := Cut(ns, Starts(ts), env, n);
      |d| == |data| && e == f && AllShown(ts, d, c)
    decreases n
  {
    hide CutEntry, AddEntry, CString, EnvAfter, Fits, Shrinks, CutAt, AllShown, Starts;
    Lengths(ts, data, ns);
    if n == 0 {
      EnvAfterStart(data, env, toks, i + 1, un);
    } else {
      EnvShown(data, env, toks, i, n - 1, un, ts, ns);
      EnvAfterStep(data, env, toks, i + 1, n, un);
      var d := EnvAfter(data, env, toks, i + 1, n - 1, un).0;
      var c := Cut(ns, Starts(ts), env, n - 1).0;
      CutAtShown(ts, d, c, n + 1);
      assert toks[i + 1 + n] == ts[n + 1];
    }
  }

  lemma Lengths(ts: seq<Token>, data: string, ns: seq<Node>)
    requires AllShown(ts, data, ns)
    ensures |ts| == |ns|
  {
  }

  lemma {:induction false} ArgsShown(data: string, toks: seq<Token>, t: nat, n: nat, un: string -> string,
                                     ts: seq<Token>, ns: seq<Node>)
    requires Fits(toks, |data|) && t + n < |toks| && Identity(un) && ts == toks[t + 1..] && AllShown(ts, data, ns)
    ensures ArgsAfter(data, toks, t, n, un) == Texts(ns, n)
    decreases n
  {
    hide CString, Fits, AllShown, Texts;
    Lengths(ts, data, ns);
    if n > 0 {
      ShownAt(ts, data, ns, n - 1);
      assert toks[t + n] == ts[n - 1];
      ArgsShown(data, toks, t, n - 1, un, ts, ns);
      TextsSnoc(ns, n);
    }
  }

  lemma TextsSnoc(ns: seq<Node>, n: nat)
    requires 0 < n <= |ns|
    ensures Texts(ns, n) == Texts(ns, n - 1) + [CString(ns[n - 1].text)]
  {
    hide CString;
  }

  /* ---- turns ---- */

  /** The tokens from `i` on show the nodes. */
  ghost predicate Shows(toks: seq<Token>, i: nat, data: string, ns: seq<Node>) {
    i <= |toks| && AllShown(toks[i..], data, ns)
  }

  /** What a turn sees of the tokens at `i` and after. */
  lemma Seen(toks: seq<Token>, i: nat, data: string, ns: seq<Node>, name: string)
    requires Fits(toks, |data|) && Shows(toks, i, data, ns) && ns != []
    ensures i < |toks| && 0 <= toks[i].start <= toks[i].end <= |data|
    ensures Named(data, toks[i], name) == Says(ns[0], name)
    ensures i + 1 < |toks| <==> |ns| > 1
    ensures |ns| > 1 ==>
              && Shown(toks[i + 1], data, ns[1]) && i + 1 + ns[1].size < |toks| && 2 + ns[1].size <= |ns|
              && AllShown(toks[i + 2..], data, ns[2..])
  {
    hide SameName;
    var ts := toks[i..];
    assert ts[0] == toks[i] && Shown(ts[0], data, ns[0]);
    if |ns| > 1 {
      assert ts[1] == toks[i + 1] && Shown(ts[1], data, ns[1]);
      assert forall k :: 0 <= k < |toks[i + 2..]| ==> toks[i + 2..][k] == ts[k + 2] && ns[2..][k] == ns[k + 2];
    }
  }

  lemma NextShown(toks: seq<Token>, i: nat, data: string, ns: seq<Node>)
    requires ns != [] && Shows(toks, i, data, ns)
    ensures Shows(toks, i + 1, data, ns[1..]) && Starts(toks[i..])[1..] == Starts(toks[i + 1..])
  {
    hide AllShown;
    Lengths(toks[i..], data, ns);
    ShownTail(toks[i..], data, ns);
    assert toks[i..][1..] == toks[i + 1..];
  }

  lemma VectorShown(data: string, toks: seq<Token>, i: nat, un: string -> string, ns: seq<Node>)
    requires Fits(toks, |data|) && Shows(toks, i, data, ns) && |ns| > 1 && Identity(un)
    ensures i + 1 < |toks| && ArgsOf(data, toks, i + 1, un) == VectorAt(ns[1..])
  {
    hide Fits, Identity, Texts, ArgsAfter, AllShown, Shows;
    Seen(toks, i, data, ns, "");
    assert ns[1..][1..] == ns[2..];
    ArgsShown(data, toks, i + 1, ns[1].size, un, toks[i + 2..], ns[2..]);
  }

  lemma TextShown(data: string, t: Token, un: string -> string, n: Node)
    requires Shown(t, data, n) && Identity(un)
    ensures TextOf(data, t, un) == TextAt(n)
  {
  }

  lemma EnvTurnShown(r: Reader, s: Reader, toks: seq<Token>, i: nat, un: string -> string, ns: seq<Node>)
    requires Fits(toks, |r.data|) && Shrinks(un) && Identity(un)
    requires ns != [] && Shows(toks, i, r.data, ns) && Like(Some(r), Some(s))
    ensures i < |toks| && |ns| == |toks[i..]|
    ensures var r' := VisitEnv(r, toks, i, un);
      var (s', cut) := MeetEnv(s, ns, Starts(toks[i..]));
      Like(Some(r'), Some(s')) && Shows(toks, i, r'.data, cut)
  {
    hide Fits, Identity, Shrinks, EnvAfter, Cut, AllShown, SameName, Starts;
    Seen(toks, i, r.data, ns, "Env");
    Lengths(toks[i..], r.data, ns);
    if !r.parsedEnv && Says(ns[0], "Env") && |ns| > 1 && ns[1].kind == Array {
      EnvShown(r.data, r.env, toks, i, ns[1].size, un, toks[i..], ns);
    }
  }

  lemma ArgsTurnShown(r: Reader, s: Reader, toks: seq<Token>, i: nat, un: string -> string, ns: seq<Node>, name: string)
    requires Fits(toks, |r.data|) && Identity(un) && ns != [] && Shows(toks, i, r.data, ns) && Like(Some(r), Some(s))
    ensures i < |toks| && Like(VisitArgs(r, toks, i, name, un), MeetArgs(s, ns, name))
  {
    hide Fits, Identity, ArgsOf, VectorAt, SameName, Shows, Shown, AllShown;
    Seen(toks, i, r.data, ns, name);
    if |ns| > 1 { VectorShown(r.data, toks, i, un, ns); }
  }

  lemma EntryTurnShown(r: Reader, s: Reader, toks: seq<Token>, i: nat, un: string -> string, ns: seq<Node>)
    requires Fits(toks, |r.data|) && Identity(un) && ns != [] && Shows(toks, i, r.data, ns) && Like(Some(r), Some(s))
    ensures i < |toks| && Like(VisitEntry(r, toks, i, un), MeetEntry(s, ns))
  {
    hide Fits, Identity, ArgsOf, VectorAt, SameName, Shows, Shown, AllShown;
    Seen(toks, i, r.data, ns, "Entrypoint");
    if |ns| > 1 { VectorShown(r.data, toks, i, un, ns); }
  }

  lemma DirTurnShown(r: Reader, s: Reader, toks: seq<Token>, i: nat, un: string -> string, ns: seq<Node>, name: string)
    requires Fits(toks, |r.data|) && Identity(un) && ns != [] && Shows(toks, i, r.data, ns) && Like(Some(r), Some(s))
    ensures i < |toks| && Like(Some(VisitDir(r, toks, i, name, un)), Some(MeetDir(s, ns, name)))
  {
    hide Fits, Identity, SameName, Shows, AllShown, TextOf, TextAt;
    Seen(toks, i, r.data, ns, name);
    if |ns| > 1 { TextShown(r.data, toks[i + 1], un, ns[1]); }
  }

  /** One turn of the walk meets one node. */
  lemma VisitShown(r: Reader, s: Reader, toks: seq<Token>, i: nat, un: string -> string, ns: seq<Node>)
    requires Fits(toks, |r.data|) && Shrinks(un) && Identity(un)
    requires ns != [] && Shows(toks, i, r.data, ns) && Like(Some(r), Some(s))
    ensures i < |toks| && |ns| == |toks[i..]| && Like(Visit(r, toks, i, un), Meet(s, ns, Starts(toks[i..])))
    ensures var r' := Visit(r, toks, i, un);
      r'.Some? ==> Shows(toks, i + 1, r'.value.data, Beyond(s, ns, Starts(toks[i..])))
  {
    hide Fits, Identity, Shrinks, Shows, VisitEnv, VisitArgs, VisitDir, VisitEntry, SameName;
    hide MeetEnv, MeetArgs, MeetDir, MeetEntry, Starts;
    EnvTurnShown(r, s, toks, i, un, ns);
    var r0, s0 := VisitEnv(r, toks, i, un), MeetEnv(s, ns, Starts(toks[i..])).0;
    var cut := MeetEnv(s, ns, Starts(toks[i..])).1;
    NextShown(toks, i, r0.data, cut);
    ArgsTurnShown(r0, s0, toks, i, un, cut, "args");
    if MeetArgs(s0, cut, "args").Some? {
      var r1, s1 := VisitArgs(r0, toks, i, "args", un).value, MeetArgs(s0, cut, "args").value;
      ArgsTurnShown(r1, s1, toks, i, un, cut, "Cmd");
      if MeetArgs(s1, cut, "Cmd").Some? {
        var r2, s2 := VisitArgs(r1, toks, i, "Cmd", un).value, MeetArgs(s1, cut, "Cmd").value;
        DirTurnShown(r2, s2, toks, i, un, cut, "WorkingDir");
        var r3, s3 := VisitDir(r2, toks, i, "WorkingDir", un), MeetDir(s2, cut, "WorkingDir");
        DirTurnShown(r3, s3, toks, i, un, cut, "Cwd");
        EntryTurnShown(VisitDir(r3, toks, i, "Cwd", un), MeetDir(s3, cut, "Cwd"), toks, i, un, cut);
      }
    }
  }

  /** Walking the tokens is walking the nodes they show. */
  lemma {:induction false} WalkShown(r: Reader, s: Reader, toks: seq<Token>, i: nat, un: string -> string,
                                     ns: seq<Node>)
    requires Fits(toks, |r.data|) && Shrinks(un) && Identity(un)
    requires Shows(toks, i, r.data, ns) && Like(Some(r), Some(s))
    ensures i <= |toks| && |ns| == |toks[i..]| && Like(Walk(r, toks, i, un), WalkNodes(s, ns, Starts(toks[i..])))
    decreases |ns|
  {
    hide Fits, Shrinks, Identity, Visit, Meet, Beyond, AllShown, Starts;
    Lengths(toks[i..], r.data, ns);
    if ns != [] && !AllParsed(s) {
      VisitShown(r, s, toks, i, un, ns);
      NextShown(toks, i, r.data, ns);
      if Meet(s, ns, Starts(toks[i..])).Some? {
        WalkShown(Visit(r, toks, i, un).value, Meet(s, ns, Starts(toks[i..])).value, toks, i + 1, un,
                  Beyond(s, ns, Starts(toks[i..])));
      }
    }
  }
}
