/** When cutting the environment apart spares what is looked for: the strings
    looked at lie outside the array that is read, or its entries have no children. */
module ConfigSpared {
  import opened Options
  import opened JsonLexing
  import opened ConfigReader
  import opened ConfigNodes
  import opened ConfigFinds

  /** Nodes as a text lays them out: they begin one after the other; a string, and
      any node without children, ends before the next begins; and the children of
      an array that follow it directly end before it does. */
  ghost predicate Laid(ns: seq<Node>, ps: seq<int>)
    requires |ns| == |ps|
  {
    && (forall j, k :: 0 <= j < k < |ns| ==> ps[j] < ps[k])
    && (forall j, k :: 0 <= j < k < |ns| && (ns[j].kind == String || ns[j].size == 0) ==> EndAt(ns, ps, j) < ps[k])
    && (forall j, k :: 0 <= j < k < |ns| && k <= j + ns[j].size && ns[j].kind == Array ==>
                         EndAt(ns, ps, k) < EndAt(ns, ps, j))
  }

  lemma LaidTail(ns: seq<Node>, ps: seq<int>)
    requires |ns| == |ps| && Laid(ns, ps) && ns != []
    ensures Laid(ns[1..], ps[1..])
  {
    var ms, qs := ns[1..], ps[1..];
    assert forall k :: 0 <= k < |ms| ==> ms[k] == ns[k + 1] && qs[k] == ps[k + 1];
    assert forall k :: 0 <= k < |ms| ==> EndAt(ms, qs, k) == EndAt(ns, ps, k + 1);
    forall j, k | 0 <= j < k < |ms|
      ensures qs[j] < qs[k]
      ensures (ms[j].kind == String || ms[j].size == 0) ==> EndAt(ms, qs, j) < qs[k]
      ensures k <= j + ms[j].size && ms[j].kind == Array ==> EndAt(ms, qs, k) < EndAt(ms, qs, j)
    {
      assert ps[j + 1] < ps[k + 1];
      assert EndAt(ms, qs, k) == EndAt(ns, ps, k + 1);
    }
  }

  /* ---- strings outside the array ---- */

  /** The first string with the name comes before the environment that is read, or
      begins where its array has ended. */
  predicate Clear(ns: seq<Node>, ps: seq<int>, name: Name)
    requires |ns| == |ps|
  {
    var at, hit := Find(ns, IsEnv, true), Find(ns, name, false);
    at.Some? && hit.Some? && |hit.value| < |at.value| ==>
      EndAt(ns, ps, |ns| - |at.value| + 1) <= ps[|ns| - |hit.value|]
  }

  /** No string inside the array has the name: then the first one that has is outside. */
  predicate Unsaid(ns: seq<Node>, ps: seq<int>, name: Name)
    requires |ns| == |ps|
  {
    var at := Find(ns, IsEnv, true);
    at.Some? ==>
      var a := |ns| - |at.value| + 1;
      forall k :: a < k < |ns| && ps[k] < EndAt(ns, ps, a) ==> !Called(ns[k], name)
  }

  lemma UnsaidIsClear(ns: seq<Node>, ps: seq<int>, name: Name)
    requires |ns| == |ps| && Unsaid(ns, ps, name)
    ensures Clear(ns, ps, name)
  {
    hide IsEnv, Find;
    FindIsSuffix(ns, IsEnv, true);
    FindIsSuffix(ns, name, false);
    var at, hit := Find(ns, IsEnv, true), Find(ns, name, false);
    if at.Some? && hit.Some? && |hit.value| < |at.value| {
      var e, h := |ns| - |at.value|, |ns| - |hit.value|;
      assert at.value[1] == ns[e + 1] && hit.value[0] == ns[h];
    }
  }

  /** A cut before `m` leaves the nodes from `m` on alone. */
  lemma CutAtKeeps(ns: seq<Node>, ps: seq<int>, j: nat, m: nat)
    requires j < |ns| == |ps| && m <= |ns| && forall k :: m <= k < |ns| ==> EndAt(ns, ps, j) < ps[k]
    ensures CutAt(ns, ps, j)[m..] == ns[m..]
  {
    hide EqualsAt;
    var s := CString(ns[j].text);
    var ended := Pierce(ns, ps, EndAt(ns, ps, j));
    assert forall k :: m <= k < |ns| ==> ended[k] == ns[k];
    var x := ps[j] + EqualsAt(s);
    assert EqualsAt(s) <= |s|;
    assert forall k :: m <= k < |ns| ==> Pierce(ended, ps, x)[k] == ns[k];
  }

  lemma {:induction false} CutKeeps(ns: seq<Node>, ps: seq<int>, env: Env, n: nat, m: nat)
    requires n + 2 <= |ns| == |ps| && m <= |ns|
    requires forall j, k :: 2 <= j < n + 2 && m <= k < |ns| ==> EndAt(ns, ps, j) < ps[k]
    ensures Cut(ns, ps, env, n).0[m..] == ns[m..]
  {
    hide CutAt, AddEntry, CString;
    if n > 0 {
      CutKeeps(ns, ps, env, n - 1, m);
      var cut := Cut(ns, ps, env, n - 1).0;
      CutHoles(ns, ps, env, n - 1);
      assert EndAt(cut, ps, n + 1) == EndAt(ns, ps, n + 1);
      CutAtKeeps(cut, ps, n + 1, m);
    }
  }

  /** Holes before `m` hide nothing that is found from `m` on, and show nothing new. */
  lemma {:induction false} HoledFinds(cut: seq<Node>, ns: seq<Node>, m: nat, name: Name)
    requires Holed(cut, ns) && m <= |ns| && cut[m..] == ns[m..] && Proper(name)
    requires Find(ns, name, false).Some? ==> |Find(ns, name, false).value| <= |ns| - m
    ensures Find(cut, name, false) == Find(ns, name, false)
    decreases |ns|
  {
    hide Proper;
    if m == 0 {
      assert cut == cut[0..] == ns[0..] == ns;
    } else {
      HoledAt(cut, ns, 0);
      if Called(cut[0], name) { HoledCalled(cut[0], ns[0], name); }
      assert cut[1..][m - 1..] == cut[m..] && ns[1..][m - 1..] == ns[m..];
      HoledFinds(cut[1..], ns[1..], m - 1, name);
    }
  }

  lemma {:induction false} MeetsDone(ns: seq<Node>, ps: seq<int>, name: Name)
    requires |ns| == |ps|
    ensures Meets(ns, ps, name, true) == Find(ns, name, false)
  {
    hide Called, IsEnv;
    if ns != [] { MeetsDone(ns[1..], ps[1..], name); }
  }

  /** Where the first hit is, or the end. */
  function HitAt(ns: seq<Node>, name: Name): (m: nat)
    ensures m <= |ns|
  {
    match Find(ns, name, false)
    case None => |ns|
    case Some(at) => |ns| - |at|
  }

  /** The entries of an environment end before the first hit, if that is clear of it. */
  lemma EntriesBefore(ns: seq<Node>, ps: seq<int>, name: Name)
    requires |ns| == |ps| && Laid(ns, ps) && Hit(ns, IsEnv, true) && !Hit(ns, name, false) && Clear(ns, ps, name)
    ensures HitAt(ns, name) > 0
    ensures forall j, k :: 2 <= j < Entries(ns) + 2 && HitAt(ns, name) <= k < |ns| ==> EndAt(ns, ps, j) < ps[k]
  {
    hide Called, IsEnv;
    FindUnfold(ns, IsEnv, true);
    FindUnfold(ns, name, false);
    hide Find;
    var m := HitAt(ns, name);
    forall j, k | 2 <= j < Entries(ns) + 2 && m <= k < |ns| ensures EndAt(ns, ps, j) < ps[k] {
      assert EndAt(ns, ps, j) < EndAt(ns, ps, 1);
      assert k == m || ps[m] < ps[k];
    }
  }

  lemma ClearCut(ns: seq<Node>, ps: seq<int>, name: Name)
    requires |ns| == |ps| && Laid(ns, ps) && Hit(ns, IsEnv, true) && !Hit(ns, name, false) && Clear(ns, ps, name)
    requires Proper(name)
    ensures Find(Cleared(ns, ps)[1..], name, false) == Find(ns, name, false)
  {
    hide Proper, Cut, Holed, Hit, Find, Laid, Clear;
    HitMeans(ns);
    var m, n, cut := HitAt(ns, name), Entries(ns), Cleared(ns, ps);
    EntriesBefore(ns, ps, name);
    CutKeeps(ns, ps, map[], n, m);
    CutHoles(ns, ps, map[], n);
    HoledTail(cut, ns);
    FindUnfold(ns, name, false);
    assert cut[1..][m - 1..] == cut[m..] && ns[1..][m - 1..] == ns[m..];
    HoledFinds(cut[1..], ns[1..], m - 1, name);
  }

  lemma HoledTail(ns: seq<Node>, was: seq<Node>)
    requires Holed(ns, was) && ns != []
    ensures Holed(ns[1..], was[1..])
  {
  }

  /** What is outside is met as it was. */
  lemma {:induction false} ClearMeets(ns: seq<Node>, ps: seq<int>, name: Name)
    requires |ns| == |ps| && Laid(ns, ps) && Clear(ns, ps, name) && Proper(name)
    ensures Meets(ns, ps, name, false) == Find(ns, name, false)
    decreases |ns|
  {
    hide Laid, Called, IsEnv, Proper, Cleared;
    if ns != [] && !Hit(ns, name, false) {
      if Hit(ns, IsEnv, true) {
        ClearCut(ns, ps, name);
        MeetsDone(Cleared(ns, ps)[1..], ps[1..], name);
      } else {
        LaidTail(ns, ps);
        ClearTail(ns, ps, name);
        ClearMeets(ns[1..], ps[1..], name);
      }
    }
  }

  lemma ClearTail(ns: seq<Node>, ps: seq<int>, name: Name)
    requires |ns| == |ps| && ns != [] && Clear(ns, ps, name)
    requires !Hit(ns, IsEnv, true) && !Hit(ns, name, false)
    ensures Clear(ns[1..], ps[1..], name)
  {
    hide Called, IsEnv;
  }

  /* ---- entries without children ---- */

  predicate NoChildren(ns: seq<Node>, n: nat) {
    forall j :: 0 <= j < n && j < |ns| ==> ns[j].size == 0
  }

  /** The entries of the environment that is read, if any, have no children. */
  predicate Gentle(ns: seq<Node>) {
    match Find(ns, IsEnv, true)
    case None => true
    case Some(at) => NoChildren(at[2..], at[1].size)
  }

  /** What is left of an entry that has been cut at its first `=`. */
  function CutText(s: string): (r: string)
    ensures |r| == |s| && (r == s || '\0' in r) && ('=' !in s ==> r == s)
  {
    var k := EqualsAt(CString(s));
    if k == |CString(s)| then s else assert s[k := '\0'][k] == '\0'; s[k := '\0']
  }

  function CutFirst(ns: seq<Node>, n: nat): (r: seq<Node>)
    ensures |r| == |ns|
    ensures forall i :: 0 <= i < |ns| ==> r[i] == if i < n then ns[i].(text := CutText(ns[i].text)) else ns[i]
  {
    seq(|ns|, i requires 0 <= i < |ns| => if i < n then ns[i].(text := CutText(ns[i].text)) else ns[i])
  }

  /** An entry without children is cut alone. */
  lemma LoneCut(cut: seq<Node>, ns: seq<Node>, ps: seq<int>, n: nat)
    requires |ns| == |ps| && Laid(ns, ps) && 0 < n && n + 2 <= |ns| && NoChildren(ns[2..], n)
    requires |cut| == |ns| && cut[2..] == CutFirst(ns[2..], n - 1)
    ensures cut[n + 1] == ns[n + 1] && CutAt(cut, ps, n + 1)[2..] == CutFirst(ns[2..], n)
  {
    hide CutText, CutAt, Laid, NoChildren;
    var j := n + 1;
    assert forall k :: 2 <= k < |ns| ==> cut[k] == cut[2..][k - 2] && ns[k] == ns[2..][k - 2];
    var after := CutAt(cut, ps, j);
    forall k | 2 <= k < |ns|
      ensures after[k] == CutFirst(ns[2..], n)[k - 2]
    {
      if k == j {
        OwnCut(cut, ps, j);
      } else {
        EntriesApart(ns, ps, n, k);
        assert |cut[k].text| == |ns[k].text|;
        Passed(cut, ps, j, k);
      }
    }
  }

  lemma EntriesApart(ns: seq<Node>, ps: seq<int>, n: nat, k: nat)
    requires |ns| == |ps| && Laid(ns, ps) && 0 < n && n + 2 <= |ns| && NoChildren(ns[2..], n)
    requires 2 <= k < |ns| && k != n + 1
    ensures EndAt(ns, ps, k) < ps[n + 1] || EndAt(ns, ps, n + 1) < ps[k]
  {
    assert ns[2..][n - 1] == ns[n + 1];
    if k < n + 1 { assert ns[2..][k - 2] == ns[k]; }
  }

  lemma Passed(ns: seq<Node>, ps: seq<int>, j: nat, k: nat)
    requires j < |ns| == |ps| && k < |ns| && j != k && (EndAt(ns, ps, k) < ps[j] || EndAt(ns, ps, j) < ps[k])
    ensures CutAt(ns, ps, j)[k] == ns[k]
  {
    hide EqualsAt;
    assert EqualsAt(CString(ns[j].text)) <= |ns[j].text|;
  }

  lemma OwnCut(ns: seq<Node>, ps: seq<int>, j: nat)
    requires j < |ns| == |ps|
    ensures CutAt(ns, ps, j)[j] == ns[j].(text := CutText(ns[j].text))
  {
    hide EqualsAt;
    assert EqualsAt(CString(ns[j].text)) <= |ns[j].text|;
  }

  lemma {:induction false} GentleCut(ns: seq<Node>, ps: seq<int>, env: Env, n: nat)
    requires |ns| == |ps| && Laid(ns, ps) && n + 2 <= |ns| && NoChildren(ns[2..], n)
    ensures Cut(ns, ps, env, n).0[2..] == CutFirst(ns[2..], n)
    ensures Cut(ns, ps, env, n).1 == AddEntries(env, Texts(ns[2..], n))
  {
    hide Laid, CutAt, AddEntry, CString, CutText, AddEntries;
    EntriesSnoc(env, [], "");
    if n == 0 {
      assert CutFirst(ns[2..], 0) == ns[2..];
    } else {
      GentleCut(ns, ps, env, n - 1);
      LoneCut(Cut(ns, ps, env, n - 1).0, ns, ps, n);
      TextsSnoc(ns[2..], n);
      EntriesSnoc(env, Texts(ns[2..], n - 1), CString(ns[n + 1].text));
    }
  }

  lemma EntriesSnoc(env: Env, entries: seq<string>, entry: string)
    ensures AddEntries(env, entries + [entry]) == AddEntry(AddEntries(env, entries), entry)
    ensures AddEntries(env, []) == env
  {
    hide AddEntry;
    assert (entries + [entry])[..|entries|] == entries;
  }

  /** A name has no `=` either. */
  ghost predicate Plainly(name: Name) {
    Proper(name) && forall s :: name(s) ==> '=' !in s
  }

  lemma NamesArePlain()
    ensures Plainly(IsArgs) && Plainly(IsEntry) && Plainly(IsDir)
  {
  }

  lemma SameCalled(n: Node, name: Name)
    requires Plainly(name)
    ensures Called(n.(text := CutText(n.text)), name) == Called(n, name)
    ensures Called(n, name) ==> CutText(n.text) == n.text
  {
    hide CutText;
  }

  lemma FindUnfold(ns: seq<Node>, name: Name, arrays: bool)
    requires ns != []
    ensures Find(ns, name, arrays) == if Hit(ns, name, arrays) then Some(ns) else Find(ns[1..], name, arrays)
  {
  }

  lemma NullVector(ns: seq<Node>)
    requires ns != [] && ns[0].size == 0
    ensures VectorAt(ns) == Some(None)
  {
  }

  lemma CutTail(ns: seq<Node>, n: nat, name: Name)
    requires ns != [] && n > 0 && NoChildren(ns, n) && Plainly(name)
    ensures CutFirst(ns, n)[1..] == CutFirst(ns[1..], n - 1) && NoChildren(ns[1..], n - 1)
    ensures Hit(CutFirst(ns, n), name, false) == Hit(ns, name, false)
  {
    hide Called, CutText, Plainly;
    SameCalled(ns[0], name);
  }

  lemma CutNext(ns: seq<Node>, n: nat, name: Name)
    requires n > 0 && NoChildren(ns, n) && Hit(ns, name, false)
    ensures |ns| > 1 && VectorAt(CutFirst(ns, n)[1..]) == VectorAt(ns[1..])
  {
    hide Called, CutText, VectorAt;
    if n == 1 {
      assert CutFirst(ns, n)[1..] == ns[1..];
    } else {
      NullVector(ns[1..]);
      NullVector(CutFirst(ns, n)[1..]);
    }
  }

  /** A vector after a cut entry is that of another entry, and so NULL, or of a
      node that was not cut. */
  lemma {:induction false} CutSparesVector(ns: seq<Node>, n: nat, name: Name)
    requires NoChildren(ns, n) && Plainly(name)
    ensures VectorFrom(Find(CutFirst(ns, n), name, false)) == VectorFrom(Find(ns, name, false))
    decreases |ns|
  {
    hide Hit, CutFirst, CutText, Plainly, Find, VectorAt, NoChildren;
    var cut := CutFirst(ns, n);
    if ns == [] || n == 0 {
      assert cut == ns;
    } else {
      FindUnfold(ns, name, false);
      FindUnfold(cut, name, false);
      CutTail(ns, n, name);
      if Hit(ns, name, false) {
        CutNext(ns, n, name);
      } else {
        CutSparesVector(ns[1..], n - 1, name);
      }
    }
  }

  /** The first string with the name is a key: only a key is a string with a child. */
  predicate KeyFirst(ns: seq<Node>, name: Name, arrays: bool) {
    var at := Find(ns, name, arrays);
    at.Some? ==> at.value[0].size > 0
  }

  /** And from a key on nothing is cut. */
  lemma {:induction false} CutSparesKey(ns: seq<Node>, n: nat, name: Name)
    requires NoChildren(ns, n) && KeyFirst(ns, name, false) && Plainly(name)
    ensures Find(CutFirst(ns, n), name, false) == Find(ns, name, false)
    decreases |ns|
  {
    hide Called, CutText, Plainly, CutFirst;
    var cut := CutFirst(ns, n);
    if ns == [] || n == 0 {
      assert cut == ns;
    } else {
      CutTail(ns, n, name);
      assert !Hit(ns, name, false) && !Hit(cut, name, false);
      CutSparesKey(ns[1..], n - 1, name);
    }
  }

  lemma ArrayPassed(ns: seq<Node>, name: Name)
    requires ns != [] && ns[0].kind == Array
    ensures Find(ns, name, false) == Find(ns[1..], name, false)
  {
  }

  /** The nodes after a gentle environment. */
  lemma GentleCleared(ns: seq<Node>, ps: seq<int>, name: Name)
    requires |ns| == |ps| && Laid(ns, ps) && Hit(ns, IsEnv, true) && NoChildren(ns[2..], ns[1].size)
    ensures Find(Cleared(ns, ps)[1..], name, false) == Find(CutFirst(ns[2..], Entries(ns)), name, false)
    ensures !Hit(ns, name, false) ==> Find(ns, name, false) == Find(ns[2..], name, false)
    ensures NoChildren(ns[2..], Entries(ns))
  {
    hide Cut, Laid, Called, Find, IsEnv, Holed;
    var cut, n := Cleared(ns, ps), Entries(ns);
    GentleCut(ns, ps, map[], n);
    CutHoles(ns, ps, map[], n);
    SameKind(cut, ns, 1);
    FindUnfold(ns, name, false);
    ArrayPassed(ns[1..], name);
    ArrayPassed(cut[1..], name);
    assert cut[1..][1..] == cut[2..] && ns[1..][1..] == ns[2..];
  }

  lemma SameKind(cut: seq<Node>, ns: seq<Node>, k: nat)
    requires Holed(cut, ns) && k < |ns|
    ensures cut[k].kind == ns[k].kind
  {
  }

  lemma GentleTail(ns: seq<Node>)
    requires ns != [] && Gentle(ns)
    ensures if Hit(ns, IsEnv, true) then NoChildren(ns[2..], ns[1].size) else Gentle(ns[1..])
  {
    hide Called, IsEnv, NoChildren;
  }

  lemma MeetsUnfold(ns: seq<Node>, ps: seq<int>, name: Name)
    requires |ns| == |ps| && ns != []
    ensures Meets(ns, ps, name, false) ==
            if Hit(ns, name, false) then Some(ns)
            else if Hit(ns, IsEnv, true) then Find(Cleared(ns, ps)[1..], name, false)
            else Meets(ns[1..], ps[1..], name, false)
  {
    hide Called, IsEnv, Cleared;
    if Hit(ns, IsEnv, true) { MeetsDone(Cleared(ns, ps)[1..], ps[1..], name); }
  }

  lemma {:induction false} GentleVector(ns: seq<Node>, ps: seq<int>, name: Name)
    requires |ns| == |ps| && Laid(ns, ps) && Gentle(ns) && Plainly(name)
    ensures VectorFrom(Meets(ns, ps, name, false)) == VectorFrom(Find(ns, name, false))
    decreases |ns|
  {
    hide Laid, Hit, Plainly, Cleared, NoChildren, VectorAt, Gentle, Find, Meets, VectorFrom;
    if ns == [] {
      NothingMet(ps, name);
    } else {
      FindUnfold(ns, name, false);
      MeetsUnfold(ns, ps, name);
      GentleTail(ns);
      if !Hit(ns, name, false) {
        if Hit(ns, IsEnv, true) {
          HitMeans(ns);
          GentleCleared(ns, ps, name);
          CutSparesVector(ns[2..], Entries(ns), name);
        } else {
          LaidTail(ns, ps);
          GentleVector(ns[1..], ps[1..], name);
        }
      }
    }
  }

  lemma HitMeans(ns: seq<Node>)
    requires Hit(ns, IsEnv, true)
    ensures |ns| > 1
  {
  }

  lemma NothingMet(ps: seq<int>, name: Name)
    requires |ps| == 0
    ensures Meets([], ps, name, false) == None && Find([], name, false) == None
  {
  }

  lemma {:induction false} GentleKey(ns: seq<Node>, ps: seq<int>, name: Name)
    requires |ns| == |ps| && Laid(ns, ps) && Gentle(ns) && Plainly(name) && KeyFirst(ns, name, false)
    ensures Meets(ns, ps, name, false) == Find(ns, name, false)
    decreases |ns|
  {
    hide Laid, Hit, Plainly, Cleared, NoChildren, Gentle, Find, Meets;
    if ns == [] {
      NothingMet(ps, name);
    } else {
      FindUnfold(ns, name, false);
      MeetsUnfold(ns, ps, name);
      GentleTail(ns);
      if !Hit(ns, name, false) {
        if Hit(ns, IsEnv, true) {
          HitMeans(ns);
          GentleCleared(ns, ps, name);
          CutSparesKey(ns[2..], Entries(ns), name);
        } else {
          LaidTail(ns, ps);
          GentleKey(ns[1..], ps[1..], name);
        }
      }
    }
  }

  function FoundEnv(ns: seq<Node>): seq<string> {
    match Find(ns, IsEnv, true)
    case None => []
    case Some(at) => Texts(at[2..], at[1].size)
  }

  /** A gentle environment is what its entries say, one after the other. */
  lemma {:induction false} GentleEnv(ns: seq<Node>, ps: seq<int>, env: Env)
    requires |ns| == |ps| && Laid(ns, ps) && Gentle(ns)
    ensures EnvFrom(ns, ps, env) == AddEntries(env, FoundEnv(ns))
    decreases |ns|
  {
    hide Laid, Hit, NoChildren, Cut, AddEntries, Texts, EnvFrom, Find, Gentle;
    if ns == [] {
      EntriesSnoc(env, [], "");
      NothingMet(ps, IsEnv);
      NoEnv(ps, env);
    } else {
      FindUnfold(ns, IsEnv, true);
      EnvUnfold(ns, ps, env);
      GentleTail(ns);
      if Hit(ns, IsEnv, true) {
        HitMeans(ns);
        GentleCleared(ns, ps, IsEnv);
        GentleCut(ns, ps, env, Entries(ns));
        assert Texts(ns[2..], Entries(ns)) == Texts(ns[2..], ns[1].size);
      } else {
        LaidTail(ns, ps);
        GentleEnv(ns[1..], ps[1..], env);
      }
    }
  }

  lemma NoEnv(ps: seq<int>, env: Env)
    requires |ps| == 0
    ensures EnvFrom([], ps, env) == env && FoundEnv([]) == []
  {
  }

  /* ---- both ---- */

  predicate Spared(ns: seq<Node>, ps: seq<int>, name: Name)
    requires |ns| == |ps|
  {
    Gentle(ns) || Clear(ns, ps, name)
  }

  lemma SparedVector(ns: seq<Node>, ps: seq<int>, name: Name)
    requires |ns| == |ps| && Laid(ns, ps) && Spared(ns, ps, name) && Plainly(name)
    ensures VectorFrom(Meets(ns, ps, name, false)) == VectorFrom(Find(ns, name, false))
  {
    hide Laid, Gentle, Clear, Meets;
    if Gentle(ns) { GentleVector(ns, ps, name); } else { ClearMeets(ns, ps, name); }
  }

  lemma SparedKey(ns: seq<Node>, ps: seq<int>, name: Name)
    requires |ns| == |ps| && Laid(ns, ps) && Spared(ns, ps, name) && Plainly(name) && KeyFirst(ns, name, false)
    ensures Meets(ns, ps, name, false) == Find(ns, name, false)
  {
    hide Laid, Gentle, Clear, Meets, KeyFirst;
    if Gentle(ns) { GentleKey(ns, ps, name); } else { ClearMeets(ns, ps, name); }
  }
}
