/** What the guest is given for a configuration file, said from the JSON tree and
    the names and numbers of the file format alone. */
module ConfigOutcome {
  import opened Options
  import opened JsonLexing
  import opened JsonMachine
  import opened JsonRoundTrip
  import opened ConfigReader
  import opened ConfigNodes
  import opened ConfigMeaning
  import opened ConfigParse
  import opened ConfigCommand
  import opened ConfigEnv

  /* ---- the first member with one of some names ---- */

  predicate Called(s: string, names: seq<string>) {
    exists k :: 0 <= k < |names| && SameWord(s, names[k])
  }

  function First(v: Value, names: seq<string>, lists: bool): Option<Value> {
    match v
    case Text(_) => None
    case Word(_) => None
    case List(_, items) => FirstItem(items, names, lists)
    case Record(_, members) => FirstMember(members, names, lists)
  }

  function FirstItem(xs: Items, names: seq<string>, lists: bool): Option<Value> {
    if xs.NoItems? then None
    else if First(xs.value, names, lists).Some? then First(xs.value, names, lists)
    else FirstItem(xs.rest, names, lists)
  }

  /** In document order, a member before the members of its own value; if only
      lists will do, others are passed over. */
  function FirstMember(xs: Members, names: seq<string>, lists: bool): Option<Value> {
    if xs.NoMembers? then None
    else if Called(xs.key, names) && (lists ==> xs.value.List?) then Some(xs.value)
    else if First(xs.value, names, lists).Some? then First(xs.value, names, lists)
    else FirstMember(xs.rest, names, lists)
  }

  ghost predicate Means(name: Name, names: seq<string>) {
    forall s :: name(s) <==> Called(s, names)
  }

  lemma {:induction false} FirstIsLookup(v: Value, name: Name, names: seq<string>, lists: bool)
    requires Means(name, names)
    ensures First(v, names, lists) == Lookup(v, name, lists)
    decreases v
  {
    hide Called;
    match v
    case List(_, items) => FirstItemIsLookup(items, name, names, lists);
    case Record(_, members) => FirstMemberIsLookup(members, name, names, lists);
    case _ =>
  }

  lemma {:induction false} FirstItemIsLookup(xs: Items, name: Name, names: seq<string>, lists: bool)
    requires Means(name, names)
    ensures FirstItem(xs, names, lists) == LookupItems(xs, name, lists)
    decreases xs
  {
    hide Called, Means;
    if xs.Item? {
      FirstIsLookup(xs.value, name, names, lists);
      FirstItemIsLookup(xs.rest, name, names, lists);
    }
  }

  lemma {:induction false} FirstMemberIsLookup(xs: Members, name: Name, names: seq<string>, lists: bool)
    requires Means(name, names)
    ensures FirstMember(xs, names, lists) == LookupMembers(xs, name, lists)
    decreases xs
  {
    hide Called;
    if xs.Member? {
      FirstIsLookup(xs.value, name, names, lists);
      FirstMemberIsLookup(xs.rest, name, names, lists);
    }
  }

  lemma CalledOne(s: string, a: string)
    ensures Called(s, [a]) <==> SameName(s, a)
  {
    hide SameName, SameWord;
    NamesIgnoreCase(s, a);
    if SameWord(s, a) { assert SameWord(s, [a][0]); }
  }

  lemma CalledEither(s: string, a: string, b: string)
    ensures Called(s, [a, b]) <==> SameName(s, a) || SameName(s, b)
  {
    hide SameName, SameWord;
    NamesIgnoreCase(s, a);
    NamesIgnoreCase(s, b);
    if SameWord(s, a) { assert SameWord(s, [a, b][0]); }
    if SameWord(s, b) { assert SameWord(s, [a, b][1]); }
  }

  lemma NamesMean()
    ensures Means(IsArgs, ["args", "Cmd"]) && Means(IsDir, ["WorkingDir", "Cwd"])
    ensures Means(IsEntry, ["Entrypoint"]) && Means(IsEnv, ["Env"])
  {
    hide Called, SameName;
    forall s: string ensures IsArgs(s) <==> Called(s, ["args", "Cmd"]) { CalledEither(s, "args", "Cmd"); }
    forall s: string ensures IsDir(s) <==> Called(s, ["WorkingDir", "Cwd"]) { CalledEither(s, "WorkingDir", "Cwd"); }
    forall s: string ensures IsEntry(s) <==> Called(s, ["Entrypoint"]) { CalledOne(s, "Entrypoint"); }
    forall s: string ensures IsEnv(s) <==> Called(s, ["Env"]) { CalledOne(s, "Env"); }
  }

  /* ---- the strings a value stands for ---- */

  /** The value and all that is inside it, from left to right. */
  function Flat(v: Value): (r: seq<string>)
    ensures r != [] && r[0] == if v.Text? then v.body else Render(v)
  {
    match v
    case Text(body) => [body]
    case Word(chars) => [chars]
    case List(_, items) => [Render(v)] + FlatItems(items)
    case Record(_, members) => [Render(v)] + FlatMembers(members)
  }

  function FlatItems(xs: Items): seq<string> {
    if xs.NoItems? then [] else Flat(xs.value) + FlatItems(xs.rest)
  }

  function FlatMembers(xs: Members): seq<string> {
    if xs.NoMembers? then [] else [xs.key] + Flat(xs.value) + FlatMembers(xs.rest)
  }

  function Children(v: Value): nat {
    match v
    case List(_, items) => ItemCount(items)
    case Record(_, members) => MemberCount(members)
    case _ => 0
  }

  ghost predicate Same(ns: seq<Node>, texts: seq<string>) {
    |ns| == |texts| && forall k :: 0 <= k < |ns| ==> ns[k].text == texts[k] && '\0' !in texts[k]
  }

  lemma SameTwo(ns: seq<Node>, ts: seq<string>, ns': seq<Node>, ts': seq<string>)
    requires Same(ns, ts) && Same(ns', ts')
    ensures Same(ns + ns', ts + ts')
  {
  }

  lemma {:induction false} FlatIsNodes(v: Value)
    requires WellFormed(v)
    ensures Same(NodesOf(v), Flat(v)) && NodesOf(v)[0].size == Children(v)
    decreases v, 1
  {
    hide Same, Render, NodesOfItems, NodesOfMembers, FlatItems, FlatMembers;
    NoNul(v);
    match v
    case Text(body) =>
      NoNulInBody(body);
      SameOne(NodesOf(v)[0], body);
    case Word(chars) =>
      WordRender(v);
      SameOne(NodesOf(v)[0], chars);
    case List(_, items) =>
      FlatItemsAreNodes(items);
      SameOne(NodesOf(v)[0], Render(v));
      SameTwo([NodesOf(v)[0]], [Render(v)], NodesOfItems(items), FlatItems(items));
    case Record(_, members) =>
      FlatMembersAreNodes(members);
      SameOne(NodesOf(v)[0], Render(v));
      SameTwo([NodesOf(v)[0]], [Render(v)], NodesOfMembers(members), FlatMembers(members));
  }

  lemma WordRender(v: Value)
    requires v.Word?
    ensures Render(v) == v.chars
  {
  }

  lemma SameOne(n: Node, s: string)
    requires n.text == s && '\0' !in s
    ensures Same([n], [s])
  {
  }

  lemma {:induction false} FlatItemsAreNodes(xs: Items)
    requires WellFormedItems(xs)
    ensures Same(NodesOfItems(xs), FlatItems(xs))
    decreases xs
  {
    hide Same, NodesOf, Flat;
    if xs.NoItems? {
      SameNone();
    } else {
      FlatIsNodes(xs.value);
      FlatItemsAreNodes(xs.rest);
      SameTwo(NodesOf(xs.value), Flat(xs.value), NodesOfItems(xs.rest), FlatItems(xs.rest));
    }
  }

  lemma SameNone()
    ensures Same([], [])
  {
  }

  lemma {:induction false} FlatMembersAreNodes(xs: Members)
    requires WellFormedMembers(xs)
    ensures Same(NodesOfMembers(xs), FlatMembers(xs))
    decreases xs
  {
    hide Same, NodesOf, Flat;
    if xs.NoMembers? {
      SameNone();
    } else {
      FlatIsNodes(xs.value);
      FlatMembersAreNodes(xs.rest);
      NoNulInBody(xs.key);
      var n := Node(String, xs.key, 1);
      SameOne(n, xs.key);
      SameTwo([n], [xs.key], NodesOf(xs.value), Flat(xs.value));
      SameTwo([n] + NodesOf(xs.value), [xs.key] + Flat(xs.value), NodesOfMembers(xs.rest), FlatMembers(xs.rest));
    }
  }

  /** No NUL in a printed value. */
  lemma {:induction false} NoNul(v: Value)
    requires WellFormed(v)
    ensures '\0' !in Render(v)
    decreases v, 0
  {
    hide RenderItems, RenderMembers;
    match v
    case Text(body) => NoNulInBody(body);
    case Word(_) =>
    case List(_, items) => NoNulItems(items);
    case Record(_, members) => NoNulMembers(members);
  }

  lemma {:induction false} NoNulItems(xs: Items)
    requires WellFormedItems(xs)
    ensures '\0' !in RenderItems(xs)
    decreases xs
  {
    hide Render;
    if xs.Item? {
      NoNul(xs.value);
      NoNulItems(xs.rest);
    }
  }

  lemma {:induction false} NoNulMembers(xs: Members)
    requires WellFormedMembers(xs)
    ensures '\0' !in RenderMembers(xs)
    decreases xs
  {
    hide Render;
    if xs.Member? {
      NoNulInBody(xs.key);
      NoNul(xs.value);
      NoNulMembers(xs.rest);
    }
  }

  /* ---- the outcome ---- */

  /** As many strings as the value has children, from inside it. */
  function Strings(v: Option<Value>): seq<string> {
    if v.None? || Children(v.value) >= |Flat(v.value)| then [] else Flat(v.value)[1..Children(v.value) + 1]
  }

  function Size(v: Option<Value>): nat {
    if v.None? then 0 else Children(v.value)
  }

  /** More strings than the vector has room for, with its NULL. */
  predicate TooMany(members: Members) {
    var e, a := Size(FirstMember(members, ["Entrypoint"], false)), Size(FirstMember(members, ["args", "Cmd"], false));
    e >= 32 || a >= 32 || (e > 0 && a > 0 && e + a >= 32)
  }

  /** The entry point and then the arguments; nothing without arguments. */
  function CommandLine(members: Members): Option<seq<string>> {
    var e, a := FirstMember(members, ["Entrypoint"], false), FirstMember(members, ["args", "Cmd"], false);
    if Size(a) == 0 then None else Some(Strings(e) + Strings(a))
  }

  function Directory(members: Members): Option<string> {
    var d := FirstMember(members, ["WorkingDir", "Cwd"], false);
    if d.None? || Flat(d.value)[0] == "" then None else Some(Flat(d.value)[0])
  }

  function Entries(members: Members): seq<string> {
    Strings(FirstMember(members, ["Env"], true))
  }

  lemma VectorIsStrings(v: Value)
    requires WellFormed(v)
    ensures VectorOf(v) ==
            if Children(v) >= 32 then None
            else if Children(v) == 0 then Some(None)
            else Some(Some(Strings(Some(v))))
    ensures Texts(NodesOf(v)[1..], NodesOf(v)[0].size) == Strings(Some(v)) && |Strings(Some(v))| == Children(v)
    ensures TextAt(NodesOf(v)[0]) == if Flat(v)[0] == "" then None else Some(Flat(v)[0])
  {
    hide NodesOf, Flat, CString, WellFormed, Children;
    FlatIsNodes(v);
    Enough(v);
    var n := Children(v);
    assert forall k :: 0 <= k < n ==> NodesOf(v)[1..][k] == NodesOf(v)[k + 1];
    assert Texts(NodesOf(v)[1..], n) == Flat(v)[1..n + 1];
  }

  lemma ChosenIsStrings(members: Members, name: Name, names: seq<string>)
    requires WellFormedMembers(members) && Means(name, names)
    ensures var v := FirstMember(members, names, false);
      && |Strings(v)| == Size(v)
      && Chosen(members, name) ==
         if Size(v) >= 32 then None else if Size(v) == 0 then Some(None) else Some(Some(Strings(v)))
  {
    hide WellFormedMembers, Means, FirstMember, LookupMembers, VectorOf, Children, Flat;
    FirstMemberIsLookup(members, name, names, false);
    var v := LookupMembers(members, name, false);
    if v.Some? {
      LookupMembersWellFormed(members, name, false);
      VectorIsStrings(v.value);
    }
  }

  lemma LineIsCommand(members: Members)
    requires WellFormedMembers(members)
    ensures LineLookedUp(members) == if TooMany(members) then None else Some(CommandLine(members))
  {
    hide WellFormedMembers, Means, FirstMember, Chosen, Strings, Size, IsArgs, IsEntry;
    NamesMean();
    ChosenIsStrings(members, IsEntry, ["Entrypoint"]);
    ChosenIsStrings(members, IsArgs, ["args", "Cmd"]);
    var e := Strings(FirstMember(members, ["Entrypoint"], false));
    var a := Strings(FirstMember(members, ["args", "Cmd"], false));
    assert e == [] ==> e + a == a;
  }

  lemma RestIsRead(members: Members)
    requires WellFormedMembers(members)
    ensures ChosenDir(members) == Directory(members) && ChosenEnv(members) == Entries(members)
  {
    hide WellFormedMembers, Means, FirstMember, LookupMembers, Strings, IsDir, IsEnv, TextAt, Texts, NodesOf, Flat;
    NamesMean();
    FirstMemberIsLookup(members, IsDir, ["WorkingDir", "Cwd"], false);
    FirstMemberIsLookup(members, IsEnv, ["Env"], true);
    var d, e := LookupMembers(members, IsDir, false), LookupMembers(members, IsEnv, true);
    if d.Some? {
      LookupMembersWellFormed(members, IsDir, false);
      VectorIsStrings(d.value);
    }
    if e.Some? {
      LookupMembersWellFormed(members, IsEnv, true);
      VectorIsStrings(e.value);
    }
    StringsOfNone();
  }

  lemma StringsOfNone()
    ensures Strings(None) == []
  {
  }

  /** The whole outcome of reading a file whose names come first as keys and whose
      environment is a list of plain items: the vector outgrows its 32 cells, or the
      command is the entry point followed by the arguments, the directory is as
      written, and every variable is what the entries make of it. */
  lemma GuestIsGiven(data: string, lead: string, pad: string, members: Members, trail: string, residue: int,
                      env: Env, escapes: string -> string)
    requires Printed(data, lead, pad, members, trail) && Shrinks(escapes)
    requires KeyFirstIn(members, IsArgs, false) && KeyFirstIn(members, IsEntry, false)
    requires KeyFirstIn(members, IsDir, false) && KeyFirstIn(members, IsEnv, true) && PlainEnv(members)
    ensures var o := ParseText(Buffer(data, residue), Filling(16384));
      && (o.result.Count? ==> Fits(o.m.toks, |o.buf.js|))
      && var config := ReadTokens(o, env, Unescaper(escapes));
         if TooMany(members) then config == Overrun
         else
           && config.Config? && config.argv == CommandLine(members) && config.workdir == Directory(members)
           && forall name :: VariableIn(config.env, name) ==
                             ValueAfter(VariableIn(env, name), Entries(members), name)
  {
    hide NodesOfMembers, ReadTokens, ParseText, Fits, Unescaper, LineLookedUp, KeyFirstIn, PlainEnv, ValueAfter;
    hide ChosenDir, ChosenEnv, AddEntries, TooMany, CommandLine, Directory, Entries, Render, Spaces, TokensOf;
    ConfigByLookUp(data, lead, pad, members, trail, residue, env, escapes);
    LineIsCommand(members);
    RestIsRead(members);
    forall name ensures VariableIn(AddEntries(env, Entries(members)), name) ==
                        ValueAfter(VariableIn(env, name), Entries(members), name)
    {
      EntriesSet(env, Entries(members), name);
    }
  }

  /** The same from the characters of the file, in place. */
  method ReadGuestConfig(data: array<char>, residue: int, env: Env, escapes: string -> string,
                         ghost lead: string, ghost pad: string, ghost members: Members, ghost trail: string)
    returns (status: int, overrun: bool, argv: array?<Option<string>>, workdir: Option<string>, env': Env)
    requires Printed(data[..], lead, pad, members, trail) && Shrinks(escapes)
    requires KeyFirstIn(members, IsArgs, false) && KeyFirstIn(members, IsEntry, false)
    requires KeyFirstIn(members, IsDir, false) && KeyFirstIn(members, IsEnv, true) && PlainEnv(members)
    modifies data
    ensures overrun == TooMany(members)
    ensures !overrun ==>
              && status == 0 && Holds(argv, CommandLine(members)) && workdir == Directory(members)
              && forall name :: VariableIn(env', name) == ValueAfter(VariableIn(env, name), Entries(members), name)
  {
    hide Printed, ReadTokens, ParseText, Fits, Unescaper, KeyFirstIn, PlainEnv, ValueAfter, Holds;
    hide TooMany, CommandLine, Directory, Entries, NodesOfMembers;
    GuestIsGiven(data[..], lead, pad, members, trail, residue, env, escapes);
    status, overrun, argv, workdir, env' := ConfigParseFile(data, residue, env, escapes);
  }
}
