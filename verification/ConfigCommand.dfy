/** What a configuration delivers, by look-up in its JSON tree: known names count
    as keys at every depth, the first in document order wins, and the command line
    is the entry point followed by the command. */
module ConfigCommand {
  import opened Options
  import opened JsonLexing
  import opened JsonMachine
  import opened JsonRoundTrip
  import opened ConfigReader
  import opened ConfigNodes
  import opened ConfigFinds
  import opened ConfigSpared
  import opened ConfigMeaning
  import opened ConfigParse

  /* ---- looking up ---- */

  /** The value of the first member with the name, in document order and at any
      depth; a list, if only lists will do. */
  function Lookup(v: Value, name: Name, lists: bool): Option<Value> {
    match v
    case Text(_) => None
    case Word(_) => None
    case List(_, items) => LookupItems(items, name, lists)
    case Record(_, members) => LookupMembers(members, name, lists)
  }

  function LookupItems(xs: Items, name: Name, lists: bool): Option<Value> {
    if xs.NoItems? then None
    else
      var first := Lookup(xs.value, name, lists);
      if first.Some? then first else LookupItems(xs.rest, name, lists)
  }

  function LookupMembers(xs: Members, name: Name, lists: bool): Option<Value> {
    if xs.NoMembers? then None
    else if name(xs.key) && (lists ==> xs.value.List?) then Some(xs.value)
    else
      var first := Lookup(xs.value, name, lists);
      if first.Some? then first else LookupMembers(xs.rest, name, lists)
  }

  /* ---- from trees to nodes ---- */

  /** The first hit among the nodes of a tree and those after it: none in the tree,
      or a string without a child, or the key that looking up finds, with the nodes
      of its value behind it. */
  predicate Finds(found: Option<seq<Node>>, value: Option<Value>, otherwise: Option<seq<Node>>)
    requires found.Some? ==> |found.value| > 1
  {
    || (value.None? && found == otherwise)
    || (found.Some? && found.value[0].size == 0)
    || (value.Some? && found.Some? && found.value[0].size > 0 && NodesOf(value.value) <= found.value[1..])
  }

  lemma FindSkips(n: Node, rest: seq<Node>, name: Name, lists: bool)
    requires !Hit([n] + rest, name, lists)
    ensures Find([n] + rest, name, lists) == Find(rest, name, lists)
  {
    assert ([n] + rest)[1..] == rest;
  }

  /** The nodes inside a value. */
  function Inside(v: Value): seq<Node> {
    match v
    case List(_, items) => NodesOfItems(items)
    case Record(_, members) => NodesOfMembers(members)
    case _ => []
  }

  lemma NodesSplit(v: Value, tail: seq<Node>)
    ensures NodesOf(v) == [NodesOf(v)[0]] + Inside(v)
    ensures NodesOf(v) + tail == [NodesOf(v)[0]] + (Inside(v) + tail)
    ensures NodesOf(v)[0].kind == String ==> NodesOf(v)[0].size == 0
    ensures (v.List? || v.Record?) ==> NodesOf(v)[0].kind != String
    ensures v.List? <==> NodesOf(v)[0].kind == Array
  {
    hide Render;
  }

  lemma {:induction false} FindsValue(v: Value, name: Name, lists: bool, tail: seq<Node>)
    ensures Finds(Find(NodesOf(v) + tail, name, lists), Lookup(v, name, lists), Find(tail, name, lists))
    decreases v
  {
    hide Find, NodesOf, NodesOfItems, NodesOfMembers, LookupItems, LookupMembers;
    NodesSplit(v, tail);
    var n, rest := NodesOf(v)[0], Inside(v) + tail;
    match v
    case Text(_) =>
      assert rest == tail;
      LeafFinds(n, tail, name, lists);
    case Word(_) =>
      assert rest == tail;
      LeafFinds(n, tail, name, lists);
    case List(_, items) =>
      FindSkips(n, rest, name, lists);
      FindsItems(items, name, lists, tail);
    case Record(_, members) =>
      FindSkips(n, rest, name, lists);
      FindsMembers(members, name, lists, tail);
  }

  lemma LeafFinds(n: Node, tail: seq<Node>, name: Name, lists: bool)
    requires n.kind == String ==> n.size == 0
    ensures Finds(Find([n] + tail, name, lists), None, Find(tail, name, lists))
  {
    assert ([n] + tail)[1..] == tail;
  }

  lemma {:induction false} FindsItems(xs: Items, name: Name, lists: bool, tail: seq<Node>)
    ensures Finds(Find(NodesOfItems(xs) + tail, name, lists), LookupItems(xs, name, lists), Find(tail, name, lists))
    decreases xs
  {
    hide Find, NodesOf;
    if xs.NoItems? {
      assert NodesOfItems(xs) + tail == tail;
    } else {
      var rest := NodesOfItems(xs.rest) + tail;
      assert NodesOfItems(xs) + tail == NodesOf(xs.value) + rest;
      FindsValue(xs.value, name, lists, rest);
      FindsItems(xs.rest, name, lists, tail);
    }
  }

  lemma {:induction false} FindsMembers(xs: Members, name: Name, lists: bool, tail: seq<Node>)
    ensures Finds(Find(NodesOfMembers(xs) + tail, name, lists), LookupMembers(xs, name, lists), Find(tail, name, lists))
    decreases xs
  {
    hide Find, NodesOf, Inside, Lookup;
    if xs.NoMembers? {
      assert NodesOfMembers(xs) + tail == tail;
    } else {
      var rest := NodesOfMembers(xs.rest) + tail;
      var key, all := Node(String, xs.key, 1), NodesOf(xs.value) + rest;
      assert NodesOfMembers(xs) + tail == [key] + all;
      NodesSplit(xs.value, rest);
      if name(xs.key) && (lists ==> xs.value.List?) {
        FindHits([key] + all, name, lists);
        assert ([key] + all)[1..] == all;
      } else {
        FindSkips(key, all, name, lists);
        FindsValue(xs.value, name, lists, rest);
        FindsMembers(xs.rest, name, lists, tail);
      }
    }
  }

  lemma FindHits(ns: seq<Node>, name: Name, lists: bool)
    requires Hit(ns, name, lists)
    ensures Find(ns, name, lists) == Some(ns)
  {
  }

  /** What the first string with the name says, if it is a key, is what looking up says. */
  predicate KeyFirstIn(xs: Members, name: Name, lists: bool) {
    KeyFirst(NodesOfMembers(xs), name, lists)
  }

  lemma FindsKey(xs: Members, name: Name, lists: bool)
    requires KeyFirstIn(xs, name, lists)
    ensures var found, value := Find(NodesOfMembers(xs), name, lists), LookupMembers(xs, name, lists);
      found.Some? == value.Some? && (found.Some? ==> NodesOf(value.value) <= found.value[1..])
  {
    hide NodesOfMembers, NodesOf, LookupMembers;
    FindsMembers(xs, name, lists, []);
    assert NodesOfMembers(xs) + [] == NodesOfMembers(xs);
  }

  /* ---- what is found ---- */

  /** There are at least as many nodes inside a value as it has children. */
  lemma {:induction false} ItemsEnough(xs: Items)
    ensures |NodesOfItems(xs)| >= ItemCount(xs)
    decreases xs
  {
    if xs.Item? { ItemsEnough(xs.rest); }
  }

  lemma {:induction false} MembersEnough(xs: Members)
    ensures |NodesOfMembers(xs)| >= MemberCount(xs)
    decreases xs
  {
    if xs.Member? { MembersEnough(xs.rest); }
  }

  lemma Enough(v: Value)
    ensures NodesOf(v)[0].size < |NodesOf(v)|
  {
    if v.List? { ItemsEnough(v.items); }
    if v.Record? { MembersEnough(v.members); }
  }

  /** The vector a value stands for. */
  function VectorOf(v: Value): Option<Option<seq<string>>> {
    VectorAt(NodesOf(v))
  }

  lemma VectorInFront(v: Value, ns: seq<Node>)
    requires NodesOf(v) <= ns
    ensures VectorAt(ns) == VectorOf(v)
  {
    hide NodesOf;
    Enough(v);
    var n := NodesOf(v)[0].size;
    assert Texts(ns[1..], n) == Texts(NodesOf(v)[1..], n);
  }

  /** The vector that the first member with the name stands for. */
  function Chosen(xs: Members, name: Name): Option<Option<seq<string>>> {
    match LookupMembers(xs, name, false)
    case None => Some(None)
    case Some(v) => VectorOf(v)
  }

  lemma ChosenIsFound(xs: Members, name: Name)
    requires KeyFirstIn(xs, name, false)
    ensures VectorFrom(Find(NodesOfMembers(xs), name, false)) == Chosen(xs, name)
  {
    hide VectorAt, VectorOf, NodesOf, NodesOfMembers, Find, LookupMembers, KeyFirst;
    FindsKey(xs, name, false);
    var found := LookupMembers(xs, name, false);
    if found.Some? { VectorInFront(found.value, Find(NodesOfMembers(xs), name, false).value[1..]); }
  }

  function ChosenDir(xs: Members): Option<string> {
    match LookupMembers(xs, IsDir, false)
    case None => None
    case Some(v) => TextAt(NodesOf(v)[0])
  }

  lemma DirIsFound(xs: Members)
    requires KeyFirstIn(xs, IsDir, false)
    ensures DirFrom(Find(NodesOfMembers(xs), IsDir, false)) == ChosenDir(xs)
  {
    hide NodesOf, NodesOfMembers, TextAt, IsDir, Find, LookupMembers, KeyFirst;
    FindsKey(xs, IsDir, false);
    var found := LookupMembers(xs, IsDir, false);
    if found.Some? {
      var at := Find(NodesOfMembers(xs), IsDir, false).value;
      assert at[1] == at[1..][0];
    }
  }

  /** The entries of the first `Env` that is a list. */
  function ChosenEnv(xs: Members): seq<string> {
    match LookupMembers(xs, IsEnv, true)
    case None => []
    case Some(v) => Texts(NodesOf(v)[1..], NodesOf(v)[0].size)
  }

  lemma EnvIsFound(xs: Members)
    requires KeyFirstIn(xs, IsEnv, true)
    ensures FoundEnv(NodesOfMembers(xs)) == ChosenEnv(xs)
  {
    hide NodesOf, NodesOfMembers, IsEnv, Find, LookupMembers, KeyFirst;
    FindsKey(xs, IsEnv, true);
    var found := LookupMembers(xs, IsEnv, true);
    if found.Some? {
      Enough(found.value);
      var ns, at := NodesOf(found.value), Find(NodesOfMembers(xs), IsEnv, true).value;
      assert at[1..][0] == at[1] && at[1..][1..] == at[2..];
      assert Texts(at[2..], ns[0].size) == Texts(ns[1..], ns[0].size);
    }
  }

  /* ---- well-formed values ---- */

  lemma {:induction false} LookupWellFormed(v: Value, name: Name, lists: bool)
    requires WellFormed(v) && Lookup(v, name, lists).Some?
    ensures WellFormed(Lookup(v, name, lists).value)
    decreases v
  {
    match v
    case List(_, items) => LookupItemsWellFormed(items, name, lists);
    case Record(_, members) => LookupMembersWellFormed(members, name, lists);
  }

  lemma {:induction false} LookupItemsWellFormed(xs: Items, name: Name, lists: bool)
    requires WellFormedItems(xs) && LookupItems(xs, name, lists).Some?
    ensures WellFormed(LookupItems(xs, name, lists).value)
    decreases xs
  {
    if Lookup(xs.value, name, lists).Some? {
      LookupWellFormed(xs.value, name, lists);
    } else {
      LookupItemsWellFormed(xs.rest, name, lists);
    }
  }

  lemma {:induction false} LookupMembersWellFormed(xs: Members, name: Name, lists: bool)
    requires WellFormedMembers(xs) && LookupMembers(xs, name, lists).Some?
    ensures WellFormed(LookupMembers(xs, name, lists).value)
    decreases xs
  {
    if !(name(xs.key) && (lists ==> xs.value.List?)) {
      if Lookup(xs.value, name, lists).Some? {
        LookupWellFormed(xs.value, name, lists);
      } else {
        LookupMembersWellFormed(xs.rest, name, lists);
      }
    }
  }

  /* ---- lists of plain items ---- */

  /** One node: a string, a word or an empty container. */
  predicate Childless(v: Value) {
    match v
    case Text(_) => true
    case Word(_) => true
    case List(_, items) => items.NoItems?
    case Record(_, members) => members.NoMembers?
  }

  predicate Plain(xs: Items) {
    xs.NoItems? || (Childless(xs.value) && Plain(xs.rest))
  }

  function Contents(xs: Items): (r: seq<string>)
    ensures |r| == ItemCount(xs)
  {
    if xs.NoItems? then [] else [Content(xs.value)] + Contents(xs.rest)
  }

  lemma ChildlessNode(v: Value)
    requires Childless(v)
    ensures |NodesOf(v)| == 1 && NodesOf(v)[0].size == 0 && NodesOf(v)[0].text == Content(v)
  {
  }

  lemma {:induction false} PlainNodes(xs: Items)
    requires Plain(xs)
    ensures |NodesOfItems(xs)| == ItemCount(xs)
    ensures forall k :: 0 <= k < ItemCount(xs) ==>
                          NodesOfItems(xs)[k].size == 0 && NodesOfItems(xs)[k].text == Contents(xs)[k]
    decreases xs
  {
    hide NodesOf, Content;
    if xs.Item? {
      ChildlessNode(xs.value);
      PlainNodes(xs.rest);
    }
  }

  lemma {:induction false} NoNulInBody(s: string)
    requires PlainBody(s)
    ensures '\0' !in s
    decreases |s|
  {
    if s != [] {
      var n := if s[0] == '\\' then 2 else 1;
      NoNulInBody(s[n..]);
      assert s == s[..n] + s[n..];
    }
  }

  lemma {:induction false} NoNulInItem(v: Value)
    requires WellFormed(v) && Childless(v)
    ensures '\0' !in Content(v)
  {
    match v
    case Text(body) => NoNulInBody(body);
    case Word(_) =>
    case List(pad, items) => assert Render(v) == "[" + pad + "" + "]";
    case Record(pad, members) => assert Render(v) == "{" + pad + "" + "}";
  }

  lemma {:induction false} NoNulInItems(xs: Items)
    requires WellFormedItems(xs) && Plain(xs)
    ensures forall k :: 0 <= k < ItemCount(xs) ==> '\0' !in Contents(xs)[k]
    decreases xs
  {
    hide Content;
    if xs.Item? {
      NoNulInItem(xs.value);
      NoNulInItems(xs.rest);
    }
  }

  /** A list of plain items stands for its elements. */
  lemma PlainVector(v: Value)
    requires v.List? && WellFormed(v) && Plain(v.items) && v.items.Item? && ItemCount(v.items) < MAX_ARGS
    ensures VectorOf(v) == Some(Some(Contents(v.items)))
  {
    hide CString, Content, Render;
    PlainNodes(v.items);
    NoNulInItems(v.items);
    assert NodesOf(v)[1..] == NodesOfItems(v.items);
    assert Texts(NodesOfItems(v.items), ItemCount(v.items)) == Contents(v.items);
  }

  /* ---- what is delivered ---- */

  /** The two vectors joined; `None` when one of them, or both together, do not fit. */
  function Line(entry: Option<Option<seq<string>>>, args: Option<Option<seq<string>>>): Option<Option<seq<string>>> {
    if entry == None || args == None then None else Joined(entry.value, args.value)
  }

  /** The command line of a configuration that was read; `None` is an overrun. */
  function Delivered(config: Config): Option<Option<seq<string>>>
    requires !config.NoConfig?
  {
    if config.Config? then Some(config.argv) else None
  }

  /** Exactly what the walk over any nodes delivers, in any places: for each name
      the first string with it decides, key or not, as it is when it is met. */
  lemma WalkDelivers(ns: seq<Node>, ps: seq<int>, env: Env)
    requires |ns| == |ps|
    ensures var config := Finish(WalkNodes(Begin("", env), ns, ps));
      var entry, args := VectorFrom(Meets(ns, ps, IsEntry, false)), VectorFrom(Meets(ns, ps, IsArgs, false));
      && !config.NoConfig? && Delivered(config) == Line(entry, args)
      && (config.Config? ==>
            config.workdir == DirFrom(Meets(ns, ps, IsDir, false)) && config.env == EnvFrom(ns, ps, env))
  {
    hide WalkNodes, Meets, VectorFrom, DirFrom, EnvFrom, IsArgs, IsEntry, IsDir;
    var r := Begin("", env);
    WalkFindsArgv(r, ns, ps);
    if WalkNodes(r, ns, ps).Some? {
      WalkFindsDir(r, ns, ps);
      WalkFindsEnv(r, ns, ps);
    }
  }

  function LineFound(ns: seq<Node>): Option<Option<seq<string>>> {
    Line(VectorFrom(Find(ns, IsEntry, false)), VectorFrom(Find(ns, IsArgs, false)))
  }

  function LineLookedUp(members: Members): Option<Option<seq<string>>> {
    Line(Chosen(members, IsEntry), Chosen(members, IsArgs))
  }

  /** The command line, when cutting the environment spares both vectors: it is
      that of the first strings called `Entrypoint`, and `args` or `Cmd`.  So it is
      that of look-up if and only if these strings stand for the same, as they do
      when they are keys. */
  lemma ArgvByLookUp(members: Members, ps: seq<int>, env: Env)
    requires |ps| == |NodesOfMembers(members)| && Laid(NodesOfMembers(members), ps)
    requires Spared(NodesOfMembers(members), ps, IsArgs) && Spared(NodesOfMembers(members), ps, IsEntry)
    ensures var config := Finish(WalkNodes(Begin("", env), NodesOfMembers(members), ps));
      && !config.NoConfig? && Delivered(config) == LineFound(NodesOfMembers(members))
      && (Delivered(config) == LineLookedUp(members) <==>
          LineFound(NodesOfMembers(members)) == LineLookedUp(members))
      && (KeyFirstIn(members, IsArgs, false) && KeyFirstIn(members, IsEntry, false) ==>
            Delivered(config) == LineLookedUp(members))
  {
    hide WalkNodes, NodesOfMembers, Laid, Spared, Meets, Find, VectorFrom, IsArgs, IsEntry, Chosen, Line, KeyFirstIn;
    hide Finish, Delivered;
    var ns := NodesOfMembers(members);
    WalkDelivers(ns, ps, env);
    NamesArePlain();
    SparedVector(ns, ps, IsArgs);
    SparedVector(ns, ps, IsEntry);
    if KeyFirstIn(members, IsArgs, false) && KeyFirstIn(members, IsEntry, false) {
      ChosenIsFound(members, IsArgs);
      ChosenIsFound(members, IsEntry);
    }
  }

  /** The working directory and the environment, each under its own condition. */
  lemma RestByLookUp(members: Members, ps: seq<int>, env: Env)
    requires |ps| == |NodesOfMembers(members)| && Laid(NodesOfMembers(members), ps)
    ensures var ns := NodesOfMembers(members);
      var config := Finish(WalkNodes(Begin("", env), ns, ps));
      config.Config? ==>
        && (Spared(ns, ps, IsDir) && KeyFirstIn(members, IsDir, false) ==> config.workdir == ChosenDir(members))
        && (Gentle(ns) ==> config.env == AddEntries(env, FoundEnv(ns)))
        && (Gentle(ns) && KeyFirstIn(members, IsEnv, true) ==> config.env == AddEntries(env, ChosenEnv(members)))
  {
    hide WalkNodes, NodesOfMembers, Laid, Spared, Meets, Find, Gentle, KeyFirst, DirFrom, EnvFrom, FoundEnv;
    hide ChosenDir, ChosenEnv, AddEntries, IsDir, IsEnv, Line;
    var ns := NodesOfMembers(members);
    WalkDelivers(ns, ps, env);
    NamesArePlain();
    if Spared(ns, ps, IsDir) && KeyFirstIn(members, IsDir, false) {
      SparedKey(ns, ps, IsDir);
      DirIsFound(members);
    }
    if Gentle(ns) {
      GentleEnv(ns, ps, env);
      if KeyFirstIn(members, IsEnv, true) { EnvIsFound(members); }
    }
  }

  /** An environment that is read has plain items. */
  predicate PlainEnv(xs: Members) {
    var env := LookupMembers(xs, IsEnv, true);
    env.Some? && env.value.List? ==> Plain(env.value.items)
  }

  lemma PlainIsGentle(xs: Members)
    requires KeyFirstIn(xs, IsEnv, true) && PlainEnv(xs)
    ensures Gentle(NodesOfMembers(xs))
  {
    hide NodesOf, NodesOfMembers, IsEnv, Find, LookupMembers, KeyFirst, Plain;
    FindsKey(xs, IsEnv, true);
    var found := LookupMembers(xs, IsEnv, true);
    if found.Some? {
      var v, at := found.value, Find(NodesOfMembers(xs), IsEnv, true).value;
      NodesSplit(v, []);
      assert at[1..][0] == at[1] && at[1..][1..] == at[2..];
      PlainNodes(v.items);
      ListNodes(v);
      assert forall j :: 0 <= j < at[1].size ==> at[2..][j] == NodesOfItems(v.items)[j];
    }
  }

  lemma ListNodes(v: Value)
    requires v.List?
    ensures NodesOf(v)[0].size == ItemCount(v.items) && NodesOf(v)[1..] == NodesOfItems(v.items)
  {
    hide Render;
  }

  /* ---- from the text ---- */

  /** A configuration object printed with any layout, without backslashes and
      within the reader's token array. */
  ghost predicate Printed(data: string, lead: string, pad: string, members: Members, trail: string) {
    && Spaces(lead) && WellFormed(Record(pad, members)) && Spaces(trail)
    && data == lead + Render(Record(pad, members)) + trail && '\\' !in data
    && |TokensOf(Record(pad, members), |lead|)| <= MAX_TOKENS
  }

  lemma TextIsNodes(data: string, lead: string, pad: string, members: Members, trail: string, residue: int,
                    env: Env, escapes: string -> string)
    requires Printed(data, lead, pad, members, trail) && Shrinks(escapes)
    ensures var ns, ps := NodesOfMembers(members), Places(lead, pad, members);
      |ps| == |ns| && Laid(ns, ps)
    ensures var o := ParseText(Buffer(data, residue), Filling(MAX_TOKENS));
      && (o.result.Count? ==> Fits(o.m.toks, |o.buf.js|))
      && ReadTokens(o, env, Unescaper(escapes)) ==
         Finish(WalkNodes(Begin("", env), NodesOfMembers(members), Places(lead, pad, members)))
  {
    hide Render, TokensOf, NodesOfMembers, Unescaper, ReadTokens, WalkNodes, ParseText, Fits, WellFormed, Spaces;
    hide Places, Laid;
    PlacesLaid(lead, pad, members, trail);
    ConfigIsItsMeaning(lead, pad, members, trail, residue, env, Unescaper(escapes));
  }

  /** From the text, exactly: what is delivered for every object without
      backslashes. */
  lemma ConfigDelivered(data: string, lead: string, pad: string, members: Members, trail: string, residue: int,
                        env: Env, escapes: string -> string)
    requires Printed(data, lead, pad, members, trail) && Shrinks(escapes)
    ensures var o := ParseText(Buffer(data, residue), Filling(MAX_TOKENS));
      var ns, ps := NodesOfMembers(members), Places(lead, pad, members);
      && |ps| == |ns| && (o.result.Count? ==> Fits(o.m.toks, |o.buf.js|))
      && var config := ReadTokens(o, env, Unescaper(escapes));
         var entry, args := VectorFrom(Meets(ns, ps, IsEntry, false)), VectorFrom(Meets(ns, ps, IsArgs, false));
         && !config.NoConfig? && Delivered(config) == Line(entry, args)
         && (config.Config? ==>
               config.workdir == DirFrom(Meets(ns, ps, IsDir, false)) && config.env == EnvFrom(ns, ps, env))
  {
    hide Printed, NodesOfMembers, WalkNodes, ReadTokens, ParseText, Fits, Unescaper, Places, Laid, Meets, EnvFrom;
    hide Finish, Delivered, Line, VectorFrom, DirFrom;
    TextIsNodes(data, lead, pad, members, trail, residue, env, escapes);
    WalkDelivers(NodesOfMembers(members), Places(lead, pad, members), env);
  }

  /** The whole configuration by look-up, when the first string with each name is a
      key, at whatever depth, and the environment is a list of plain items. */
  lemma ConfigByLookUp(data: string, lead: string, pad: string, members: Members, trail: string, residue: int,
                       env: Env, escapes: string -> string)
    requires Printed(data, lead, pad, members, trail) && Shrinks(escapes)
    requires KeyFirstIn(members, IsArgs, false) && KeyFirstIn(members, IsEntry, false)
    requires KeyFirstIn(members, IsDir, false) && KeyFirstIn(members, IsEnv, true) && PlainEnv(members)
    ensures var o := ParseText(Buffer(data, residue), Filling(MAX_TOKENS));
      && (o.result.Count? ==> Fits(o.m.toks, |o.buf.js|))
      && ReadTokens(o, env, Unescaper(escapes)) ==
         match LineLookedUp(members)
         case None => Overrun
         case Some(argv) => Config(argv, ChosenDir(members), AddEntries(env, ChosenEnv(members)))
  {
    hide Printed, NodesOfMembers, Gentle, WalkNodes, ReadTokens, ParseText, Fits, Unescaper, LineLookedUp, LineFound;
    hide ChosenDir, ChosenEnv, AddEntries, KeyFirstIn, PlainEnv, Places, Laid, Finish;
    PlainIsGentle(members);
    TextIsNodes(data, lead, pad, members, trail, residue, env, escapes);
    ArgvByLookUp(members, Places(lead, pad, members), env);
    RestByLookUp(members, Places(lead, pad, members), env);
  }

  /** The environment spares both vectors of the command line. */
  predicate SparesLine(lead: string, pad: string, members: Members) {
    var ns, ps := NodesOfMembers(members), Places(lead, pad, members);
    |ps| == |ns| ==> Spared(ns, ps, IsArgs) && Spared(ns, ps, IsEntry)
  }

  /** The command line: when the first `Entrypoint` and the first `args` or `Cmd`,
      at any depth, are non-empty lists of plain items with fewer than `MAX_ARGS`
      in all, it is the elements of the one followed by those of the other. */
  lemma EntrypointThenCmd(data: string, lead: string, pad: string, members: Members, trail: string, residue: int,
                          env: Env, escapes: string -> string, e: Value, c: Value)
    requires Printed(data, lead, pad, members, trail) && SparesLine(lead, pad, members) && Shrinks(escapes)
    requires KeyFirstIn(members, IsArgs, false) && KeyFirstIn(members, IsEntry, false)
    requires LookupMembers(members, IsEntry, false) == Some(e) && LookupMembers(members, IsArgs, false) == Some(c)
    requires e.List? && c.List? && e.items.Item? && c.items.Item? && Plain(e.items) && Plain(c.items)
    requires ItemCount(e.items) + ItemCount(c.items) < MAX_ARGS
    ensures var o := ParseText(Buffer(data, residue), Filling(MAX_TOKENS));
      && (o.result.Count? ==> Fits(o.m.toks, |o.buf.js|))
      && var config := ReadTokens(o, env, Unescaper(escapes));
         config.Config? && config.argv == Some(Contents(e.items) + Contents(c.items))
  {
    hide NodesOfMembers, Spared, WalkNodes, ReadTokens, ParseText, Fits, Unescaper, VectorOf, Contents, Plain;
    hide KeyFirstIn, LookupMembers, Render, Spaces, TokensOf, Places, Laid, Finish, LineFound;
    TextIsNodes(data, lead, pad, members, trail, residue, env, escapes);
    ArgvByLookUp(members, Places(lead, pad, members), env);
    LookupMembersWellFormed(members, IsEntry, false);
    LookupMembersWellFormed(members, IsArgs, false);
    PlainVector(e);
    PlainVector(c);
  }

  /** From the characters of the file to the vector that is executed: `Entrypoint`
      followed by `Cmd`, ended by NULL. */
  method ReadCommandLine(data: array<char>, residue: int, env: Env, escapes: string -> string,
                         ghost lead: string, ghost pad: string, ghost members: Members, ghost trail: string,
                         ghost e: Value, ghost c: Value)
    returns (status: int, argv: array?<Option<string>>)
    requires Printed(data[..], lead, pad, members, trail) && SparesLine(lead, pad, members) && Shrinks(escapes)
    requires KeyFirstIn(members, IsArgs, false) && KeyFirstIn(members, IsEntry, false)
    requires LookupMembers(members, IsEntry, false) == Some(e) && LookupMembers(members, IsArgs, false) == Some(c)
    requires e.List? && c.List? && e.items.Item? && c.items.Item? && Plain(e.items) && Plain(c.items)
    requires ItemCount(e.items) + ItemCount(c.items) < MAX_ARGS
    modifies data
    ensures status == 0 && Holds(argv, Some(Contents(e.items) + Contents(c.items)))
  {
    hide Printed, SparesLine, ReadTokens, ParseText, Fits, Unescaper, Contents, Plain, Holds;
    hide KeyFirstIn, LookupMembers;
    EntrypointThenCmd(data[..], lead, pad, members, trail, residue, env, escapes, e, c);
    var overrun, workdir, env';
    status, overrun, argv, workdir, env' := ConfigParseFile(data, residue, env, escapes);
  }
}
