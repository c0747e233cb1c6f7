/** What the conditions on configurations shut out. */
module ConfigLimits {
  import opened Options
  import opened JsonLexing
  import opened JsonMachine
  import opened JsonRoundTrip
  import opened JsonRoundTripText
  import opened ConfigReader
  import opened ConfigNodes
  import opened ConfigFinds
  import opened ConfigSpared
  import opened ConfigMeaning
  import opened ConfigCommand

  lemma {:induction false} OrdinaryBody(s: string)
    requires forall i :: 0 <= i < |s| ==> s[i] !in "\"\\\0"
    ensures PlainBody(s)
    decreases |s|
  {
    if s != [] { OrdinaryBody(s[1..]); }
  }

  lemma {:induction false} NothingCalled(ns: seq<Node>, name: Name, arrays: bool)
    requires forall i :: 0 <= i < |ns| ==> !Called(ns[i], name)
    ensures Find(ns, name, arrays).None?
    decreases |ns|
  {
    if ns != [] { NothingCalled(ns[1..], name, arrays); }
  }

  /* ---- a string that passes for a key ---- */

  const CMD_ITEMS := Item("", Text("b"), "", NoItems)
  const CMD_LIST := List("", CMD_ITEMS)
  const CMD_MEMBER := Member("", "Cmd", "", "", CMD_LIST, "", NoMembers)
  const CMD_MEMBERS := Member("", "Hostname", "", "", Text("cmd"), "", CMD_MEMBER)
  const CMD_NODES := [Node(String, "Cmd", 1), Node(Array, "[\"b\"]", 1), Node(String, "b", 0)]

  lemma CmdNodes()
    ensures NodesOfMembers(CMD_MEMBERS) == [Node(String, "Hostname", 1)] + ([Node(String, "cmd", 0)] + CMD_NODES)
  {
    assert RenderItems(CMD_ITEMS) == "\"b\"";
    assert Render(CMD_LIST) == "[\"b\"]";
    assert NodesOf(Text("cmd")) == [Node(String, "cmd", 0)];
    assert NodesOfItems(CMD_ITEMS) == [Node(String, "b", 0)];
    assert NodesOf(CMD_LIST) == [Node(Array, "[\"b\"]", 1), Node(String, "b", 0)];
    assert NodesOfMembers(CMD_MEMBER) == CMD_NODES;
  }

  lemma CmdClean()
    ensures '\\' !in "" + Render(Record("", CMD_MEMBERS)) + ""
  {
    ListClean();
    hide RenderItems;
    assert '\\' !in RenderMembers(CMD_MEMBER);
    assert '\\' !in RenderMembers(CMD_MEMBERS);
  }

  lemma ListClean()
    ensures '\\' !in Render(CMD_LIST)
  {
    assert '\\' !in RenderItems(CMD_ITEMS);
  }

  lemma CmdWellFormed()
    ensures WellFormed(Record("", CMD_MEMBERS))
  {
    hide PlainBody;
    OrdinaryBody("Hostname");
    OrdinaryBody("cmd");
    OrdinaryBody("Cmd");
    OrdinaryBody("b");
    assert WellFormed(CMD_LIST);
    assert WellFormedMembers(CMD_MEMBER);
  }

  /** Only the strings `cmd` and `Cmd` have a name here. */
  lemma CmdNames()
    ensures var ns := NodesOfMembers(CMD_MEMBERS);
      && Find(ns, IsEnv, true) == None && Find(ns, IsDir, false) == None && Find(ns, IsEntry, false) == None
      && Find(ns, IsArgs, false) == Some([Node(String, "cmd", 0)] + CMD_NODES)
  {
    hide NodesOfMembers, Find;
    CmdNodes();
    var ns, rest := NodesOfMembers(CMD_MEMBERS), [Node(String, "cmd", 0)] + CMD_NODES;
    assert "cmd"[0] == 'c' && "Cmd"[0] == 'C' && "cmd"[1] == 'm' && "Cmd"[1] == 'm';
    NothingCalled(ns, IsEnv, true);
    NothingCalled(ns, IsDir, false);
    NothingCalled(ns, IsEntry, false);
    assert SameName("cmd", "Cmd");
    FindHits(rest, IsArgs, false);
    FindSkips(Node(String, "Hostname", 1), rest, IsArgs, false);
  }

  lemma CmdTokens()
    ensures |TokensOf(Record("", CMD_MEMBERS), 0)| == 6
  {
    hide Render;
    assert forall p: nat :: |TokensOfItems(CMD_ITEMS, p)| == 1;
    assert forall p: nat :: |TokensOf(CMD_LIST, p)| == 2;
    assert forall p: nat :: |TokensOfMembers(CMD_MEMBER, p)| == 3;
  }

  lemma CmdVector()
    ensures VectorAt(CMD_NODES) == Some(Some(["[\"b\"]"]))
  {
    assert CMD_NODES[1..][0].text == "[\"b\"]";
    assert Texts(CMD_NODES[1..], 1) == ["[\"b\"]"];
  }

  lemma CmdWalk(ps: seq<int>, env: Env)
    requires |ps| == |NodesOfMembers(CMD_MEMBERS)| && Laid(NodesOfMembers(CMD_MEMBERS), ps)
    ensures Finish(WalkNodes(Begin("", env), NodesOfMembers(CMD_MEMBERS), ps)) == Config(Some(["[\"b\"]"]), None, env)
  {
    hide WalkNodes, NodesOfMembers, Laid, Find, VectorAt, LookupMembers, AddEntries, LineLookedUp;
    CmdNames();
    CmdVector();
    ArgvByLookUp(CMD_MEMBERS, ps, env);
    FindsKey(CMD_MEMBERS, IsDir, false);
    RestByLookUp(CMD_MEMBERS, ps, env);
    EntriesSnoc(env, [], "");
    assert ([Node(String, "cmd", 0)] + CMD_NODES)[1..] == CMD_NODES;
  }

  /** In `{"Hostname":"cmd","Cmd":["b"]}` the string `cmd`, which is a value, is
      taken for the key: the command line is the text of the list and not its
      elements. */
  lemma StringTakenForKey(residue: int, env: Env, escapes: string -> string)
    requires Shrinks(escapes)
    ensures !KeyFirstIn(CMD_MEMBERS, IsArgs, false) && LookupMembers(CMD_MEMBERS, IsArgs, false) == Some(CMD_LIST)
    ensures Printed("" + Render(Record("", CMD_MEMBERS)) + "", "", "", CMD_MEMBERS, "")
    ensures var o := ParseText(Buffer("" + Render(Record("", CMD_MEMBERS)) + "", residue), Filling(MAX_TOKENS));
      && (o.result.Count? ==> Fits(o.m.toks, |o.buf.js|))
      && ReadTokens(o, env, Unescaper(escapes)) == Config(Some(["[\"b\"]"]), None, env)
  {
    hide NodesOfMembers, WalkNodes, ReadTokens, ParseText, Fits, Unescaper, Render, WellFormed, TokensOf, Laid, Places;
    CmdNames();
    CmdClean();
    CmdWellFormed();
    CmdTokens();
    TextIsNodes("" + Render(Record("", CMD_MEMBERS)) + "", "", "", CMD_MEMBERS, "", residue, env, escapes);
    CmdWalk(Places("", "", CMD_MEMBERS), env);
  }

  /* ---- an environment entry with children ---- */

  const ENV_INNER := Member("", "Cwd", "", "", Text("a=b"), "", NoMembers)
  const ENV_ITEMS := Item("", Record("", ENV_INNER), "", NoItems)
  const ENV_MEMBERS := Member("", "Env", "", "", List("", ENV_ITEMS), "", NoMembers)
  const ENV_TEXT := "{\"Env\":[{\"Cwd\":\"a=b\"}]}"
  const ENV_TOKENS := [Token(Object, 0, 23, 1), Token(String, 2, 5, 1), Token(Array, 7, 22, 1), Token(Object, 8, 21, 1),
                       Token(String, 10, 13, 1), Token(String, 16, 19, 0)]

  lemma InnerRenders()
    ensures Render(Record("", ENV_INNER)) == "{\"Cwd\":\"a=b\"}"
  {
    assert RenderMembers(ENV_INNER) == "" + Quoted("Cwd") + "" + ":" + "" + Quoted("a=b") + ("" + "") + "";
    assert RenderMembers(ENV_INNER) == "\"Cwd\":\"a=b\"";
  }

  lemma ListRenders()
    ensures Render(List("", ENV_ITEMS)) == "[{\"Cwd\":\"a=b\"}]"
  {
    InnerRenders();
    hide Quoted, RenderMembers;
    assert RenderItems(ENV_ITEMS) == "" + Render(Record("", ENV_INNER)) + ("" + "") + "";
    assert RenderItems(ENV_ITEMS) == "{\"Cwd\":\"a=b\"}";
  }

  lemma MembersRender()
    ensures RenderMembers(ENV_MEMBERS) == "\"Env\":[{\"Cwd\":\"a=b\"}]"
  {
    ListRenders();
    hide Render;
    assert Quoted("Env") == "\"Env\"";
    hide Quoted;
    assert RenderMembers(ENV_MEMBERS) ==
           "" + Quoted("Env") + "" + ":" + "" + Render(List("", ENV_ITEMS)) + ("" + "") + "";
  }

  lemma EnvRenders()
    ensures Render(Record("", ENV_MEMBERS)) == ENV_TEXT
  {
    MembersRender();
    hide RenderMembers, RenderItems;
  }

  lemma EnvWellFormed()
    ensures WellFormed(Record("", ENV_MEMBERS))
  {
    hide PlainBody;
    OrdinaryBody("Env");
    OrdinaryBody("Cwd");
    OrdinaryBody("a=b");
    assert WellFormed(Record("", ENV_INNER));
    assert WellFormedItems(ENV_ITEMS);
    assert WellFormed(List("", ENV_ITEMS));
  }

  lemma InnerTokens()
    ensures TokensOf(Record("", ENV_INNER), 8) == ENV_TOKENS[3..]
  {
    InnerRenders();
    hide Render;
    assert TokensOfMembers(ENV_INNER, 9) == ENV_TOKENS[4..];
  }

  lemma ListTokens()
    ensures TokensOf(List("", ENV_ITEMS), 7) == ENV_TOKENS[2..]
  {
    ListRenders();
    InnerTokens();
    hide Render, TokensOfMembers;
    assert TokensOfItems(ENV_ITEMS, 8) == ENV_TOKENS[3..];
  }

  lemma EnvTokens()
    ensures TokensOf(Record("", ENV_MEMBERS), 0) == ENV_TOKENS
  {
    EnvRenders();
    ListTokens();
    hide Render, TokensOfItems;
    assert TokensOfMembers(ENV_MEMBERS, 1) == ENV_TOKENS[1..];
  }

  const ENV_ENTRY := "{\"Cwd\":\"a=b\"}"
  const ENV_CUT := ENV_TEXT[21 := '\0'][17 := '\0']

  lemma EqualsSign()
    ensures CString(ENV_ENTRY) == ENV_ENTRY && EqualsAt(ENV_ENTRY) == 9
  {
    hide CString, EqualsAt;
    assert ENV_ENTRY[9] == '=';
    EqualsFirst(ENV_ENTRY, 9);
  }

  lemma {:induction false} EqualsFirst(s: string, k: nat)
    requires k < |s| && s[k] == '=' && '=' !in s[..k]
    ensures EqualsAt(s) == k
    decreases k
  {
    if k > 0 {
      assert s[0] in s[..k] && s[1..][..k - 1] == s[..k][1..];
      EqualsFirst(s[1..], k - 1);
    }
  }

  lemma EntryCuts(env: Env, un: string -> string)
    requires Identity(un) && Shrinks(un) && Fits(ENV_TOKENS, |ENV_TEXT|)
    ensures EnvAfter(ENV_TEXT, env, ENV_TOKENS, 2, 1, un).0 == ENV_CUT
  {
    hide CString, EqualsAt, AddEntry;
    var t := ENV_TOKENS[3];
    assert Slice(ENV_TEXT, t) == ENV_ENTRY;
    EqualsSign();
    EnvAfterStart(ENV_TEXT, env, ENV_TOKENS, 2, un);
    EnvAfterStep(ENV_TEXT, env, ENV_TOKENS, 2, 1, un);
    assert Overwrite(ENV_TEXT, 8, ENV_ENTRY) == ENV_TEXT;
    assert ENV_TEXT[21 := '\0'][21 := '\0'] == ENV_TEXT[21 := '\0'];
  }

  /** A token that is no string, or whose string is none of the names, is passed over. */
  lemma TurnPasses(r: Reader, toks: seq<Token>, i: nat, un: string -> string)
    requires Fits(toks, |r.data|) && i < |toks| && Shrinks(un) && !AllParsed(r)
    requires toks[i].kind == String ==>
               var s := Slice(r.data, toks[i]); !IsEnv(s) && !IsArgs(s) && !IsDir(s) && !IsEntry(s)
    ensures Walk(r, toks, i, un) == Walk(r, toks, i + 1, un)
  {
    hide SameName, EnvAfter, ArgsOf, TextOf;
  }

  lemma TurnReadsEnv(r: Reader, toks: seq<Token>, i: nat, un: string -> string)
    requires Fits(toks, |r.data|) && i + 1 < |toks| && Shrinks(un) && !r.parsedEnv
    requires toks[i].kind == String && IsEnv(Slice(r.data, toks[i])) && toks[i + 1].kind == Array
    ensures var (data, env) := EnvAfter(r.data, r.env, toks, i + 1, toks[i + 1].size, un);
      data[toks[i].start..toks[i].end] == Slice(r.data, toks[i]) ==>
        Walk(r, toks, i, un) == Walk(r.(data := data, env := env, parsedEnv := true), toks, i + 1, un)
  {
    hide SameName, EnvAfter, ArgsOf, TextOf;
    NamesDiffer(Slice(r.data, toks[i]));
  }

  lemma TurnReadsDir(r: Reader, toks: seq<Token>, i: nat, un: string -> string)
    requires Fits(toks, |r.data|) && i + 1 < |toks| && Shrinks(un) && !r.parsedDir
    requires toks[i].kind == String && IsDir(Slice(r.data, toks[i]))
    ensures Walk(r, toks, i, un) ==
            Walk(r.(workdir := TextOf(r.data, toks[i + 1], un), parsedDir := true), toks, i + 1, un)
  {
    hide SameName, EnvAfter, ArgsOf, TextOf;
    NamesDiffer(Slice(r.data, toks[i]));
  }

  lemma ThreeAt(s: string, i: nat, t: string)
    requires |t| == 3 && i + 3 <= |s| && s[i] == t[0] && s[i + 1] == t[1] && s[i + 2] == t[2]
    ensures s[i..i + 3] == t
  {
  }

  lemma TokensFit()
    ensures |ENV_TEXT| == 23 && |ENV_CUT| == 23 && Fits(ENV_TOKENS, 23)
  {
  }

  lemma CutReads(un: string -> string)
    requires Identity(un)
    ensures |ENV_CUT| == 23 && Fits(ENV_TOKENS, 23)
    ensures Slice(ENV_TEXT, ENV_TOKENS[1]) == "Env" && ENV_CUT[2..5] == "Env"
    ensures Slice(ENV_CUT, ENV_TOKENS[4]) == "Cwd" && Slice(ENV_CUT, ENV_TOKENS[5]) == "a\0b"
    ensures TextOf(ENV_CUT, ENV_TOKENS[5], un) == Some("a")
  {
    hide Fits, CString;
    TokensFit();
    ThreeAt(ENV_TEXT, 2, "Env");
    ThreeAt(ENV_CUT, 2, "Env");
    ThreeAt(ENV_CUT, 10, "Cwd");
    ThreeAt(ENV_CUT, 16, "a\0b");
    CStringStops("a\0b", 1);
    assert "a\0b"[..1] == "a";
  }

  lemma EnvWalk(env: Env, un: string -> string)
    requires Identity(un) && Shrinks(un)
    ensures |ENV_TEXT| == 23 && Fits(ENV_TOKENS, 23)
    ensures var o := Walk(Begin(ENV_TEXT, env), ENV_TOKENS, 1, un);
      o.Some? && o.value.args == None && o.value.entry == None && o.value.workdir == Some("a")
  {
    hide Fits, Slice, TextOf, EnvAfter, SameName, Identity, Walk;
    CutReads(un);
    EntryCuts(env, un);
    NamesApart();
    var r := Begin(ENV_TEXT, env);
    var r1 := r.(data := ENV_CUT, env := EnvAfter(ENV_TEXT, env, ENV_TOKENS, 2, 1, un).1, parsedEnv := true);
    TurnReadsEnv(r, ENV_TOKENS, 1, un);
    DirWalk(r1, un);
  }

  lemma DirWalk(r: Reader, un: string -> string)
    requires Identity(un) && Shrinks(un) && r.data == ENV_CUT && r.parsedEnv && !r.parsedArgs && !r.parsedDir
    ensures |ENV_CUT| == 23 && Fits(ENV_TOKENS, 23)
    ensures Walk(r, ENV_TOKENS, 2, un) == Some(r.(workdir := Some("a"), parsedDir := true))
  {
    hide Fits, Slice, TextOf, SameName, Identity, Walk;
    CutReads(un);
    NamesApart();
    var r1 := r.(workdir := Some("a"), parsedDir := true);
    TurnPasses(r, ENV_TOKENS, 2, un);
    TurnPasses(r, ENV_TOKENS, 3, un);
    TurnReadsDir(r, ENV_TOKENS, 4, un);
    TurnPasses(r1, ENV_TOKENS, 5, un);
    WalkedOut(r1, ENV_TOKENS, un);
  }

  lemma WalkedOut(r: Reader, toks: seq<Token>, un: string -> string)
    requires Fits(toks, |r.data|) && Shrinks(un)
    ensures Walk(r, toks, |toks|, un) == Some(r)
  {
  }

  lemma NamesApart()
    ensures IsEnv("Env") && IsDir("Cwd") && !IsDir("a\0b") && !IsArgs("a\0b") && !IsEnv("a\0b") && !IsEntry("a\0b")
  {
    assert "a\0b"[0] == 'a' && "a\0b"[1] == '\0';
  }

  lemma EnvLookUp()
    ensures ChosenDir(ENV_MEMBERS) == Some("a=b")
  {
    hide Render;
    NamesApart();
    NamesDiffer("Env");
    assert LookupMembers(ENV_INNER, IsDir, false) == Some(Text("a=b"));
    assert LookupItems(ENV_ITEMS, IsDir, false) == Some(Text("a=b"));
    assert LookupMembers(ENV_MEMBERS, IsDir, false) == Some(Text("a=b"));
  }

  lemma EnvRead(residue: int, env: Env, un: string -> string)
    requires Identity(un) && Shrinks(un)
    ensures var o := ParseText(Buffer("" + Render(Record("", ENV_MEMBERS)) + "", residue), Filling(MAX_TOKENS));
      && (o.result.Count? ==> Fits(o.m.toks, |o.buf.js|))
      && var config := ReadTokens(o, env, un);
         config.Config? && config.argv == None && config.workdir == Some("a")
  {
    hide Walk, ReadTokens, ParseText, Fits, Render, WellFormed, TokensOf, Identity, Shrinks;
    EnvRenders();
    EnvWellFormed();
    EnvTokens();
    TokenizePrinted("", Record("", ENV_MEMBERS), "", residue, MAX_TOKENS);
    EnvWalk(env, un);
    assert "" + Render(Record("", ENV_MEMBERS)) + "" == ENV_TEXT;
    ReadUnfold(ParseText(Buffer(ENV_TEXT, residue), Filling(MAX_TOKENS)), env, un);
  }

  /** In `{"Env":[{"Cwd":"a=b"}]}` cutting the entry, which is an object, cuts the
      string inside it: the working directory is `a` and not `a=b`. */
  lemma EntryWithChildren(residue: int, env: Env, escapes: string -> string)
    requires Shrinks(escapes)
    ensures Printed("" + Render(Record("", ENV_MEMBERS)) + "", "", "", ENV_MEMBERS, "")
    ensures ChosenDir(ENV_MEMBERS) == Some("a=b")
    ensures var o := ParseText(Buffer("" + Render(Record("", ENV_MEMBERS)) + "", residue), Filling(MAX_TOKENS));
      && (o.result.Count? ==> Fits(o.m.toks, |o.buf.js|))
      && var config := ReadTokens(o, env, Unescaper(escapes));
         config.Config? && config.argv == None && config.workdir == Some("a")
  {
    hide *;
    EnvPrinted();
    EnvLookUp();
    EnvRead(residue, env, Unescaper(escapes));
  }

  lemma EnvPrinted()
    ensures Printed("" + Render(Record("", ENV_MEMBERS)) + "", "", "", ENV_MEMBERS, "")
  {
    hide Render, WellFormed, TokensOf;
    EnvRenders();
    EnvWellFormed();
    EnvTokens();
  }

  /* ---- a command inside an environment entry ---- */

  const IN_ITEMS := Item("", Text("a=b"), "", NoItems)
  const IN_LIST := List("", IN_ITEMS)
  const IN_INNER := Member("", "Cmd", "", "", IN_LIST, "", NoMembers)
  const IN_ENTRY := Record("", IN_INNER)
  const IN_ENV := List("", Item("", IN_ENTRY, "", NoItems))
  const IN_MEMBERS := Member("", "Env", "", "", IN_ENV, "", NoMembers)
  const IN_TEXT := "{\"Cmd\":[\"a=b\"]}"
  const IN_PLACES: seq<int> := [2, 7, 8, 10, 15, 17]

  lemma InListRenders()
    ensures Render(IN_LIST) == "[\"a=b\"]"
  {
    assert RenderItems(IN_ITEMS) == "" + Quoted("a=b") + ("" + "") + "";
    assert RenderItems(IN_ITEMS) == "\"a=b\"";
  }

  lemma InEntryRenders()
    ensures Render(IN_ENTRY) == IN_TEXT
  {
    InListRenders();
    hide RenderItems;
    assert RenderMembers(IN_INNER) == "" + Quoted("Cmd") + "" + ":" + "" + Render(IN_LIST) + ("" + "") + "";
    assert RenderMembers(IN_INNER) == "\"Cmd\":[\"a=b\"]";
  }

  lemma InEnvRenders()
    ensures |Render(IN_ENV)| == 17 && '\\' !in Render(IN_ENV)
  {
    InEntryRenders();
    hide RenderMembers;
    assert RenderItems(IN_ENV.items) == "" + Render(IN_ENTRY) + ("" + "") + "";
    assert RenderItems(IN_ENV.items) == IN_TEXT;
  }

  lemma InNodes()
    ensures NodesOfMembers(IN_MEMBERS) ==
            [Node(String, "Env", 1), Node(Array, Render(IN_ENV), 1), Node(Object, IN_TEXT, 1), Node(String, "Cmd", 1),
             Node(Array, "[\"a=b\"]", 1), Node(String, "a=b", 0)]
  {
    InListRenders();
    InEntryRenders();
    hide Render;
    assert NodesOfItems(IN_ITEMS) == [Node(String, "a=b", 0)];
    assert NodesOf(IN_LIST) == [Node(Array, "[\"a=b\"]", 1), Node(String, "a=b", 0)];
    assert NodesOfMembers(IN_INNER) == [Node(String, "Cmd", 1)] + NodesOf(IN_LIST);
    assert NodesOf(IN_ENTRY) == [Node(Object, IN_TEXT, 1)] + NodesOfMembers(IN_INNER);
    assert NodesOf(IN_ENV) == [Node(Array, Render(IN_ENV), 1)] + NodesOf(IN_ENTRY);
  }

  lemma InInnerPlaces()
    ensures Starts(TokensOfMembers(IN_INNER, 9)) == [10, 15, 17]
  {
    InListRenders();
    hide Render;
    assert Starts(TokensOf(IN_LIST, 15)) == [15, 17];
  }

  lemma InPlaces()
    ensures Places("", "", IN_MEMBERS) == IN_PLACES
  {
    InEntryRenders();
    InInnerPlaces();
    hide Render;
    assert Starts(TokensOf(IN_ENTRY, 8)) == [8, 10, 15, 17];
    hide TokensOfMembers;
    assert Starts(TokensOf(IN_ENV, 7)) == [7, 8, 10, 15, 17];
    InOuterPlaces();
  }

  lemma InOuterPlaces()
    requires Starts(TokensOf(IN_ENV, 7)) == [7, 8, 10, 15, 17]
    ensures Places("", "", IN_MEMBERS) == IN_PLACES
  {
    hide TokensOf;
  }

  lemma InPrinted()
    ensures Printed("" + Render(Record("", IN_MEMBERS)) + "", "", "", IN_MEMBERS, "")
  {
    InClean();
    InWellFormed();
    InTokens();
    hide Render, WellFormed, TokensOf;
  }

  lemma InClean()
    ensures '\\' !in "" + Render(Record("", IN_MEMBERS)) + ""
  {
    InEnvRenders();
    hide RenderItems;
    assert '\\' !in RenderMembers(IN_MEMBERS);
  }

  lemma InWellFormed()
    ensures WellFormed(Record("", IN_MEMBERS))
  {
    hide PlainBody;
    OrdinaryBody("Env");
    OrdinaryBody("Cmd");
    OrdinaryBody("a=b");
    assert WellFormed(IN_LIST);
    assert WellFormed(IN_ENTRY);
    assert WellFormed(IN_ENV);
  }

  lemma InTokens()
    ensures |TokensOf(Record("", IN_MEMBERS), 0)| == 7
  {
    InPlaces();
    hide TokensOfMembers, Render;
  }

  lemma InEquals()
    ensures CString(IN_TEXT) == IN_TEXT && EqualsAt(IN_TEXT) == 10
  {
    hide CString, EqualsAt;
    assert IN_TEXT[10] == '=';
    EqualsFirst(IN_TEXT, 10);
  }

  /** Reading the entry puts a NUL in place of the `=` inside it. */
  lemma InCutAt(ns: seq<Node>)
    requires |ns| == 6 && ns[2].text == IN_TEXT
    ensures CutAt(ns, IN_PLACES, 2) == Pierce(Pierce(ns, IN_PLACES, 23), IN_PLACES, 18)
  {
    hide CString, EqualsAt, Pierce;
    InEquals();
  }

  predicate InShape(ns: seq<Node>) {
    && |ns| == 6 && ns[0].text == "Env" && ns[1].kind == Array && ns[1].size == 1
    && ns[2].kind == Object && ns[2].size == 1 && ns[2].text == IN_TEXT && ns[3] == Node(String, "Cmd", 1)
    && ns[4].kind == Array && ns[4].size == 1 && ns[5] == Node(String, "a=b", 0)
  }

  lemma InCut(ns: seq<Node>)
    requires InShape(ns) && Hit(ns, IsEnv, true)
    ensures var cut := Cleared(ns, IN_PLACES);
      && cut[1].kind == Array && cut[2].kind == Object && cut[3] == Node(String, "Cmd", 1)
      && cut[4].kind == Array && cut[4].size == 1 && cut[5] == Node(String, "a\0b", 0)
  {
    hide Hit, CutAt;
    InCutAt(ns);
    assert Cut(ns, IN_PLACES, map[], 0).0 == ns;
    assert Cleared(ns, IN_PLACES) == CutAt(ns, IN_PLACES, 2);
    var once := Pierce(ns, IN_PLACES, 23);
    assert once[3] == ns[3] && once[5] == ns[5];
    assert Pierced(ns[5], 17, 18).text == "a\0b";
  }

  lemma InFind(cut: seq<Node>)
    requires |cut| == 6 && cut[1].kind == Array && cut[2].kind == Object && cut[3] == Node(String, "Cmd", 1)
    requires cut[4].kind == Array && cut[4].size == 1 && cut[5] == Node(String, "a\0b", 0)
    ensures Find(cut[1..], IsArgs, false) == Some(cut[3..]) && Find(cut[1..], IsEntry, false) == None
    ensures VectorAt(cut[3..][1..]) == Some(Some(["a"]))
  {
    assert SameName("Cmd", "Cmd");
    assert cut[1..][1..] == cut[2..] && cut[2..][1..] == cut[3..];
    assert Find(cut[2..], IsArgs, false) == Some(cut[3..]);
    NothingCalled(cut[1..], IsEntry, false);
    CStringStops("a\0b", 1);
    assert "a\0b"[..1] == "a";
    assert cut[3..][1..][1..][0] == cut[5];
    assert Texts(cut[3..][1..][1..], 1) == ["a"];
  }

  lemma InMeets(ns: seq<Node>)
    requires InShape(ns) && Hit(ns, IsEnv, true)
    ensures VectorFrom(Meets(ns, IN_PLACES, IsArgs, false)) == Some(Some(["a"]))
    ensures Meets(ns, IN_PLACES, IsEntry, false) == None
  {
    hide Cleared, Meets, VectorAt, Find;
    InCut(ns);
    InFind(Cleared(ns, IN_PLACES));
    NamesDiffer("Env");
    assert IsEnv("Env");
    MeetsUnfold(ns, IN_PLACES, IsArgs);
    MeetsUnfold(ns, IN_PLACES, IsEntry);
  }

  lemma InHit()
    ensures var ns := NodesOfMembers(IN_MEMBERS);
      InShape(ns) && Hit(ns, IsEnv, true) && EndAt(ns, IN_PLACES, 1) == 24
  {
    InNodes();
    InEnvRenders();
    hide NodesOfMembers, Render;
    assert IsEnv("Env");
  }

  lemma InNotSpared(ns: seq<Node>)
    requires InShape(ns) && Hit(ns, IsEnv, true) && EndAt(ns, IN_PLACES, 1) == 24
    ensures !Spared(ns, IN_PLACES, IsArgs)
  {
    hide Find, SameName;
    assert IsArgs("Cmd") && !IsArgs("Env") by { InNames(); }
    FindHits(ns, IsEnv, true);
    assert ns[3..][0] == ns[3];
    FindHits(ns[3..], IsArgs, false);
    FindUnfold(ns, IsArgs, false);
    FindUnfold(ns[1..], IsArgs, false);
    FindUnfold(ns[2..], IsArgs, false);
    assert ns[1..][1..] == ns[2..] && ns[2..][1..] == ns[3..];
    assert ns[2..][0].size == 1;
  }

  lemma InNames()
    ensures IsArgs("Cmd") && !IsArgs("Env")
  {
    NamesDiffer("Env");
    assert IsEnv("Env") && SameName("Cmd", "Cmd");
  }

  /** In `{"Env":[{"Cmd":["a=b"]}]}` cutting the entry cuts the command inside it:
      the command line is `a` and not `a=b`. */
  lemma CommandInEntry(residue: int, env: Env, escapes: string -> string)
    requires Shrinks(escapes)
    ensures Printed("" + Render(Record("", IN_MEMBERS)) + "", "", "", IN_MEMBERS, "")
    ensures !SparesLine("", "", IN_MEMBERS)
    ensures LookupMembers(IN_MEMBERS, IsArgs, false) == Some(IN_LIST) && Contents(IN_ITEMS) == ["a=b"]
    ensures var o := ParseText(Buffer("" + Render(Record("", IN_MEMBERS)) + "", residue), Filling(MAX_TOKENS));
      && (o.result.Count? ==> Fits(o.m.toks, |o.buf.js|))
      && var config := ReadTokens(o, env, Unescaper(escapes));
         config.Config? && config.argv == Some(["a"])
  {
    hide NodesOfMembers, ReadTokens, ParseText, Fits, Unescaper, Render, WellFormed, TokensOf, Places, Meets, Printed;
    hide Spared, InShape, LookupMembers, Contents;
    InPrinted();
    InPlaces();
    InHit();
    InNotSpared(NodesOfMembers(IN_MEMBERS));
    InMeets(NodesOfMembers(IN_MEMBERS));
    InLookUp();
    ConfigDelivered("" + Render(Record("", IN_MEMBERS)) + "", "", "", IN_MEMBERS, "", residue, env, escapes);
  }

  lemma InLookUp()
    ensures LookupMembers(IN_MEMBERS, IsArgs, false) == Some(IN_LIST) && Contents(IN_ITEMS) == ["a=b"]
  {
    NamesDiffer("Env");
    assert IsEnv("Env") && IsArgs("Cmd");
    assert LookupMembers(IN_INNER, IsArgs, false) == Some(IN_LIST);
    assert Lookup(IN_ENTRY, IsArgs, false) == Some(IN_LIST);
    assert LookupItems(IN_ENV.items, IsArgs, false) == Some(IN_LIST);
  }
}
