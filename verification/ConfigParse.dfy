/** The loops of the configuration reader, on the arrays they work on: the text
    is cut in place, and argument vectors are filled cell by cell and ended with
    NULL.  Each is proved against its function in ConfigReader. */
module ConfigParse {
  import opened Options
  import opened JsonLexing
  import opened JsonMachine
  import opened JsmnParser
  import opened ConfigReader
  import opened ConfigEnv

  /** A `char **` of `MAX_ARGS` cells; `None` is NULL. */
  type Vector = array<Option<string>>

  ghost predicate Holds(v: array?<Option<string>>, args: Option<seq<string>>)
    reads v
  {
    match args
    case None => v == null
    case Some(list) =>
      && v != null && v.Length == MAX_ARGS && |list| < MAX_ARGS && v[|list|] == None
      && forall i :: 0 <= i < |list| ==> v[i] == Some(list[i])
  }

  /** `unescape_string` on the `len` characters at `at`: the loop copies characters
      over themselves up to the first backslash, and a NUL ends what was written. */
  method UnescapeString(data: array<char>, at: nat, len: nat, escapes: string -> string)
    requires at + len <= data.Length && Shrinks(escapes)
    modifies data
    ensures var u := Unescape(old(data[at..at + len]), escapes);
            |u| <= len && data[..] == PutNul(Overwrite(old(data[..]), at, u), at + |u|)
  {
    hide Overwrite, PutNul;
    ghost var s := data[at..at + len];
    var i, val := 0, at;
    while val < at + len && data[val] != '\\'
      invariant 0 <= i <= len && val == at + i && data[..] == old(data[..])
      invariant '\\' !in s[..i]
    {
      assert s[..i + 1] == s[..i] + [s[i]] && s[i] == data[val];
      data[at + i] := data[val];
      i, val := i + 1, val + 1;
    }
    UnescapePrefix(s, i, escapes);
    UnescapeShrinks(s, escapes);
    var tail := if val < at + len then escapes(data[val..at + len]) else [];
    assert data[val..at + len] == s[i..];
    ghost var u := Unescape(s, escapes);
    assert u == s[..i] + tail;
    WriteOver(data, val, tail);
    OverwriteTwice(old(data[..]), at, s[..i], tail);
    if val + |tail| < data.Length { data[val + |tail|] := '\0'; }
    PutNulIs(Overwrite(old(data[..]), at, u), at + |u|);
  }

  lemma PutNulIs(data: string, i: nat)
    requires i <= |data|
    ensures PutNul(data, i) == if i < |data| then data[i := '\0'] else data
  {
  }

  lemma OverwriteTwice(data: string, at: nat, s: string, t: string)
    requires at + |s| + |t| <= |data| && data[at..at + |s|] == s
    ensures Overwrite(data, at + |s|, t) == Overwrite(data, at, s + t)
  {
  }

  method WriteOver(data: array<char>, at: nat, u: string)
    requires at + |u| <= data.Length
    modifies data
    ensures data[..] == Overwrite(old(data[..]), at, u)
  {
    var i := 0;
    while i < |u|
      invariant 0 <= i <= |u|
      invariant data[..] == Overwrite(old(data[..]), at, u[..i])
    {
      data[at + i] := u[i];
      i := i + 1;
    }
    assert u[..i] == u;
  }

  /** A fresh copy of a token's text, unescaped, as C reads it. */
  method CopyText(data: array<char>, t: Token, escapes: string -> string) returns (text: string)
    requires 0 <= t.start <= t.end <= data.Length && Shrinks(escapes)
    ensures text == CString(Unescaper(escapes)(Slice(data[..], t)))
  {
    hide CString, Overwrite;
    var len := t.end - t.start;
    var arg := new char[len + 1](i requires 0 <= i <= len reads data =>
      if t.start + i < data.Length && i < len then data[t.start + i] else '\0');
    assert arg[..len] == Slice(data[..], t);
    assert arg[0..0 + len] == arg[..len];
    ghost var before := arg[..];
    ghost var u := Unescape(arg[..len], escapes);
    UnescapeString(arg, 0, len, escapes);
    CopyReads(before, u);
    text := CString(arg[..]);
  }

  lemma CopyReads(s: string, u: string)
    requires |u| < |s|
    ensures CString(PutNul(Overwrite(s, 0, u), |u|)) == CString(u)
  {
    hide CString;
    var all := PutNul(Overwrite(s, 0, u), |u|);
    assert all[..|u|] == u;
    CStringStops(all, |u|);
  }

  /** A NUL behind the entry, and one in the place of its `=`. */
  method CutAt(data: array<char>, end: nat, equals: nat)
    requires end <= data.Length && equals < data.Length
    modifies data
    ensures data[..] == PutNul(PutNul(old(data[..]), end), equals)
  {
    if end < data.Length { data[end] := '\0'; }
    data[equals] := '\0';
  }

  /** One turn of `config_parse_env`. */
  method ParseEntry(data: array<char>, t: Token, env: Env, escapes: string -> string) returns (env': Env)
    requires 0 <= t.start <= t.end <= data.Length && Shrinks(escapes)
    modifies data
    ensures var u := Unescaper(escapes)(Slice(old(data[..]), t));
            && data[..] == CutEntry(old(data[..]), t, u) && env' == AddEntry(env, CString(u))
            && forall name :: VariableIn(env', name) == Taken(VariableIn(env, name), CString(u), name)
  {
    hide Taken, CString, EqualsAt, SetEnv, Overwrite, PutNul, Unescape, Unescaper, Shrinks;
    var u := Unescape(data[t.start..t.end], escapes);
    assert Slice(data[..], t) == data[t.start..t.end];
    UnescapeString(data, t.start, t.end - t.start, escapes);
    var entry := CString(u);
    forall name ensures VariableIn(AddEntry(env, entry), name) == Taken(VariableIn(env, name), entry, name) {
      EntrySets(env, entry, name);
    }
    var k := EqualsAt(entry);
    if k == |entry| { return env; }
    CutAt(data, t.end, t.start + k);
    return SetEnv(env, entry[..k], entry[k + 1..]);
  }

  /** `config_parse_env` on the array token `t`. */
  method ParseEnv(data: array<char>, tokens: array<Token>, n: nat, t: nat, env: Env, escapes: string -> string)
    returns (env': Env)
    requires n <= tokens.Length && t < n && Fits(tokens[..n], data.Length) && Shrinks(escapes)
    modifies data
    ensures (data[..], env') == EnvAfter(old(data[..]), env, tokens[..n], t, tokens[t].size, Unescaper(escapes))
  {
    hide CutEntry, AddEntry, EnvAfter, CString;
    ghost var toks := tokens[..n];
    env' := env;
    var i := 0;
    EnvAfterStart(data[..], env, toks, t, Unescaper(escapes));
    while i < tokens[t].size
      invariant 0 <= i <= tokens[t].size
      invariant (data[..], env') == EnvAfter(old(data[..]), env, toks, t, i, Unescaper(escapes))
    {
      EnvAfterStep(old(data[..]), env, toks, t, i + 1, Unescaper(escapes));
      env' := ParseEntry(data, tokens[t + 1 + i], env', escapes);
      i := i + 1;
    }
  }

  /** `config_parse_args` on token `t`; not `ok` if the vector is too small. */
  method ParseArgs(data: array<char>, tokens: array<Token>, n: nat, t: nat, escapes: string -> string)
    returns (ok: bool, argv: array?<Option<string>>)
    requires n <= tokens.Length && t < n && Fits(tokens[..n], data.Length) && Shrinks(escapes)
    ensures match ArgsOf(data[..], tokens[..n], t, Unescaper(escapes))
            case None => !ok
            case Some(args) => ok && Holds(argv, args) && (argv != null ==> fresh(argv))
  {
    hide CString, ArgsAfter, Unescape, Unescaper, Shrinks, Slice;
    ghost var toks := tokens[..n];
    var v := new Option<string>[MAX_ARGS];
    var j := 0;
    while j < tokens[t].size
      invariant 0 <= j <= tokens[t].size && j <= MAX_ARGS
      invariant forall i :: 0 <= i < j ==> v[i] == Some(ArgsAfter(data[..], toks, t, j, Unescaper(escapes))[i])
    {
      if j == MAX_ARGS { return false, null; }
      ArgsAfterStep(data[..], toks, t, j + 1, Unescaper(escapes));
      var arg := CopyText(data, tokens[t + 1 + j], escapes);
      v[j] := Some(arg);
      j := j + 1;
    }
    if j == 0 { return true, null; }
    if j == MAX_ARGS { return false, null; }
    v[j] := None;
    return true, v;
  }

  /** `concat_entrypoint_argv`. */
  method ConcatArgv(entry: Vector, args: Vector, ghost xs: seq<string>, ghost ys: seq<string>)
    returns (ok: bool, argv: array?<Option<string>>)
    requires Holds(entry, Some(xs)) && Holds(args, Some(ys))
    ensures match Joined(Some(xs), Some(ys))
            case None => !ok
            case Some(list) => ok && Holds(argv, list)
  {
    var v := new Option<string>[MAX_ARGS];
    var i := 0;
    while i < MAX_ARGS && entry[i].Some?
      invariant 0 <= i <= |xs|
      invariant forall k :: 0 <= k < i ==> v[k] == Some(xs[k])
    {
      v[i] := entry[i];
      i := i + 1;
    }
    var j := 0;
    while j < MAX_ARGS && args[j].Some?
      invariant 0 <= j <= |ys| && i == |xs| + j <= MAX_ARGS
      invariant forall k :: 0 <= k < i ==> v[k] == Some((xs + ys)[k])
    {
      if i == MAX_ARGS { return false, null; }
      v[i] := args[j];
      i := i + 1;
      j := j + 1;
    }
    if i == MAX_ARGS { return false, null; }
    v[i] := None;
    return true, v;
  }

  /** The local variables of `config_parse_file`. */
  datatype Locals = Locals(env: Env, parsedEnv: bool, parsedArgs: bool, parsedDir: bool, parsedEntry: bool,
                           args: array?<Option<string>>, entry: array?<Option<string>>,
                           workdir: Option<string>)

  /** They stand for `r`, whose text is kept elsewhere. */
  ghost predicate Is(l: Locals, r: Reader)
    reads l.args, l.entry
  {
    && l.env == r.env && l.parsedEnv == r.parsedEnv && l.parsedArgs == r.parsedArgs
    && l.parsedDir == r.parsedDir && l.parsedEntry == r.parsedEntry
    && Holds(l.args, r.args) && Holds(l.entry, r.entry) && l.workdir == r.workdir
  }

  method EnvTurn(data: array<char>, tokens: array<Token>, n: nat, i: nat, escapes: string -> string,
                 l: Locals, ghost r: Reader)
    returns (l': Locals)
    requires n <= tokens.Length && i < n && Fits(tokens[..n], data.Length) && Shrinks(escapes)
    requires r.data == data[..] && Is(l, r)
    modifies data
    ensures var r' := VisitEnv(r, tokens[..n], i, Unescaper(escapes));
            Is(l', r') && data[..] == r'.data
  {
    hide EnvAfter;
    l' := l;
    if !l.parsedEnv && Named(data[..], tokens[i], "Env") && i + 1 < n && tokens[i + 1].kind == Array {
      var env := ParseEnv(data, tokens, n, i + 1, l.env, escapes);
      l' := l.(env := env, parsedEnv := true);
    }
  }

  method ArgsTurn(data: array<char>, tokens: array<Token>, n: nat, i: nat, name: string, escapes: string -> string,
                  l: Locals, ghost r: Reader)
    returns (ok: bool, l': Locals)
    requires n <= tokens.Length && i < n && Fits(tokens[..n], data.Length) && Shrinks(escapes)
    requires r.data == data[..] && Is(l, r)
    ensures match VisitArgs(r, tokens[..n], i, name, Unescaper(escapes))
            case None => !ok
            case Some(r') => ok && Is(l', r')
  {
    hide ArgsOf;
    ok, l' := true, l;
    if !l.parsedArgs && Named(data[..], tokens[i], name) && i + 1 < n {
      var args;
      ok, args := ParseArgs(data, tokens, n, i + 1, escapes);
      l' := l.(args := args, parsedArgs := true);
    }
  }

  method DirTurn(data: array<char>, tokens: array<Token>, n: nat, i: nat, name: string, escapes: string -> string,
                 l: Locals, ghost r: Reader)
    returns (l': Locals)
    requires n <= tokens.Length && i < n && Fits(tokens[..n], data.Length) && Shrinks(escapes)
    requires r.data == data[..] && Is(l, r)
    ensures Is(l', VisitDir(r, tokens[..n], i, name, Unescaper(escapes)))
  {
    l' := l;
    if !l.parsedDir && Named(data[..], tokens[i], name) && i + 1 < n {
      var dir: Option<string> := None;
      if tokens[i + 1].start != tokens[i + 1].end {
        var text := CopyText(data, tokens[i + 1], escapes);
        dir := Some(text);
      }
      l' := l.(workdir := dir, parsedDir := true);
    }
  }

  method EntryTurn(data: array<char>, tokens: array<Token>, n: nat, i: nat, escapes: string -> string,
                   l: Locals, ghost r: Reader)
    returns (ok: bool, l': Locals)
    requires n <= tokens.Length && i < n && Fits(tokens[..n], data.Length) && Shrinks(escapes)
    requires r.data == data[..] && Is(l, r)
    ensures match VisitEntry(r, tokens[..n], i, Unescaper(escapes))
            case None => !ok
            case Some(r') => ok && Is(l', r')
  {
    hide ArgsOf;
    ok, l' := true, l;
    if !l.parsedEntry && Named(data[..], tokens[i], "Entrypoint") && i + 1 < n {
      var entry;
      ok, entry := ParseArgs(data, tokens, n, i + 1, escapes);
      l' := l.(entry := entry, parsedEntry := true);
    }
  }

  /** One turn of the loop; not `ok` when a vector overruns its cells. */
  method Turn(data: array<char>, tokens: array<Token>, n: nat, i: nat, escapes: string -> string,
              l: Locals, ghost r: Reader)
    returns (ok: bool, l': Locals)
    requires n <= tokens.Length && i < n && Fits(tokens[..n], data.Length) && Shrinks(escapes)
    requires r.data == data[..] && Is(l, r)
    modifies data
    ensures match Visit(r, tokens[..n], i, Unescaper(escapes))
            case None => !ok
            case Some(r') => ok && Is(l', r') && data[..] == r'.data
  {
    hide VisitEnv, VisitArgs, VisitDir, VisitEntry, Is;
    ghost var toks, r0 := tokens[..n], r;
    l' := EnvTurn(data, tokens, n, i, escapes, l, r0);
    r0 := VisitEnv(r0, toks, i, Unescaper(escapes));
    ok, l' := ArgsTurn(data, tokens, n, i, "args", escapes, l', r0);
    if !ok { return; }
    r0 := VisitArgs(r0, toks, i, "args", Unescaper(escapes)).value;
    ok, l' := ArgsTurn(data, tokens, n, i, "Cmd", escapes, l', r0);
    if !ok { return; }
    r0 := VisitArgs(r0, toks, i, "Cmd", Unescaper(escapes)).value;
    l' := DirTurn(data, tokens, n, i, "WorkingDir", escapes, l', r0);
    r0 := VisitDir(r0, toks, i, "WorkingDir", Unescaper(escapes));
    l' := DirTurn(data, tokens, n, i, "Cwd", escapes, l', r0);
    r0 := VisitDir(r0, toks, i, "Cwd", Unescaper(escapes));
    ok, l' := EntryTurn(data, tokens, n, i, escapes, l', r0);
  }

  /** The walk over the tokens and the join of the two vectors. */
  method WalkTokens(data: array<char>, tokens: array<Token>, n: nat, env: Env, escapes: string -> string)
    returns (ok: bool, argv: array?<Option<string>>, workdir: Option<string>, env': Env)
    requires 1 <= n <= tokens.Length && Fits(tokens[..n], data.Length) && Shrinks(escapes)
    modifies data
    ensures match Finish(Walk(Begin(old(data[..]), env), tokens[..n], 1, Unescaper(escapes)))
            case Config(list, dir, vars) => ok && Holds(argv, list) && workdir == dir && env' == vars
            case _ => !ok
  {
    hide Visit, Finish;
    argv, workdir, env' := null, None, env;
    var l := Locals(env, false, false, false, false, null, null, None);
    ghost var reader := Begin(data[..], env);
    ghost var goal := Walk(reader, tokens[..n], 1, Unescaper(escapes));
    var i := 1;
    while i < n && !(l.parsedEnv && l.parsedArgs && l.parsedDir && l.parsedEntry)
      invariant 1 <= i <= n && reader.data == data[..] && Is(l, reader)
      invariant Walk(reader, tokens[..n], i, Unescaper(escapes)) == goal
    {
      ok, l := Turn(data, tokens, n, i, escapes, l, reader);
      if !ok {
        FinishCases(goal);
        return;
      }
      reader := Visit(reader, tokens[..n], i, Unescaper(escapes)).value;
      i := i + 1;
    }
    FinishCases(goal);
    ok, argv := true, l.args;
    if l.args != null && l.entry != null {
      ok, argv := ConcatArgv(l.entry, l.args, reader.entry.value, reader.args.value);
    }
    workdir, env' := l.workdir, l.env;
  }

  lemma FinishCases(r: Option<Reader>)
    ensures Finish(r) == if r.None? || Joined(r.value.entry, r.value.args).None? then Overrun
                         else Config(Joined(r.value.entry, r.value.args).value, r.value.workdir, r.value.env)
  {
  }

  /** `config_parse_file`, given the text of the file: `status` 0 means success;
      `overrun` means a vector outgrew its `MAX_ARGS` cells on the way. */
  method ConfigParseFile(data: array<char>, residue: int, env: Env, escapes: string -> string)
    returns (status: int, overrun: bool, argv: array?<Option<string>>, workdir: Option<string>, env': Env)
    requires Shrinks(escapes)
    modifies data
    ensures var o := ParseText(Buffer(old(data[..]), residue), Filling(MAX_TOKENS));
            && (o.result.Count? ==> Fits(o.m.toks, |o.buf.js|))
            && match ReadTokens(o, env, Unescaper(escapes))
               case NoConfig => status == -1
               case Overrun => overrun
               case Config(list, dir, vars) =>
                 status == 0 && !overrun && Holds(argv, list) && workdir == dir && env' == vars
  {
    hide ParseText, Finish, Walk, Holds;
    status, overrun, argv, workdir, env' := -1, false, null, None, env;
    ghost var b := Buffer(data[..], residue);
    ghost var o := ParseText(b, Filling(MAX_TOKENS));
    if o.result.Count? { TokenizerFits(b, MAX_TOKENS); }
    var tokens := new Token[MAX_TOKENS];
    var parser := new Parser();
    ParseTextIs(b);
    assert parser.State(tokens) == Start;
    var r := parser.Parse(data, residue, tokens);
    if r.Failed? { return; }
    var n := r.tokens;
    assert tokens[..n] == o.m.toks;
    if n < 1 || tokens[0].kind != Object { return; }
    FinishCases(Walk(Begin(data[..], env), tokens[..n], 1, Unescaper(escapes)));
    var ok;
    ok, argv, workdir, env' := WalkTokens(data, tokens, n, env, escapes);
    status, overrun := if ok then 0 else -1, !ok;
  }

  lemma ParseTextIs(b: Buffer)
    ensures ParseText(b, Filling(MAX_TOKENS)) == JsonMachine.Parse(b, 0, Start, Filling(MAX_TOKENS), 0)
  {
  }
}
