/** The configuration reader of init: it walks the flat token list of a JSON
    text looking for known names, and builds the argument vector, the working
    directory and the environment.  Environment entries are cut apart in place,
    in the very text the later tokens are read from. */
module ConfigReader {
  import opened Options
  import opened JsonLexing
  import opened JsonMachine
  import JsonCounting
  import JsonSpans

  const MAX_ARGS := 32
  const MAX_TOKENS := 16384

  function Lower(c: char): char {
    if 'A' <= c <= 'Z' then (c as int + 32) as char else c
  }

  predicate SameName(a: string, b: string) {
    |a| == |b| && forall i :: 0 <= i < |a| ==> Lower(a[i]) == Lower(b[i])
  }

  /** A string as C reads it: up to its first NUL. */
  function CString(s: string): (r: string)
    ensures |r| <= |s| && r == s[..|r|] && '\0' !in r && (|r| < |s| ==> s[|r|] == '\0')
    ensures '\0' !in s ==> r == s
  {
    if s == [] || s[0] == '\0' then [] else [s[0]] + CString(s[1..])
  }

  /** What stands behind a NUL is not read. */
  lemma {:induction false} CStringStops(s: string, k: nat)
    requires k < |s| && s[k] == '\0'
    ensures CString(s) == CString(s[..k])
    decreases |s|
  {
    if k > 0 && s[0] != '\0' {
      assert s[1..][..k - 1] == s[..k][1..];
      CStringStops(s[1..], k - 1);
    }
  }

  /** `strstr(s, "=")` as an offset; the length if there is none. */
  function EqualsAt(s: string): (k: nat)
    ensures k <= |s| && '=' !in s[..k] && (k < |s| ==> s[k] == '=')
  {
    if s == [] || s[0] == '=' then 0 else 1 + EqualsAt(s[1..])
  }

  /** What the reader relies on the tokenizer for: every token lies in the text,
      and has at most as many children as there are tokens after it. */
  ghost predicate Fits(toks: seq<Token>, n: nat) {
    forall i :: 0 <= i < |toks| ==>
      0 <= toks[i].start <= toks[i].end <= n && 0 <= toks[i].size && i + toks[i].size < |toks|
  }

  ghost predicate Shrinks(un: string -> string) {
    forall s :: |un(s)| <= |s|
  }

  ghost predicate Identity(un: string -> string) {
    forall s :: '\\' !in s ==> un(s) == s
  }

  /** `unescape_string`: characters are copied up to the first backslash; what it
      makes of the text from there on is left to `escapes`. */
  function Unescape(s: string, escapes: string -> string): string {
    if s == [] then []
    else if s[0] == '\\' then escapes(s)
    else [s[0]] + Unescape(s[1..], escapes)
  }

  lemma {:induction false} UnescapeShrinks(s: string, escapes: string -> string)
    requires Shrinks(escapes)
    ensures |Unescape(s, escapes)| <= |s|
    decreases |s|
  {
    if s != [] && s[0] != '\\' {
      UnescapeShrinks(s[1..], escapes);
    }
  }

  lemma {:induction false} UnescapeCopies(s: string, escapes: string -> string)
    requires '\\' !in s
    ensures Unescape(s, escapes) == s
    decreases |s|
  {
    if s != [] {
      UnescapeCopies(s[1..], escapes);
    }
  }

  /** Unescaping never makes a string longer, and without backslashes it is the identity. */
  function Unescaper(escapes: string -> string): (un: string -> string)
    requires Shrinks(escapes)
    ensures Shrinks(un) && Identity(un)
    ensures forall s :: un(s) == Unescape(s, escapes)
  {
    UnescapeLaws(escapes);
    s => Unescape(s, escapes)
  }

  lemma UnescapeLaws(escapes: string -> string)
    requires Shrinks(escapes)
    ensures forall s :: |Unescape(s, escapes)| <= |s| && ('\\' !in s ==> Unescape(s, escapes) == s)
  {
    forall s: string
      ensures |Unescape(s, escapes)| <= |s| && ('\\' !in s ==> Unescape(s, escapes) == s)
    {
      UnescapeShrinks(s, escapes);
      if '\\' !in s { UnescapeCopies(s, escapes); }
    }
  }

  /** The text up to `k` holds no backslash: it is copied. */
  lemma {:induction false} UnescapePrefix(s: string, k: nat, escapes: string -> string)
    requires k <= |s| && '\\' !in s[..k]
    ensures Unescape(s, escapes) == s[..k] + Unescape(s[k..], escapes)
    decreases k
  {
    if k == 0 {
      assert s[..0] + Unescape(s[0..], escapes) == Unescape(s, escapes) by { assert s[0..] == s; }
    } else {
      assert s[0] in s[..k];
      assert s[1..][..k - 1] == s[..k][1..] && s[1..][k - 1..] == s[k..];
      UnescapePrefix(s[1..], k - 1, escapes);
    }
  }

  function Slice(data: string, t: Token): string
    requires 0 <= t.start <= t.end <= |data|
  {
    data[t.start..t.end]
  }

  /** `jsoneq`. */
  predicate Named(data: string, t: Token, name: string)
    requires 0 <= t.start <= t.end <= |data|
  {
    t.kind == String && SameName(Slice(data, t), name)
  }

  /* ---- the environment ---- */

  type Env = map<string, string>

  /** The cell after the text holds a NUL already. */
  function PutNul(data: string, i: nat): (r: string)
    requires i <= |data|
    ensures |r| == |data|
  {
    if i < |data| then data[i := '\0'] else data
  }

  function Overwrite(data: string, at: nat, s: string): (r: string)
    requires at + |s| <= |data|
    ensures |r| == |data|
  {
    data[..at] + s + data[at + |s|..]
  }

  /** `setenv`: `HOME` and `TERM` replace what is there. */
  function SetEnv(env: Env, name: string, value: string): Env {
    if name == "" then env
    else if name == "HOME" || name == "TERM" || name !in env then env[name := value]
    else env
  }

  /** What one `NAME=value` entry does to the environment. */
  function AddEntry(env: Env, entry: string): Env {
    var k := EqualsAt(entry);
    if k == |entry| then env else SetEnv(env, entry[..k], entry[k + 1..])
  }

  function AddEntries(env: Env, entries: seq<string>): Env {
    if entries == [] then env
    else AddEntry(AddEntries(env, entries[..|entries| - 1]), entries[|entries| - 1])
  }

  /** And to the text it is read from. */
  function CutEntry(data: string, t: Token, u: string): (r: string)
    requires 0 <= t.start <= t.end <= |data| && |u| <= t.end - t.start
    ensures |r| == |data|
  {
    var data' := PutNul(Overwrite(data, t.start, u), t.start + |u|);
    var k := EqualsAt(CString(u));
    if k == |CString(u)| then data' else PutNul(PutNul(data', t.end), t.start + k)
  }

  /** The first `n` tokens after `t`, in order: the text and environment after
      the loop of `config_parse_env`. */
  function EnvAfter(data: string, env: Env, toks: seq<Token>, t: nat, n: nat, un: string -> string)
    : (r: (string, Env))
    requires Fits(toks, |data|) && t + n < |toks| && Shrinks(un)
    ensures |r.0| == |data|
    decreases n
  {
    if n == 0 then (data, env)
    else
      var (data', env') := EnvAfter(data, env, toks, t, n - 1, un);
      var u := un(Slice(data', toks[t + n]));
      (CutEntry(data', toks[t + n], u), AddEntry(env', CString(u)))
  }

  lemma EnvAfterStart(data: string, env: Env, toks: seq<Token>, t: nat, un: string -> string)
    requires Fits(toks, |data|) && t < |toks| && Shrinks(un)
    ensures EnvAfter(data, env, toks, t, 0, un) == (data, env)
  {
  }

  lemma EnvAfterStep(data: string, env: Env, toks: seq<Token>, t: nat, n: nat, un: string -> string)
    requires Fits(toks, |data|) && t + n < |toks| && n > 0 && Shrinks(un)
    ensures var (data', env') := EnvAfter(data, env, toks, t, n - 1, un);
            var u := un(Slice(data', toks[t + n]));
            EnvAfter(data, env, toks, t, n, un) == (CutEntry(data', toks[t + n], u), AddEntry(env', CString(u)))
  {
    hide CutEntry, AddEntry, CString;
  }

  /* ---- argument vectors ---- */

  function ArgsAfter(data: string, toks: seq<Token>, t: nat, n: nat, un: string -> string): (r: seq<string>)
    requires Fits(toks, |data|) && t + n < |toks|
    ensures |r| == n
    decreases n
  {
    if n == 0 then []
    else ArgsAfter(data, toks, t, n - 1, un) + [CString(un(Slice(data, toks[t + n])))]
  }

  lemma ArgsAfterStep(data: string, toks: seq<Token>, t: nat, n: nat, un: string -> string)
    requires Fits(toks, |data|) && t + n < |toks| && n > 0
    ensures ArgsAfter(data, toks, t, n, un) ==
            ArgsAfter(data, toks, t, n - 1, un) + [CString(un(Slice(data, toks[t + n])))]
  {
  }

  /** `config_parse_args`: a list, NULL for an empty one.  `None` is a vector that
      does not fit its `MAX_ARGS` cells, the last of which must hold NULL. */
  function ArgsOf(data: string, toks: seq<Token>, t: nat, un: string -> string): Option<Option<seq<string>>>
    requires Fits(toks, |data|) && t < |toks|
  {
    var n := toks[t].size;
    if n >= MAX_ARGS then None
    else if n == 0 then Some(None)
    else Some(Some(ArgsAfter(data, toks, t, n, un)))
  }

  /** `config_parse_string`. */
  function TextOf(data: string, t: Token, un: string -> string): Option<string>
    requires 0 <= t.start <= t.end <= |data|
  {
    if t.start == t.end then None else Some(CString(un(Slice(data, t))))
  }

  /* ---- the walk ---- */

  /** The locals of `config_parse_file`: the text, the `parsed_*` flags and what
      has been found. */
  datatype Reader = Reader(data: string, env: Env, parsedEnv: bool, parsedArgs: bool, parsedDir: bool,
                           parsedEntry: bool, args: Option<seq<string>>, entry: Option<seq<string>>,
                           workdir: Option<string>)

  predicate AllParsed(r: Reader) {
    r.parsedEnv && r.parsedArgs && r.parsedDir && r.parsedEntry
  }

  function VisitEnv(r: Reader, toks: seq<Token>, i: nat, un: string -> string): (r': Reader)
    requires Fits(toks, |r.data|) && i < |toks| && Shrinks(un)
    ensures |r'.data| == |r.data|
  {
    if !r.parsedEnv && Named(r.data, toks[i], "Env") && i + 1 < |toks| && toks[i + 1].kind == Array then
      var (data, env) := EnvAfter(r.data, r.env, toks, i + 1, toks[i + 1].size, un);
      r.(data := data, env := env, parsedEnv := true)
    else r
  }

  function VisitArgs(r: Reader, toks: seq<Token>, i: nat, name: string, un: string -> string): (r': Option<Reader>)
    requires Fits(toks, |r.data|) && i < |toks|
    ensures r'.Some? ==> r'.value.data == r.data
  {
    if !r.parsedArgs && Named(r.data, toks[i], name) && i + 1 < |toks| then
      match ArgsOf(r.data, toks, i + 1, un)
      case None => None
      case Some(args) => Some(r.(args := args, parsedArgs := true))
    else Some(r)
  }

  function VisitDir(r: Reader, toks: seq<Token>, i: nat, name: string, un: string -> string): (r': Reader)
    requires Fits(toks, |r.data|) && i < |toks|
    ensures r'.data == r.data
  {
    if !r.parsedDir && Named(r.data, toks[i], name) && i + 1 < |toks| then
      r.(workdir := TextOf(r.data, toks[i + 1], un), parsedDir := true)
    else r
  }

  function VisitEntry(r: Reader, toks: seq<Token>, i: nat, un: string -> string): (r': Option<Reader>)
    requires Fits(toks, |r.data|) && i < |toks|
    ensures r'.Some? ==> r'.value.data == r.data
  {
    if !r.parsedEntry && Named(r.data, toks[i], "Entrypoint") && i + 1 < |toks| then
      match ArgsOf(r.data, toks, i + 1, un)
      case None => None
      case Some(args) => Some(r.(entry := args, parsedEntry := true))
    else Some(r)
  }

  /** One turn of the loop; `None` when a vector overruns its cells. */
  function Visit(r: Reader, toks: seq<Token>, i: nat, un: string -> string): (r': Option<Reader>)
    requires Fits(toks, |r.data|) && i < |toks| && Shrinks(un)
    ensures r'.Some? ==> |r'.value.data| == |r.data|
  {
    match VisitArgs(VisitEnv(r, toks, i, un), toks, i, "args", un)
    case None => None
    case Some(r1) =>
      match VisitArgs(r1, toks, i, "Cmd", un)
      case None => None
      case Some(r2) =>
        VisitEntry(VisitDir(VisitDir(r2, toks, i, "WorkingDir", un), toks, i, "Cwd", un), toks, i, un)
  }

  function Walk(r: Reader, toks: seq<Token>, i: nat, un: string -> string): (r': Option<Reader>)
    requires Fits(toks, |r.data|) && i <= |toks| && Shrinks(un)
    decreases |toks| - i
  {
    if i < |toks| && !AllParsed(r) then
      match Visit(r, toks, i, un)
      case None => None
      case Some(r') => Walk(r', toks, i + 1, un)
    else Some(r)
  }

  /* ---- the whole ---- */

  datatype Config =
    | NoConfig
    | Overrun
    | Config(argv: Option<seq<string>>, workdir: Option<string>, env: Env)

  function Joined(entry: Option<seq<string>>, args: Option<seq<string>>): Option<Option<seq<string>>> {
    if entry.Some? && args.Some? then
      if |entry.value| + |args.value| >= MAX_ARGS then None else Some(Some(entry.value + args.value))
    else Some(args)
  }

  function Finish(r: Option<Reader>): Config {
    match r
    case None => Overrun
    case Some(r) =>
      match Joined(r.entry, r.args)
      case None => Overrun
      case Some(argv) => Config(argv, r.workdir, r.env)
  }

  function Begin(data: string, env: Env): Reader {
    Reader(data, env, false, false, false, false, None, None, None)
  }

  /** `config_parse_file` on the text of the file. */
  function ReadTokens(o: Outcome, env: Env, un: string -> string): Config
    requires Shrinks(un) && (o.result.Count? ==> Fits(o.m.toks, |o.buf.js|))
  {
    if o.result.Failed? || o.m.toks == [] || o.m.toks[0].kind != Object then NoConfig
    else Finish(Walk(Begin(o.buf.js, env), o.m.toks, 1, un))
  }

  /** The tokenizer keeps its side: see `Fits`. */
  lemma TokenizerFits(b: Buffer, capacity: nat)
    requires ParseText(b, Filling(capacity)).result.Count?
    ensures var o := ParseText(b, Filling(capacity));
            o.result.tokens == |o.m.toks| && Fits(o.m.toks, |o.buf.js|)
  {
    var o := ParseText(b, Filling(capacity));
    JsonSpans.ParseLaminar(b, 0, Start, capacity, 0);
    JsonCounting.FillingAgreesWithCounting(b, capacity);
    JsonCounting.ParseSizesFit(b, 0, Start, capacity, 0);
    var k := ParseRunsLexemes(b, 0, Start, capacity, 0);
    forall i | 0 <= i < |o.m.toks|
      ensures 0 <= o.m.toks[i].start <= o.m.toks[i].end <= |o.buf.js|
    {
      assert JsonSpans.Placed(o.m.toks[i], o.buf.js, o.pos);
      assert !IsOpen(o.m.toks[i]);
    }
  }
}
