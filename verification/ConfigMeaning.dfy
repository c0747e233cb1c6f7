/** What a configuration means, read off its JSON tree: the nodes of the tree, and
    the proof that tokenizing the tree's text and walking the tokens over it is
    walking those nodes. */
module ConfigMeaning {
  import opened Options
  import opened JsonLexing
  import opened JsonMachine
  import opened JsonRoundTrip
  import opened JsonRoundTripMachine
  import opened JsonRoundTripText
  import opened ConfigReader
  import opened ConfigNodes
  import opened ConfigSpared

  /** The text of a value's token. */
  function Content(v: Value): string {
    if v.Text? then v.body else Render(v)
  }

  /** The nodes of a value, parents before children. */
  function NodesOf(v: Value): (ns: seq<Node>)
    ensures ns != []
  {
    match v
    case Text(body) => [Node(String, body, 0)]
    case Word(chars) => [Node(Primitive, chars, 0)]
    case List(pad, items) => [Node(Array, Render(v), ItemCount(items))] + NodesOfItems(items)
    case Record(pad, members) => [Node(Object, Render(v), MemberCount(members))] + NodesOfMembers(members)
  }

  function NodesOfItems(xs: Items): seq<Node> {
    if xs.NoItems? then [] else NodesOf(xs.value) + NodesOfItems(xs.rest)
  }

  function NodesOfMembers(xs: Members): seq<Node> {
    if xs.NoMembers? then []
    else [Node(String, xs.key, 1)] + NodesOf(xs.value) + NodesOfMembers(xs.rest)
  }

  /* ---- the tokens of a printed value show its nodes ---- */

  /** Tokens in the order of a text, see `Laid`; arrays with all their children. */
  ghost predicate Ordered(ts: seq<Token>) {
    && (forall j, k :: 0 <= j < k < |ts| ==>
          && ts[j].start < ts[k].start
          && (ts[j].kind == String || ts[j].size == 0 ==> ts[j].end < ts[k].start)
          && (ts[j].kind == Array && k <= j + ts[j].size ==> ts[k].end < ts[j].end))
    && (forall j :: 0 <= j < |ts| && ts[j].kind == Array ==> j + ts[j].size < |ts|)
  }

  /** The tokens lie between `p` and `q` and show the nodes. */
  ghost predicate Tells(ts: seq<Token>, ns: seq<Node>, data: string, p: nat, q: nat) {
    AllShown(ts, data, ns) && Ordered(ts) && forall k :: 0 <= k < |ts| ==> p <= ts[k].start <= ts[k].end <= q
  }

  lemma TellsConcat(a: seq<Token>, m: seq<Node>, b: seq<Token>, n: seq<Node>, data: string,
                    p: nat, r: nat, s: nat, q: nat)
    requires Tells(a, m, data, p, r) && Tells(b, n, data, s, q) && p <= s && r < s && r <= q
    ensures Tells(a + b, m + n, data, p, q)
  {
    hide Shown, Ordered;
    OrderedConcat(a, b, r, s);
  }

  lemma OrderedConcat(a: seq<Token>, b: seq<Token>, r: int, s: int)
    requires Ordered(a) && Ordered(b) && r < s
    requires forall k :: 0 <= k < |a| ==> a[k].start <= a[k].end <= r
    requires forall k :: 0 <= k < |b| ==> s <= b[k].start
    ensures Ordered(a + b)
  {
    var ts := a + b;
    forall j, k | 0 <= j < k < |ts|
      ensures ts[j].start < ts[k].start
      ensures ts[j].kind == String || ts[j].size == 0 ==> ts[j].end < ts[k].start
      ensures ts[j].kind == Array && k <= j + ts[j].size ==> ts[k].end < ts[j].end
    {
      if j >= |a| { assert ts[j] == b[j - |a|] && ts[k] == b[k - |a|]; }
    }
  }

  lemma TellsContainer(t: Token, text: string, ts: seq<Token>, ns: seq<Node>, data: string, p: nat, q: nat)
    requires t.kind != String && 0 <= t.size <= |ts| && (t.size == 0 ==> ts == [])
    requires 0 <= t.start < p <= q < t.end <= |data| && data[t.start..t.end] == text
    requires '\\' !in text && Tells(ts, ns, data, p, q)
    ensures Tells([t] + ts, [Node(t.kind, text, t.size)] + ns, data, t.start, t.end)
  {
    hide Ordered;
    OrderedContainer(t, ts, p, q);
  }

  lemma OrderedContainer(t: Token, ts: seq<Token>, p: int, q: int)
    requires t.kind != String && 0 <= t.size <= |ts| && (t.size == 0 ==> ts == []) && t.start < p && q < t.end
    requires Ordered(ts) && forall k :: 0 <= k < |ts| ==> p <= ts[k].start <= ts[k].end <= q
    ensures Ordered([t] + ts)
  {
    var all := [t] + ts;
    forall j, k | 0 <= j < k < |all|
      ensures all[j].start < all[k].start
      ensures all[j].kind == String || all[j].size == 0 ==> all[j].end < all[k].start
      ensures all[j].kind == Array && k <= j + all[j].size ==> all[k].end < all[j].end
    {
      assert all[k] == ts[k - 1];
      if j > 0 { assert all[j] == ts[j - 1]; }
    }
  }

  lemma TellsOne(t: Token, text: string, data: string, p: nat, q: nat)
    requires t.kind != Array && p <= t.start <= t.end <= q && t.end <= |data| && t.size >= 0
    requires data[t.start..t.end] == text
    requires '\\' !in text
    ensures Tells([t], [Node(t.kind, text, t.size)], data, p, q)
  {
  }

  lemma TellsNothing(data: string, p: nat, q: nat)
    ensures Tells([], [], data, p, q)
    ensures TokensOfItems(NoItems, p) == [] && NodesOfItems(NoItems) == [] && RenderItems(NoItems) == ""
    ensures TokensOfMembers(NoMembers, p) == [] && NodesOfMembers(NoMembers) == [] && RenderMembers(NoMembers) == ""
  {
  }

  lemma TellsWider(ts: seq<Token>, ns: seq<Node>, data: string, p: nat, q: nat, p': nat, q': nat)
    requires Tells(ts, ns, data, p, q) && p' <= p && q <= q'
    ensures Tells(ts, ns, data, p', q')
  {
    hide Shown;
  }

  lemma AtSlice(js: string, p: nat, s: string, i: nat, j: nat)
    requires At(js, p, s) && i <= j <= |s|
    ensures p + j <= |js| && js[p + i..p + j] == s[i..j]
  {
    forall k | i <= k < j ensures js[p + k] == s[k] { AtIndex(js, p, s, k); }
  }

  lemma CleanPart(data: string, i: nat, j: nat)
    requires '\\' !in data && i <= j <= |data|
    ensures '\\' !in data[i..j]
  {
  }

  lemma LeafTells(data: string, v: Value, p: nat)
    requires At(data, p, Render(v)) && '\\' !in data && (v.Text? || v.Word?)
    ensures Tells(TokensOf(v, p), NodesOf(v), data, p, p + |Render(v)|)
  {
    hide Tells;
    if v.Text? {
      AtSlice(data, p, Render(v), 1, 1 + |v.body|);
      CleanPart(data, p + 1, p + 1 + |v.body|);
      TellsOne(Token(String, p + 1, p + 1 + |v.body|, 0), v.body, data, p, p + |Render(v)|);
    } else {
      CleanPart(data, p, p + |v.chars|);
      TellsOne(Token(Primitive, p, p + |v.chars|, 0), v.chars, data, p, p + |Render(v)|);
    }
  }

  lemma ListParts(pad: string, items: Items, p: nat)
    ensures var v := List(pad, items);
            && Render(v) == "[" + pad + RenderItems(items) + "]"
            && TokensOf(v, p) == [Token(Array, p, p + |Render(v)|, ItemCount(items))]
                                 + TokensOfItems(items, p + 1 + |pad|)
            && NodesOf(v) == [Node(Array, Render(v), ItemCount(items))] + NodesOfItems(items)
            && (ItemCount(items) == 0 ==> items.NoItems?)
  {
  }

  lemma RecordParts(pad: string, members: Members, p: nat)
    ensures var v := Record(pad, members);
            && Render(v) == "{" + pad + RenderMembers(members) + "}"
            && TokensOf(v, p) == [Token(Object, p, p + |Render(v)|, MemberCount(members))]
                                 + TokensOfMembers(members, p + 1 + |pad|)
            && NodesOf(v) == [Node(Object, Render(v), MemberCount(members))] + NodesOfMembers(members)
            && (MemberCount(members) == 0 ==> members.NoMembers?)
  {
  }

  lemma {:induction false} ValueTells(data: string, v: Value, p: nat)
    requires At(data, p, Render(v)) && '\\' !in data
    ensures Tells(TokensOf(v, p), NodesOf(v), data, p, p + |Render(v)|)
    decreases v, 1
  {
    hide *;
    if v.Text? || v.Word? {
      LeafTells(data, v, p);
    } else {
      var e := p + |Render(v)|;
      AtFits(data, p, Render(v));
      AtWholeSlice(data, p, Render(v));
      CleanPart(data, p, e);
      if v.List? {
        var List(pad, items) := v;
        var q := p + 1 + |pad|;
        ListParts(pad, items, p);
        BracketParts(data, p, "[", pad, RenderItems(items), "]", q, q + |RenderItems(items)|);
        ItemsTell(data, items, q);
        ItemTokens(items, q);
        TellsNothing(data, q, q);
        TellsContainer(Token(Array, p, e, ItemCount(items)), Render(v), TokensOfItems(items, q), NodesOfItems(items),
                       data, q, q + |RenderItems(items)|);
      } else {
        var Record(pad, members) := v;
        var q := p + 1 + |pad|;
        RecordParts(pad, members, p);
        BracketParts(data, p, "{", pad, RenderMembers(members), "}", q, q + |RenderMembers(members)|);
        MembersTell(data, members, q);
        MemberTokens(members, q);
        TellsNothing(data, q, q);
        TellsContainer(Token(Object, p, e, MemberCount(members)), Render(v), TokensOfMembers(members, q),
                       NodesOfMembers(members), data, q, q + |RenderMembers(members)|);
      }
    }
  }

  /** There are at least as many tokens inside a value as it has children. */
  lemma {:induction false} ItemTokens(xs: Items, p: nat)
    ensures |TokensOfItems(xs, p)| >= ItemCount(xs)
    decreases xs
  {
    if xs.Item? {
      ItemTokens(xs.rest, p + |xs.before| + |Render(xs.value)| + |xs.after| + 1);
      SomeToken(xs.value, p + |xs.before|);
    }
  }

  lemma {:induction false} MemberTokens(xs: Members, p: nat)
    ensures |TokensOfMembers(xs, p)| >= MemberCount(xs)
    decreases xs
  {
    if xs.Member? {
      var q := p + |xs.before| + 1 + |xs.key| + 1 + |xs.mid| + 1 + |xs.gap|;
      MemberTokens(xs.rest, q + |Render(xs.value)| + |xs.after| + 1);
    }
  }

  lemma SomeToken(v: Value, p: nat)
    ensures |TokensOf(v, p)| > 0
  {
    hide Render;
  }

  lemma AtWholeSlice(data: string, p: nat, s: string)
    requires At(data, p, s)
    ensures p + |s| <= |data| && data[p..p + |s|] == s
  {
  }

  lemma ItemNodes(xs: Items)
    requires xs.Item?
    ensures NodesOfItems(xs) == NodesOf(xs.value) + NodesOfItems(xs.rest)
  {
  }

  lemma {:induction false} ItemsTell(data: string, xs: Items, p: nat)
    requires At(data, p, RenderItems(xs)) && '\\' !in data
    ensures Tells(TokensOfItems(xs, p), NodesOfItems(xs), data, p, p + |RenderItems(xs)|)
    decreases xs, 0
  {
    hide *;
    if xs.NoItems? {
      TellsNothing(data, p, p);
    } else {
      var Item(before, value, after, rest) := xs;
      var q := p + |before|;
      var r := q + |Render(value)|;
      var m := r + |after|;
      var e := p + |RenderItems(xs)|;
      var mark := after + if rest.NoItems? then "" else ",";
      ItemNodes(xs);
      ItemsUnfold(xs, p, []);
      RenderItemsUnfold(xs);
      AtConcat(data, p, before + Render(value) + mark, RenderItems(rest));
      AtConcat(data, p, before + Render(value), mark);
      AtConcat(data, p, before, Render(value));
      ValueTells(data, value, q);
      if rest.NoItems? {
        TellsNothing(data, m + 1, m + 1);
        TellsWider(TokensOf(value, q), NodesOf(value), data, q, r, p, e);
        assert TokensOfItems(xs, p) == TokensOf(value, q) && NodesOfItems(xs) == NodesOf(value);
      } else {
        ItemsTell(data, rest, m + 1);
        TellsConcat(TokensOf(value, q), NodesOf(value), TokensOfItems(rest, m + 1), NodesOfItems(rest),
                    data, q, r, m + 1, e);
        TellsWider(TokensOf(value, q) + TokensOfItems(rest, m + 1), NodesOf(value) + NodesOfItems(rest),
                   data, q, e, p, e);
      }
    }
  }

  /** A key, its token and what follows it. */
  lemma KeyParts(data: string, xs: Members, p: nat)
    requires xs.Member? && At(data, p, RenderMembers(xs))
    ensures var k := p + |xs.before| + 1;
            var q := k + |xs.key| + 1 + |xs.mid| + 1 + |xs.gap|;
            var m := q + |Render(xs.value)| + |xs.after|;
            var e := p + |RenderMembers(xs)|;
            && k + |xs.key| <= |data| && data[k..k + |xs.key|] == xs.key
            && At(data, q, Render(xs.value)) && q + |Render(xs.value)| <= m <= e <= |data|
            && (if xs.rest.NoMembers? then m == e
                else At(data, m + 1, RenderMembers(xs.rest)) && m + 1 + |RenderMembers(xs.rest)| == e)
  {
    hide RenderMembers, Render, At;
    var Member(before, key, mid, gap, value, after, rest) := xs;
    var mark := after + if rest.NoMembers? then "" else ",";
    var head := before + Quoted(key) + mid + ":" + gap;
    RenderMembersUnfold(xs);
    TellsNothing(data, p, p);
    AtConcat(data, p, head + Render(value) + mark, RenderMembers(rest));
    AtConcat(data, p, head + Render(value), mark);
    AtConcat(data, p, head, Render(value));
    assert head == before + Quoted(key) + (mid + ":" + gap) && |Quoted(key)| == |key| + 2;
    KeySlice(data, p, before, key, mid + ":" + gap);
  }

  lemma KeySlice(data: string, p: nat, before: string, key: string, rest: string)
    requires At(data, p, before + Quoted(key) + rest)
    ensures var k := p + |before| + 1;
            k + |key| <= |data| && data[k..k + |key|] == key
  {
    AtConcat(data, p, before + Quoted(key), rest);
    AtConcat(data, p, before, Quoted(key));
    AtSlice(data, p + |before|, Quoted(key), 1, 1 + |key|);
  }

  lemma MemberNodes(xs: Members)
    requires xs.Member?
    ensures NodesOfMembers(xs) == [Node(String, xs.key, 1)] + NodesOf(xs.value) + NodesOfMembers(xs.rest)
  {
  }

  lemma {:induction false} MembersTell(data: string, xs: Members, p: nat)
    requires At(data, p, RenderMembers(xs)) && '\\' !in data
    ensures Tells(TokensOfMembers(xs, p), NodesOfMembers(xs), data, p, p + |RenderMembers(xs)|)
    decreases xs, 0
  {
    hide *;
    if xs.NoMembers? {
      TellsNothing(data, p, p);
    } else {
      var k := p + |xs.before| + 1;
      var q := k + |xs.key| + 1 + |xs.mid| + 1 + |xs.gap|;
      var r := q + |Render(xs.value)|;
      var m := r + |xs.after|;
      var e := p + |RenderMembers(xs)|;
      var key, ts, ns := Token(String, k, k + |xs.key|, 1), TokensOf(xs.value, q), NodesOf(xs.value);
      MemberNodes(xs);
      MembersUnfold(xs, p, []);
      KeyParts(data, xs, p);
      CleanPart(data, k, k + |xs.key|);
      TellsOne(key, xs.key, data, p, k + |xs.key|);
      ValueTells(data, xs.value, q);
      TellsConcat([key], [Node(String, xs.key, 1)], ts, ns, data, p, k + |xs.key|, q, r);
      if xs.rest.NoMembers? {
        TellsNothing(data, m + 1, m + 1);
        TellsWider([key] + ts, [Node(String, xs.key, 1)] + ns, data, p, r, p, e);
        assert TokensOfMembers(xs, p) == [key] + ts && NodesOfMembers(xs) == [Node(String, xs.key, 1)] + ns;
      } else {
        MembersTell(data, xs.rest, m + 1);
        TellsConcat([key] + ts, [Node(String, xs.key, 1)] + ns, TokensOfMembers(xs.rest, m + 1),
                    NodesOfMembers(xs.rest), data, p, r, m + 1, e);
      }
    }
  }

  /* ---- end to end ---- */

  lemma TellsShows(toks: seq<Token>, ns: seq<Node>, data: string, p: nat, q: nat)
    requires Tells(toks, ns, data, p, q) && |ns| > 0
    ensures |toks| == |ns| && Shows(toks, 1, data, ns[1..]) && Laid(ns[1..], Starts(toks)[1..])
    ensures Starts(toks)[1..] == Starts(toks[1..])
  {
    hide Shown, Starts, Laid, Ordered;
    ShownTail(toks, data, ns);
    TellsLaid(toks, ns, data);
    LaidTail(ns, Starts(toks));
  }

  lemma TellsLaid(toks: seq<Token>, ns: seq<Node>, data: string)
    requires AllShown(toks, data, ns) && Ordered(toks)
    ensures |toks| == |ns| && Laid(ns, Starts(toks))
  {
    var ps := Starts(toks);
    forall k | 0 <= k < |ns|
      ensures ps[k] == toks[k].start && EndAt(ns, ps, k) == toks[k].end
      ensures ns[k].kind == toks[k].kind && ns[k].size == toks[k].size
    {
      assert Shown(toks[k], data, ns[k]);
    }
  }

  /** Where the nodes of an object's members begin in its text. */
  function Places(lead: string, pad: string, members: Members): (ps: seq<int>) {
    Starts(TokensOfMembers(members, |lead| + 1 + |pad|))
  }

  /** The nodes of a printed object are laid out as a text lays them out. */
  lemma PlacesLaid(lead: string, pad: string, members: Members, trail: string)
    requires '\\' !in lead + Render(Record(pad, members)) + trail
    ensures |Places(lead, pad, members)| == |NodesOfMembers(members)|
    ensures Laid(NodesOfMembers(members), Places(lead, pad, members))
  {
    hide *;
    var v, js := Record(pad, members), lead + Render(Record(pad, members)) + trail;
    AtWhole(js, lead, Render(v), trail);
    ValueTells(js, v, |lead|);
    RecordParts(pad, members, |lead|);
    TellsShows(TokensOf(v, |lead|), NodesOf(v), js, |lead|, |lead| + |Render(v)|);
    assert NodesOf(v)[1..] == NodesOfMembers(members);
    assert TokensOf(v, |lead|)[1..] == TokensOfMembers(members, |lead| + 1 + |pad|);
    PlacesUnfold(lead, pad, members);
  }

  lemma PlacesUnfold(lead: string, pad: string, members: Members)
    ensures Places(lead, pad, members) == Starts(TokensOfMembers(members, |lead| + 1 + |pad|))
  {
  }

  /** End to end: for every JSON object printed with any layout and without
      backslashes, tokenizing the text and walking the tokens over it finds what
      walking the object's nodes finds. */
  lemma ConfigIsItsMeaning(lead: string, pad: string, members: Members, trail: string, residue: int,
                           env: Env, un: string -> string)
    requires Spaces(lead) && WellFormed(Record(pad, members)) && Spaces(trail)
    requires '\\' !in lead + Render(Record(pad, members)) + trail
    requires |TokensOf(Record(pad, members), |lead|)| <= MAX_TOKENS
    requires Identity(un) && Shrinks(un)
    ensures |Places(lead, pad, members)| == |NodesOfMembers(members)|
    ensures var o := ParseText(Buffer(lead + Render(Record(pad, members)) + trail, residue), Filling(MAX_TOKENS));
            && (o.result.Count? ==> Fits(o.m.toks, |o.buf.js|))
            && ReadTokens(o, env, un) ==
               Finish(WalkNodes(Begin("", env), NodesOfMembers(members), Places(lead, pad, members)))
  {
    hide *;
    var v := Record(pad, members);
    var js := lead + Render(v) + trail;
    var b := Buffer(js, residue);
    var toks, ps := TokensOf(v, |lead|), Places(lead, pad, members);
    PlacesLaid(lead, pad, members, trail);
    TokenizePrinted(lead, v, trail, residue, MAX_TOKENS);
    TokenizerFits(b, MAX_TOKENS);
    AtWhole(js, lead, Render(v), trail);
    ValueTells(js, v, |lead|);
    RecordParts(pad, members, |lead|);
    TellsShows(toks, NodesOf(v), js, |lead|, |lead| + |Render(v)|);
    assert NodesOf(v)[1..] == NodesOfMembers(members);
    assert toks[1..] == TokensOfMembers(members, |lead| + 1 + |pad|);
    PlacesUnfold(lead, pad, members);
    BeginLike(js, env);
    WalkShown(Begin(js, env), Begin("", env), toks, 1, un, NodesOfMembers(members));
    LikeFinish(Walk(Begin(js, env), toks, 1, un), WalkNodes(Begin("", env), NodesOfMembers(members), ps));
    ReadUnfold(ParseText(b, Filling(MAX_TOKENS)), env, un);
  }

  lemma BeginLike(js: string, env: Env)
    ensures Like(Some(Begin(js, env)), Some(Begin("", env))) && Begin(js, env).data == js
  {
  }

  lemma ReadUnfold(o: Outcome, env: Env, un: string -> string)
    requires Shrinks(un) && o.result.Count? && Fits(o.m.toks, |o.buf.js|) && o.m.toks != []
    requires o.m.toks[0].kind == Object
    ensures Begin(o.buf.js, env).data == o.buf.js
    ensures ReadTokens(o, env, un) == Finish(Walk(Begin(o.buf.js, env), o.m.toks, 1, un))
  {
  }

  lemma LikeFinish(r: Option<Reader>, s: Option<Reader>)
    requires Like(r, s)
    ensures Finish(r) == Finish(s)
  {
  }
}
