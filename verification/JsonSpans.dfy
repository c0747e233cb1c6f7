/** Where the tokens lie in the text: they are numbered in the order they start,
    their spans form a laminar family, and strings and primitives contain
    nothing. */
module JsonSpans {
  import opened JsonLexing
  import opened JsonMachine

  /** A token of a parser that stands at `p`. */
  predicate Placed(t: Token, js: string, p: nat) {
    && 0 <= t.start < p <= |js|
    && (t.end == -1 || t.start <= t.end <= p)
    && match t.kind
       case Object => js[t.start] == '{' && (t.end != -1 ==> t.start < t.end && js[t.end - 1] == '}')
       case Array => js[t.start] == '[' && (t.end != -1 ==> t.start < t.end && js[t.end - 1] == ']')
       case String => 0 < t.start && 0 <= t.end < p && js[t.start - 1] == '\"' && js[t.end] == '\"'
       case Primitive => t.start < t.end
       case Undefined => false
  }

  /** How a token lies to one that was made later. */
  predicate Ordered(t: Token, later: Token) {
    && t.start < later.start
    && (|| (t.end != -1 && t.end <= later.start)
        || (IsContainer(t.kind) && t.end == -1)
        || (IsContainer(t.kind) && later.end != -1 && later.end <= t.end))
  }

  ghost predicate Laminar(toks: seq<Token>, js: string, p: nat) {
    && (forall i :: 0 <= i < |toks| ==> Placed(toks[i], js, p))
    && (forall i, j :: 0 <= i < j < |toks| ==> Ordered(toks[i], toks[j]))
  }

  lemma LaminarLater(toks: seq<Token>, js: string, p: nat, js': string, p': nat)
    requires Laminar(toks, js, p) && p <= p' <= |js'| && |js| == |js'| && js'[..p] == js[..p]
    ensures Laminar(toks, js', p')
  {
    forall i | 0 <= i < |toks| ensures Placed(toks[i], js', p') {
      assert Placed(toks[i], js, p);
      assert forall k :: 0 <= k < p ==> js[..p][k] == js'[..p][k];
    }
  }

  lemma BumpLaminar(toks: seq<Token>, i: int, js: string, p: nat)
    requires -1 <= i < |toks| && Laminar(toks, js, p)
    ensures Laminar(Bump(toks, i), js, p)
  {
    var toks' := Bump(toks, i);
    forall k | 0 <= k < |toks| ensures Placed(toks'[k], js, p) {
      assert Placed(toks[k], js, p);
    }
    forall k, l | 0 <= k < l < |toks| ensures Ordered(toks'[k], toks'[l]) {
      assert Ordered(toks[k], toks[l]);
    }
  }

  lemma AppendLaminar(toks: seq<Token>, t: Token, js: string, p: nat, p': nat)
    requires Laminar(toks, js, p) && p <= t.start && p <= p' <= |js| && Placed(t, js, p')
    requires t.start == p ==> t.kind != String
    ensures Laminar(toks + [t], js, p')
  {
    LaminarLater(toks, js, p, js, p');
    forall k | 0 <= k < |toks| ensures Ordered(toks[k], t) {
      assert Placed(toks[k], js, p);
    }
  }

  lemma CloseLaminar(m: Machine, i: nat, js: string, p: nat)
    requires Valid(m) && Laminar(m.toks, js, p) && p < |js|
    requires i == LastOpen(m.toks, |m.toks|)
    requires js[p] == if m.toks[i].kind == Object then '}' else ']'
    ensures Laminar(m.toks[i := m.toks[i].(end := p + 1)], js, p + 1)
  {
    var toks' := m.toks[i := m.toks[i].(end := p + 1)];
    forall k | 0 <= k < |toks'| ensures Placed(toks'[k], js, p + 1) {
      assert Placed(m.toks[k], js, p);
    }
    forall k, l | 0 <= k < l < |toks'| ensures Ordered(toks'[k], toks'[l]) {
      assert Ordered(m.toks[k], m.toks[l]) && Placed(m.toks[l], js, p);
    }
  }

  /** The characters that a lexeme read between `p` and `next` shows. */
  predicate Shown(x: Lexeme, js: string, p: nat, next: nat) {
    && p < next <= |js| && Between(x, p, next)
    && match x
       case Open(shape, _) => js[p] == if shape == Braces then '{' else '['
       case Close(shape, _) => js[p] == if shape == Braces then '}' else ']'
       case Leaf(quoted, from, to) => if !quoted then true else from <= to < |js| && js[p] == js[to] == '\"'
       case _ => true
  }

  lemma LexShown(b: Buffer, p: nat)
    requires More(b.js, p) && Lex(b, p).Lexed?
    ensures var Lexed(x, next, buf) := Lex(b, p); Shown(x, buf.js, p, next)
    ensures Lex(b, p).buf.js[..p] == b.js[..p]
  {
    PrefixOfPrefix(b.js, Lex(b, p).buf.js, p, p + 1);
    assert Lex(b, p).buf.js[..p + 1][p] == b.js[..p + 1][p];
  }

  lemma NewTokenLaminar(m: Machine, t: Token, js: string, p: nat, next: nat)
    requires Valid(m) && Laminar(m.toks, js, p) && p <= next <= |js| && Placed(t, js, next)
    requires p <= t.start && (t.start == p ==> t.kind != String)
    ensures Laminar(Bump(m.toks, m.super) + [t], js, next)
  {
    BumpLaminar(m.toks, m.super, js, p);
    AppendLaminar(Bump(m.toks, m.super), t, js, p, next);
  }

  lemma StepLaminar(m: Machine, x: Lexeme, js: string, p: nat, next: nat)
    requires Valid(m) && Laminar(m.toks, js, p) && Shown(x, js, p, next) && Step(m, x).Some?
    ensures Laminar(Step(m, x).value.toks, js, next)
  {
    if x.Open? {
      NewTokenLaminar(m, Token(Container(x.shape), x.at, -1, 0), js, p, next);
    } else if x.Leaf? {
      NewTokenLaminar(m, Token(LeafKind(x.quoted), x.from, x.to, 0), js, p, next);
    } else if x.Close? {
      CloseLaminar(m, LastOpen(m.toks, |m.toks|), js, p);
    } else {
      LaminarLater(m.toks, js, p, js, next);
    }
  }

  lemma {:induction false} ParseLaminar(b: Buffer, p: nat, m: Machine, capacity: nat, count: nat)
    requires p <= |b.js| && Valid(m) && Laminar(m.toks, b.js, p)
    ensures var r := Parse(b, p, m, Filling(capacity), count);
            Laminar(r.m.toks, r.buf.js, r.pos)
    decreases |b.js| - p
  {
    if More(b.js, p) {
      var l := Lex(b, p);
      PrefixOfPrefix(b.js, l.buf.js, p, p + 1);
      LaminarLater(m.toks, b.js, p, l.buf.js, p);
      if l.Lexed? && !(Allocates(l.lexeme) && |m.toks| >= capacity) && Step(m, l.lexeme).Some? {
        LexShown(b, p);
        StepLaminar(m, l.lexeme, l.buf.js, p, l.next);
        ParseLaminar(l.buf, l.next, Step(m, l.lexeme).value, capacity,
                     count + if Allocates(l.lexeme) then 1 else 0);
      }
    }
  }

  /** After any successful call: starts strictly increase, any two spans are
      disjoint or nested, and only objects and arrays contain anything. */
  lemma SpansNest(b: Buffer, capacity: nat, i: nat, j: nat)
    requires ParseText(b, Filling(capacity)).result.Count?
    requires i < j < |ParseText(b, Filling(capacity)).m.toks|
    ensures var toks := ParseText(b, Filling(capacity)).m.toks;
            && toks[i].start < toks[j].start
            && toks[i].start <= toks[i].end && toks[j].start <= toks[j].end
            && (toks[i].end <= toks[j].start || toks[j].end <= toks[i].end)
            && (!IsContainer(toks[i].kind) ==> toks[i].end <= toks[j].start)
  {
    var r := ParseText(b, Filling(capacity));
    ParseLaminar(b, 0, Start, capacity, 0);
    var k := ParseRunsLexemes(b, 0, Start, capacity, 0);
    assert Ordered(r.m.toks[i], r.m.toks[j]);
    assert Placed(r.m.toks[i], r.buf.js, r.pos) && Placed(r.m.toks[j], r.buf.js, r.pos);
    assert !IsOpen(r.m.toks[i]) && !IsOpen(r.m.toks[j]);
  }
}
