/** Printing any JSON value with any layout and tokenizing the result gives the
    pre-order token list of the value: right kinds, right spans, right sizes. */
module JsonRoundTrip {
  import opened JsonLexing
  import opened JsonMachine

  /** A JSON value together with the whitespace it is printed with.  `Text` holds
      the characters between the quotes, escapes included; `Word` is a number,
      `true`, `false` or `null` (or any unquoted word). */
  datatype Value =
    | Text(body: string)
    | Word(chars: string)
    | List(pad: string, items: Items)
    | Record(pad: string, members: Members)

  datatype Items =
    | NoItems
    | Item(before: string, value: Value, after: string, rest: Items)

  datatype Members =
    | NoMembers
    | Member(before: string, key: string, mid: string, gap: string,
             value: Value, after: string, rest: Members)

  /** The four characters of insignificant whitespace, section 2 of RFC 8259. */
  const WHITESPACE := " \t\n\r"

  /** What may follow a backslash, apart from `u`: section 7 of RFC 8259. */
  const ESCAPED := "\"\\/bfnrt"

  predicate Spaces(s: string) {
    forall i :: 0 <= i < |s| ==> s[i] in WHITESPACE
  }

  /** String contents without `\u` escapes. */
  predicate PlainBody(s: string) {
    if s == [] then true
    else if s[0] == '\\' then |s| >= 2 && s[1] in ESCAPED && PlainBody(s[2..])
    else s[0] != '\"' && s[0] != '\0' && PlainBody(s[1..])
  }

  /** A word: any characters but NUL, whitespace and the four that end a value. */
  predicate PlainWord(s: string) {
    && s != [] && s[0] !in "{[\""
    && forall i :: 0 <= i < |s| ==> s[i] != '\0' && s[i] !in WHITESPACE && s[i] !in ":,]}"
  }

  predicate WellFormed(v: Value) {
    match v
    case Text(body) => PlainBody(body)
    case Word(chars) => PlainWord(chars)
    case List(pad, items) => Spaces(pad) && WellFormedItems(items)
    case Record(pad, members) => Spaces(pad) && WellFormedMembers(members)
  }

  predicate WellFormedItems(xs: Items) {
    match xs
    case NoItems => true
    case Item(before, value, after, rest) =>
      Spaces(before) && WellFormed(value) && Spaces(after) && WellFormedItems(rest)
  }

  predicate WellFormedMembers(xs: Members) {
    match xs
    case NoMembers => true
    case Member(before, key, mid, gap, value, after, rest) =>
      && Spaces(before) && PlainBody(key) && Spaces(mid) && Spaces(gap)
      && WellFormed(value) && Spaces(after) && WellFormedMembers(rest)
  }

  function Quoted(s: string): string {
    "\"" + s + "\""
  }

  function Render(v: Value): string {
    match v
    case Text(body) => Quoted(body)
    case Word(chars) => chars
    case List(pad, items) => "[" + pad + RenderItems(items) + "]"
    case Record(pad, members) => "{" + pad + RenderMembers(members) + "}"
  }

  function RenderItems(xs: Items): string {
    match xs
    case NoItems => ""
    case Item(before, value, after, rest) =>
      before + Render(value) + (after + if rest.NoItems? then "" else ",") + RenderItems(rest)
  }

  function RenderMembers(xs: Members): string {
    match xs
    case NoMembers => ""
    case Member(before, key, mid, gap, value, after, rest) =>
      before + Quoted(key) + mid + ":" + gap + Render(value)
      + (after + if rest.NoMembers? then "" else ",") + RenderMembers(rest)
  }

  function ItemCount(xs: Items): nat {
    if xs.NoItems? then 0 else 1 + ItemCount(xs.rest)
  }

  function MemberCount(xs: Members): nat {
    if xs.NoMembers? then 0 else 1 + MemberCount(xs.rest)
  }

  /** The tokens of a value printed at offset `p`, parents before children. */
  function TokensOf(v: Value, p: nat): seq<Token> {
    match v
    case Text(body) => [Token(String, p + 1, p + 1 + |body|, 0)]
    case Word(chars) => [Token(Primitive, p, p + |chars|, 0)]
    case List(pad, items) =>
      [Token(Array, p, p + |Render(v)|, ItemCount(items))] + TokensOfItems(items, p + 1 + |pad|)
    case Record(pad, members) =>
      [Token(Object, p, p + |Render(v)|, MemberCount(members))] + TokensOfMembers(members, p + 1 + |pad|)
  }

  function TokensOfItems(xs: Items, p: nat): seq<Token> {
    match xs
    case NoItems => []
    case Item(before, value, after, rest) =>
      var q := p + |before|;
      TokensOf(value, q) + TokensOfItems(rest, q + |Render(value)| + |after| + 1)
  }

  function TokensOfMembers(xs: Members, p: nat): seq<Token> {
    match xs
    case NoMembers => []
    case Member(before, key, mid, gap, value, after, rest) =>
      var k := p + |before| + 1;
      var q := k + |key| + 1 + |mid| + 1 + |gap|;
      [Token(String, k, k + |key|, 1)] + TokensOf(value, q)
      + TokensOfMembers(rest, q + |Render(value)| + |after| + 1)
  }

  /* ---- the lexemes of a printed value, followed by those in `tail` ---- */

  function Blanks(n: nat, tail: seq<Lexeme>): seq<Lexeme> {
    if n == 0 then tail else [Blank] + Blanks(n - 1, tail)
  }

  function Separator(last: bool, tail: seq<Lexeme>): seq<Lexeme> {
    if last then tail else [Comma] + tail
  }

  function LexemesOf(v: Value, p: nat, tail: seq<Lexeme>): seq<Lexeme>
    decreases v, 2
  {
    match v
    case Text(body) => [Leaf(true, p + 1, p + 1 + |body|)] + tail
    case Word(chars) => [Leaf(false, p, p + |chars|)] + tail
    case List(pad, items) =>
      [Open(Squares, p)]
      + Blanks(|pad|, LexemesOfItems(items, p + 1 + |pad|, [Close(Squares, p + |Render(v)| - 1)] + tail))
    case Record(pad, members) =>
      [Open(Braces, p)]
      + Blanks(|pad|, LexemesOfMembers(members, p + 1 + |pad|, [Close(Braces, p + |Render(v)| - 1)] + tail))
  }

  function LexemesOfItems(xs: Items, p: nat, tail: seq<Lexeme>): seq<Lexeme>
    decreases xs, 1
  {
    match xs
    case NoItems => tail
    case Item(before, value, after, rest) =>
      var q := p + |before|;
      Blanks(|before|, LexemesOf(value, q, AfterItem(xs, q, tail)))
  }

  function AfterItem(xs: Items, q: nat, tail: seq<Lexeme>): seq<Lexeme>
    requires xs.Item?
    decreases xs, 0
  {
    Blanks(|xs.after|, Separator(xs.rest.NoItems?,
                                 LexemesOfItems(xs.rest, q + |Render(xs.value)| + |xs.after| + 1, tail)))
  }

  function LexemesOfMembers(xs: Members, p: nat, tail: seq<Lexeme>): seq<Lexeme>
    decreases xs, 1
  {
    match xs
    case NoMembers => tail
    case Member(before, key, mid, gap, value, after, rest) =>
      var k := p + |before| + 1;
      var q := k + |key| + 1 + |mid| + 1 + |gap|;
      Blanks(|before|, [Leaf(true, k, k + |key|)]
      + Blanks(|mid|, [Colon]
      + Blanks(|gap|, LexemesOf(value, q, AfterMember(xs, q, tail)))))
  }

  function AfterMember(xs: Members, q: nat, tail: seq<Lexeme>): seq<Lexeme>
    requires xs.Member?
    decreases xs, 0
  {
    Blanks(|xs.after|, Separator(xs.rest.NoMembers?,
                                 LexemesOfMembers(xs.rest, q + |Render(xs.value)| + |xs.after| + 1, tail)))
  }
}
