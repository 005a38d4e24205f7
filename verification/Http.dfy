/** The HTTP request parser (src/http.c): a lexer with three modes and one token of
    lookahead under a recursive-descent parser.

    The functions pass the lexer's and the request's state along; `HttpParser` is the
    program with its fields, proved against them. Reading at or past the end gives the
    terminating zero, and `strdup` is taken to succeed. The program checks the length
    of the path where it writes a query; writing past the table of queries is an
    outcome of its own, after which nothing is promised. */
module Http {
  import opened Common

  datatype Kind = Solidus | Cr | Lf | Ws | Literal | Key | Value | Query | Ampersand | Eq

  datatype Mode = RequestMode | KeyMode | ValueMode

  /** A token with its text, if it has one, and where the next one starts. */
  datatype Token = Token(kind: Kind, value: string, end: nat)

  /** `next` is where the next token starts; an unaccepted token is seen again. */
  datatype Lexer = Lexer(mode: Mode, next: nat, token: Token, accepted: bool)

  const Nul: char := '\0'

  // ------------------------------------------------------------- characters

  function CharAt(s: string, i: nat): char { if i < |s| then s[i] else Nul }

  predicate IsPrint(c: char) { ' ' <= c <= '~' }

  predicate IsLiteral(c: char) { IsPrint(c) && c !in {'/', ' ', '?', '&', '='} }

  predicate IsDigit(c: char) { '0' <= c <= '9' }

  predicate IsKeyChar(c: char) { IsDigit(c) || 'a' <= c <= 'z' || 'A' <= c <= 'Z' || c == '-' }

  predicate IsBlank(c: char) { c == ' ' || c == '\t' }

  predicate IsSlash(c: char) { c == '/' }

  /** What strcspn(…, "\r") runs over. */
  predicate IsValueChar(c: char) { c != '\r' && c != Nul }

  function Lower(c: char): char {
    if 'A' <= c <= 'Z' then (c as int + 32) as char else c
  }

  /** strcasecmp. */
  predicate EqualFold(a: string, b: string) {
    |a| == |b| && forall i :: 0 <= i < |a| ==> Lower(a[i]) == Lower(b[i])
  }

  /** How many characters from `p` on satisfy `f`. */
  function Span(s: string, p: nat, f: char -> bool): (n: nat)
    ensures p + n <= |s| || n == 0
    decreases |s| - p
  {
    if p < |s| && f(s[p]) then 1 + Span(s, p + 1, f) else 0
  }

  function Text(s: string, p: nat, n: nat): string
    requires p + n <= |s| || n == 0
  {
    if n == 0 then "" else s[p..p + n]
  }

  // ----------------------------------------------------------------- tokens

  function RequestToken(s: string, p: nat): Option<Token> {
    var c := CharAt(s, p);
    if c == '/' then Some(Token(Solidus, "", p + Span(s, p, IsSlash)))
    else if c == '\r' then Some(Token(Cr, "", p + 1))
    else if c == '\n' then Some(Token(Lf, "", p + 1))
    else if c == '?' then Some(Token(Query, "", p + 1))
    else if c == '&' then Some(Token(Ampersand, "", p + 1))
    else if c == '=' then Some(Token(Eq, "", p + 1))
    else if IsBlank(c) then Some(Token(Ws, "", p + Span(s, p, IsBlank)))
    else if IsLiteral(c) then
      var n := Span(s, p, IsLiteral);
      Some(Token(Literal, Text(s, p, n), p + n))
    else None
  }

  function KeyToken(s: string, p: nat): Option<Token> {
    var c := CharAt(s, p);
    if c == '\r' then Some(Token(Cr, "", p + 1))
    else if c == '\n' then Some(Token(Lf, "", p + 1))
    else if !IsKeyChar(c) then None
    else
      var n := Span(s, p, IsKeyChar);
      if CharAt(s, p + n) != ':' then None
      else
        var after := p + n + 1;
        Some(Token(Key, Text(s, p, n), after + Span(s, after, IsBlank)))
  }

  function ValueToken(s: string, p: nat): Option<Token> {
    var n := Span(s, p, IsValueChar);
    if CharAt(s, p + n) == '\r' && CharAt(s, p + n + 1) == '\n' then
      Some(Token(Value, Text(s, p, n), p + n + 2))
    else None
  }

  function Classify(s: string, mode: Mode, p: nat): Option<Token> {
    match mode
    case RequestMode => RequestToken(s, p)
    case KeyMode => KeyToken(s, p)
    case ValueMode => ValueToken(s, p)
  }

  /** Every token moves on, and stays inside the text. */
  lemma {:induction false} TokenMoves(s: string, mode: Mode, p: nat)
    requires p <= |s|
    ensures Classify(s, mode, p).Some? ==> p < Classify(s, mode, p).value.end <= |s|
  {
  }

  /** httplex_next_token: the lexer afterwards and whether there is a token. */
  function Peeked(s: string, l: Lexer): (Lexer, bool) {
    if !l.accepted then (l, true)
    else match Classify(s, l.mode, l.next)
      case None => (l, false)
      case Some(t) => (l.(token := t, next := t.end, accepted := false), true)
  }

  /** http__peek and http__expect. */
  function Peek(s: string, l: Lexer, kind: Kind): (Lexer, bool) {
    var (m, found) := Peeked(s, l);
    (m, found && m.token.kind == kind)
  }

  function Expect(s: string, l: Lexer, kind: Kind): (Lexer, bool) {
    var (m, ok) := Peek(s, l, kind);
    (if ok then m.(accepted := true) else m, ok)
  }

  /** http__literal. */
  function Word(s: string, l: Lexer, word: string): (Lexer, bool) {
    var (m, ok) := Peek(s, l, Literal);
    if ok && EqualFold(word, m.token.value) then (m.(accepted := true), true) else (m, false)
  }

  // ----------------------------------------------------------------- parser

  datatype Method = Get | Put | Options

  /** `overrun` says that a query was written past the end of its table. */
  datatype Req = Req(
    verb: Option<Method>, url: seq<string>, pendingKey: string, queries: seq<(string, string)>, overrun: bool,
    contentLength: nat, contentType: Option<string>)

  const UrlMax: nat := 32
  const QueryMax: nat := 32

  const NoReq: Req := Req(None, [], "", [], false, 0, None)

  /** A parser's state: the request so far, the lexer, and what the last call returned. */
  datatype State = State(req: Req, lex: Lexer, ok: bool)

  function Wrap(req: Req, r: (Lexer, bool)): State { State(req, r.0, r.1) }

  function Then(s: string, st: State, kind: Kind): State {
    if st.ok then Wrap(st.req, Expect(s, st.lex, kind)) else st
  }

  function ThenWord(s: string, st: State, word: string): State {
    if st.ok then Wrap(st.req, Word(s, st.lex, word)) else st
  }

  /** http__get, http__put, http__options. */
  function MethodIs(s: string, st: State, word: string, m: Method): State {
    var r := Wrap(st.req, Word(s, st.lex, word));
    if r.ok then r.(req := r.req.(verb := Some(m))) else r
  }

  function ParseMethod(s: string, st: State): State {
    var g := MethodIs(s, st, "GET", Get);
    if g.ok then g
    else
      var p := MethodIs(s, g, "PUT", Put);
      if p.ok then p else MethodIs(s, p, "OPTIONS", Options)
  }

  /** http__url_path. */
  function ParsePath(s: string, st: State): State
    decreases UrlMax - |st.req.url|
  {
    var (l, slash) := Expect(s, st.lex, Solidus);
    if !slash then State(st.req, l, false)
    else
      var (m, found) := Peeked(s, l);
      if !found then State(st.req, m, false)
      else if m.token.kind != Literal then State(st.req, m, m.token.kind == Ws)
      else if |st.req.url| >= UrlMax then State(st.req, m, false)
      else
        var req := st.req.(url := st.req.url + [m.token.value]);
        var (n, more) := Peek(s, m.(accepted := true), Solidus);
        if more then ParsePath(s, State(req, n, true)) else State(req, n, true)
  }

  /** http__url_query_key and http__url_query_value, which check the length of the path. */
  function ParseQueryKey(s: string, st: State): State {
    var (m, ok) := Peek(s, st.lex, Literal);
    if ok && |st.req.url| < UrlMax then
      if |st.req.queries| >= QueryMax then State(st.req.(overrun := true), m, false)
      else State(st.req.(pendingKey := m.token.value), m.(accepted := true), true)
    else State(st.req, m, false)
  }

  function ParseQueryValue(s: string, st: State): State {
    var (m, ok) := Peek(s, st.lex, Literal);
    if ok && |st.req.url| < UrlMax then
      State(st.req.(queries := st.req.queries + [(st.req.pendingKey, m.token.value)]), m.(accepted := true), true)
    else State(st.req, m, false)
  }

  /** One key=value& of a query. */
  function ParsePair(s: string, st: State): State {
    var k := Then(s, ParseQueryKey(s, st), Eq);
    if !k.ok then k else Then(s, ParseQueryValue(s, k), Ampersand)
  }

  /** http__url_query: whatever happens, it returns 1. Each round accepts four tokens. */
  function ParseQuery(s: string, st: State): State
    decreases |s| - st.lex.next
  {
    var p := ParsePair(s, st);
    if p.ok && st.lex.next < p.lex.next <= |s| then ParseQuery(s, p) else p.(ok := true)
  }

  /** http__url: a query if the path parsed and a question mark follows, else 1. */
  function ParseUrl(s: string, st: State): State {
    var q := Then(s, ParsePath(s, st), Query);
    if q.ok then ParseQuery(s, q) else q.(ok := true)
  }

  /** http__version. */
  function ParseVersion(s: string, st: State): State {
    ThenWord(s, Then(s, ThenWord(s, st, "HTTP"), Solidus), "1.1")
  }

  /** http__request. */
  function ParseRequestLine(s: string, st: State): State {
    var m := Then(s, ParseMethod(s, st), Ws);
    if !m.ok then m
    else Then(s, Then(s, ParseVersion(s, Then(s, ParseUrl(s, m), Ws)), Cr), Lf)
  }

  // ---------------------------------------------------------------- headers

  /** The number that digits from `p` on spell. */
  function Digits(s: string, p: nat, sofar: nat): nat
    decreases |s| - p
  {
    if p < |s| && IsDigit(s[p]) then Digits(s, p + 1, sofar * 10 + (s[p] as int - '0' as int)) else sofar
  }

  predicate IsSpace(c: char) { c == ' ' || '\t' <= c <= '\r' }

  /** Blanks, a sign, digits. */
  function Numeral(s: string): int {
    var p := Span(s, 0, IsSpace);
    if CharAt(s, p) == '-' then -(Digits(s, p + 1, 0) as int)
    else if CharAt(s, p) == '+' then Digits(s, p + 1, 0)
    else Digits(s, p, 0)
  }

  const LongMax: int := 0x7fff_ffff_ffff_ffff
  const LongMin: int := -0x8000_0000_0000_0000
  const IntRange: int := 0x1_0000_0000
  const SizeRange: nat := 0x1_0000_0000_0000_0000

  /** strtol: the nearest long. */
  function Clamped(v: int): int { if v > LongMax then LongMax else if v < LongMin then LongMin else v }

  /** The int that the low 32 bits of a long are. */
  function CutToInt(v: int): int {
    var u := v % IntRange;
    if u >= IntRange / 2 then u - IntRange else u
  }

  /** An int as a size_t. */
  function ToSize(v: int): nat
    requires -IntRange <= v < IntRange
  {
    if v < 0 then v + SizeRange else v
  }

  /** The content length a header's value gives: atoi, which is strtol cut to an int in
      the C library, stored in a size_t. */
  function LengthOf(s: string): nat { ToSize(CutToInt(Clamped(Numeral(s)))) }

  /** A header with the key asked for, or with any if none is: its value, or none with
      the lexer as it was left. */
  function ParseField(s: string, l: Lexer, key: Option<string>): (Lexer, Option<string>) {
    var (m, ok) := Peek(s, l.(mode := KeyMode), Key);
    if !ok || (key.Some? && !EqualFold(m.token.value, key.value)) then (m, None)
    else
      var (n, found) := Peek(s, m.(accepted := true, mode := ValueMode), Value);
      if found then (n.(accepted := true), Some(n.token.value)) else (n, None)
  }

  /** http__header_kv: content length, content type, or any other header. */
  function ParseHeader(s: string, st: State): State {
    var (l, length) := ParseField(s, st.lex, Some("Content-Length"));
    if length.Some? then State(st.req.(contentLength := LengthOf(length.value)), l, true)
    else
      var (m, kind) := ParseField(s, l, Some("Content-Type"));
      if kind.Some? then State(st.req.(contentType := kind), m, true)
      else
        var (n, other) := ParseField(s, m, None);
        State(st.req, n, other.Some?)
  }

  /** http__header: headers as long as there are any, then the empty line. */
  function ParseHeaders(s: string, st: State): State
    decreases |s| - st.lex.next
  {
    var h := ParseHeader(s, st);
    if h.ok && st.lex.next < h.lex.next <= |s| then ParseHeaders(s, h)
    else
      var (l, cr) := Expect(s, h.lex.(mode := KeyMode), Cr);
      if cr then Wrap(h.req, Expect(s, l, Lf)) else State(h.req, l, true)
  }

  /** What a successful parse yields. */
  datatype Parsed = Parsed(
    verb: Option<Method>, url: seq<string>, queries: seq<(string, string)>,
    contentLength: nat, contentType: Option<string>, headerLength: nat)

  datatype Outcome = Refused | Accepted(parsed: Parsed) | Overrun

  const Begin: State := State(NoReq, Lexer(RequestMode, 0, Token(Solidus, "", 0), true), true)

  /** http_req_parse. */
  function Parse(s: string): Outcome {
    var r := ParseRequestLine(s, Begin);
    if r.req.overrun then Overrun
    else if !r.ok then Refused
    else
      var h := ParseHeaders(s, r);
      if !h.ok then Refused
      else Accepted(Parsed(h.req.verb, h.req.url, h.req.queries, h.req.contentLength, h.req.contentType, h.lex.next))
  }
}
