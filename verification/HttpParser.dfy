/** The parser of src/http.c as a program: its lexer and request are fields that the
    recursive-descent methods and the header loop update, each proved to do what the
    function of the same purpose in `Http` says. */
module HttpParser {
  import opened Common
  import opened Http

  // --------------------------------------- every accepted token makes progress

  lemma {:induction false} PeekMoves(s: string, l: Lexer)
    requires l.next <= |s|
    ensures var (m, found) := Peeked(s, l);
      l.next <= m.next <= |s| && m.mode == l.mode && (l.accepted && found ==> l.next < m.next)
  {
    hide Classify;
    TokenMoves(s, l.mode, l.next);
  }

  lemma {:induction false} PairMoves(s: string, st: State)
    requires st.lex.next <= |s|
    ensures var p := ParsePair(s, st);
      st.lex.next <= p.lex.next <= |s| && (p.ok ==> st.lex.next < p.lex.next)
  {
    hide Peeked;
    PeekMoves(s, st.lex);
    var k := ParseQueryKey(s, st);
    PeekMoves(s, k.lex);
    var e := Then(s, k, Eq);
    PeekMoves(s, e.lex);
    var v := ParseQueryValue(s, e);
    PeekMoves(s, v.lex);
  }

  lemma {:induction false} FieldMoves(s: string, l: Lexer, key: Option<string>)
    requires l.next <= |s|
    ensures var (m, value) := ParseField(s, l, key);
      l.next <= m.next <= |s| && (value.Some? ==> l.next < m.next)
  {
    hide Peeked, EqualFold;
    PeekMoves(s, l.(mode := KeyMode));
    var (m, ok) := Peek(s, l.(mode := KeyMode), Key);
    PeekMoves(s, m.(accepted := true, mode := ValueMode));
  }

  lemma {:induction false} HeaderMoves(s: string, st: State)
    requires st.lex.next <= |s|
    ensures var h := ParseHeader(s, st);
      st.lex.next <= h.lex.next <= |s| && (h.ok ==> st.lex.next < h.lex.next)
  {
    hide ParseField;
    FieldMoves(s, st.lex, Some("Content-Length"));
    var l := ParseField(s, st.lex, Some("Content-Length")).0;
    FieldMoves(s, l, Some("Content-Type"));
    var m := ParseField(s, l, Some("Content-Type")).0;
    FieldMoves(s, m, None);
  }

  class Parser {
    const input: string
    var mode: Mode
    var next: nat
    var token: Token
    var accepted: bool
    var req: Req

    ghost function Lex(): Lexer
      reads this
    {
      Lexer(mode, next, token, accepted)
    }

    ghost function View(ok: bool): State
      reads this
    {
      State(req, Lex(), ok)
    }

    constructor (input: string)
      ensures this.input == input && View(true) == Begin && next <= |input|
    {
      this.input := input;
      mode, next, token, accepted := RequestMode, 0, Token(Solidus, "", 0), true;
      req := NoReq;
    }

    method NextToken() returns (found: bool)
      requires next <= |input|
      modifies this`next, this`token, this`accepted
      ensures next <= |input|
      ensures (Lex(), found) == Peeked(input, old(Lex()))
    {
      hide Classify;
      PeekMoves(input, Lex());
      if !accepted { return true; }
      var t := Classify(input, mode, next);
      if t.None? { return false; }
      token, next, accepted := t.value, t.value.end, false;
      return true;
    }

    method PeekKind(kind: Kind) returns (ok: bool)
      requires next <= |input|
      modifies this`next, this`token, this`accepted
      ensures next <= |input|
      ensures (Lex(), ok) == Peek(input, old(Lex()), kind)
    {
      hide Peeked;
      ok := NextToken();
      ok := ok && token.kind == kind;
    }

    method ExpectKind(kind: Kind) returns (ok: bool)
      requires next <= |input|
      modifies this`next, this`token, this`accepted
      ensures next <= |input|
      ensures (Lex(), ok) == Expect(input, old(Lex()), kind)
    {
      hide Peek;
      ok := PeekKind(kind);
      if ok { accepted := true; }
    }

    method ExpectWord(word: string) returns (ok: bool)
      requires next <= |input|
      modifies this`next, this`token, this`accepted
      ensures next <= |input|
      ensures (Lex(), ok) == Word(input, old(Lex()), word)
    {
      hide Peek, EqualFold;
      ok := PeekKind(Literal);
      if !ok { return; }
      if !EqualFold(word, token.value) { return false; }
      accepted := true;
    }

    method MethodWord(word: string, m: Method) returns (ok: bool)
      requires next <= |input|
      modifies this
      ensures next <= |input|
      ensures View(ok) == MethodIs(input, old(View(true)), word, m)
    {
      hide Word;
      ok := ExpectWord(word);
      if ok { req := req.(verb := Some(m)); }
    }

    method RequestMethod() returns (ok: bool)
      requires next <= |input|
      modifies this
      ensures next <= |input|
      ensures View(ok) == ParseMethod(input, old(View(true)))
    {
      hide Word;
      ok := MethodWord("GET", Get);
      if ok { return; }
      ok := MethodWord("PUT", Put);
      if ok { return; }
      ok := MethodWord("OPTIONS", Options);
    }

    method UrlPath() returns (ok: bool)
      requires next <= |input|
      modifies this
      ensures next <= |input|
      ensures View(ok) == ParsePath(input, old(View(true)))
      decreases UrlMax - |req.url|
    {
      hide Peeked, Expect, Peek;
      ok := ExpectKind(Solidus);
      if !ok { return; }
      ok := NextToken();
      if !ok { return; }
      if token.kind != Literal { return token.kind == Ws; }
      if |req.url| >= UrlMax { return false; }
      req := req.(url := req.url + [token.value]);
      accepted := true;
      var more := PeekKind(Solidus);
      if more { ok := UrlPath(); } else { ok := true; }
    }

    method UrlQueryKey() returns (ok: bool)
      requires next <= |input|
      modifies this
      ensures next <= |input|
      ensures View(ok) == ParseQueryKey(input, old(View(true)))
    {
      hide Peek;
      ok := PeekKind(Literal);
      if !ok || |req.url| >= UrlMax { return false; }
      if |req.queries| >= QueryMax {
        req := req.(overrun := true);
        return false;
      }
      req := req.(pendingKey := token.value);
      accepted := true;
    }

    method UrlQueryValue() returns (ok: bool)
      requires next <= |input|
      modifies this
      ensures next <= |input|
      ensures View(ok) == ParseQueryValue(input, old(View(true)))
    {
      hide Peek;
      ok := PeekKind(Literal);
      if !ok || |req.url| >= UrlMax { return false; }
      req := req.(queries := req.queries + [(req.pendingKey, token.value)]);
      accepted := true;
    }

    method UrlPair() returns (ok: bool)
      requires next <= |input|
      modifies this
      ensures next <= |input|
      ensures View(ok) == ParsePair(input, old(View(true)))
    {
      hide Expect, ParseQueryKey, ParseQueryValue;
      ok := UrlQueryKey();
      if ok { ok := ExpectKind(Eq); }
      if !ok { return; }
      ok := UrlQueryValue();
      if ok { ok := ExpectKind(Ampersand); }
    }

    method UrlQuery()
      requires next <= |input|
      modifies this
      ensures next <= |input|
      ensures View(true) == ParseQuery(input, old(View(true)))
      decreases |input| - next
    {
      hide ParsePair;
      PairMoves(input, View(true));
      var ok := UrlPair();
      if ok { UrlQuery(); }
    }

    method Url()
      requires next <= |input|
      modifies this
      ensures next <= |input|
      ensures View(true) == ParseUrl(input, old(View(true)))
    {
      hide ParsePath, ParseQuery, Expect;
      var ok := UrlPath();
      if ok { ok := ExpectKind(Query); }
      if ok { UrlQuery(); }
    }

    /** http__request. */
    method RequestLine() returns (ok: bool)
      requires next <= |input|
      modifies this
      ensures next <= |input|
      ensures View(ok) == ParseRequestLine(input, old(View(true)))
    {
      hide ParseMethod, ParseUrl, Expect, Word;
      ok := RequestMethod();
      if ok { ok := ExpectKind(Ws); }
      if !ok { return; }
      Url();
      ok := ExpectKind(Ws);
      if ok { ok := ExpectWord("HTTP"); }
      if ok { ok := ExpectKind(Solidus); }
      if ok { ok := ExpectWord("1.1"); }
      if ok { ok := ExpectKind(Cr); }
      if ok { ok := ExpectKind(Lf); }
    }

    method Field(key: Option<string>) returns (value: Option<string>)
      requires next <= |input|
      modifies this`mode, this`next, this`token, this`accepted
      ensures next <= |input|
      ensures (Lex(), value) == ParseField(input, old(Lex()), key)
    {
      hide Peek, EqualFold;
      mode := KeyMode;
      var ok := PeekKind(Key);
      if !ok || (key.Some? && !EqualFold(token.value, key.value)) { return None; }
      accepted, mode := true, ValueMode;
      ok := PeekKind(Value);
      if !ok { return None; }
      accepted := true;
      return Some(token.value);
    }

    method HeaderField() returns (ok: bool)
      requires next <= |input|
      modifies this
      ensures next <= |input|
      ensures View(ok) == ParseHeader(input, old(View(true)))
    {
      hide ParseField;
      var value := Field(Some("Content-Length"));
      if value.Some? {
        req := req.(contentLength := LengthOf(value.value));
        return true;
      }
      value := Field(Some("Content-Type"));
      if value.Some? {
        req := req.(contentType := value);
        return true;
      }
      value := Field(None);
      return value.Some?;
    }

    /** http__header. */
    method Headers() returns (ok: bool)
      requires next <= |input|
      modifies this
      ensures next <= |input|
      ensures View(ok) == ParseHeaders(input, old(View(true)))
    {
      hide ParseHeader, Expect;
      ghost var start := View(true);
      HeaderMoves(input, View(true));
      ghost var before := View(true);
      ok := HeaderField();
      while ok
        invariant before.lex.next <= |input| && View(ok) == ParseHeader(input, before)
        invariant ParseHeaders(input, before) == ParseHeaders(input, start)
        invariant before.lex.next <= next <= |input| && (ok ==> before.lex.next < next)
        decreases |input| - next, ok
      {
        before := View(true);
        HeaderMoves(input, before);
        ok := HeaderField();
      }
      mode := KeyMode;
      ok := ExpectKind(Cr);
      if ok { ok := ExpectKind(Lf); } else { ok := true; }
    }
  }

  /** http_req_parse. */
  method ParseText(input: string) returns (r: Outcome)
    ensures r == Parse(input)
  {
    hide ParseRequestLine, ParseHeaders;
    var p := new Parser(input);
    var ok := p.RequestLine();
    if p.req.overrun { return Overrun; }
    if !ok { return Refused; }
    ok := p.Headers();
    if !ok { return Refused; }
    return Accepted(Parsed(p.req.verb, p.req.url, p.req.queries, p.req.contentLength, p.req.contentType, p.next));
  }
}
