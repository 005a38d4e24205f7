/** The header lines the parser reads, for every text, and with the request line what it
    makes of any text at all. */
module HttpHeaders {
  import opened Common
  import opened Http
  import opened HttpPrint
  import opened HttpLine

  /** A key and its colon. */
  ghost predicate KeyIn(s: string, p: nat, k: string) {
    Run(s, p, p + |k|, IsKeyChar) && k == s[p..p + |k|] && CharIn(s, p + |k|, ':')
  }

  /** The value of a header: everything up to the end of the line. */
  ghost predicate ValueIn(s: string, p: nat, v: string, q: nat) {
    && p + |v| <= |s| && v == s[p..p + |v|] && (forall i :: 0 <= i < |v| ==> IsValueChar(v[i]))
    && CharIn(s, p + |v|, '\r') && CharIn(s, p + |v| + 1, '\n') && q == p + |v| + 2
  }

  /** A header line: key, colon, blanks or none, value, end of line. */
  ghost predicate HeaderIn(s: string, p: nat, h: (string, string), q: nat) {
    && KeyIn(s, p, h.0)
    && exists i: nat ::
         && p + |h.0| + 1 <= i <= |s| && (forall j :: p + |h.0| + 1 <= j < i ==> IsBlank(s[j]))
         && (i < |s| ==> !IsBlank(s[i])) && ValueIn(s, i, h.1, q)
  }

  ghost predicate HeadersIn(s: string, p: nat, hs: seq<(string, string)>, q: nat)
    decreases |hs|
  {
    if hs == [] then q == p else exists m: nat :: HeaderIn(s, p, hs[0], m) && HeadersIn(s, m, hs[1..], q)
  }

  /** The token of a key is a key in the text, and the other way round. */
  lemma {:induction false} KeyTokenText(s: string, p: nat)
    requires p <= |s|
    ensures var t := KeyToken(s, p);
      && (t.Some? && t.value.kind == Key ==>
            && KeyIn(s, p, t.value.value) && p + |t.value.value| + 1 <= t.value.end <= |s|
            && (forall j :: p + |t.value.value| + 1 <= j < t.value.end ==> IsBlank(s[j]))
            && (t.value.end < |s| ==> !IsBlank(s[t.value.end])))
      && (t.Some? && t.value.kind != Key ==>
            || (t == Some(Token(Cr, "", p + 1)) && CharIn(s, p, '\r'))
            || (t == Some(Token(Lf, "", p + 1)) && CharIn(s, p, '\n')))
      && (CharIn(s, p, '\r') ==> t == Some(Token(Cr, "", p + 1)))
      && (CharIn(s, p, '\n') ==> t == Some(Token(Lf, "", p + 1)))
  {
    SpanRuns(s, p, IsKeyChar);
    var n := Span(s, p, IsKeyChar);
    if p + n < |s| { SpanRuns(s, p + n + 1, IsBlank); }
  }

  lemma {:induction false} KeyIsToken(s: string, p: nat, k: string)
    requires KeyIn(s, p, k)
    ensures KeyToken(s, p).Some? && KeyToken(s, p).value.kind == Key && KeyToken(s, p).value.value == k
  {
    assert Has(s, p, k) && !IsKeyChar(':');
    forall i | 0 <= i < |k| ensures IsKeyChar(k[i]) { assert s[p + i] == k[i]; }
    SpanExact(s, p, k, IsKeyChar);
    assert IsKeyChar(s[p]);
  }

  lemma {:induction false} ValueTokenText(s: string, p: nat)
    requires p <= |s|
    ensures var t := ValueToken(s, p);
      t.Some? ==> t.value.kind == Value && ValueIn(s, p, t.value.value, t.value.end) && t.value.end <= |s|
  {
    SpanRuns(s, p, IsValueChar);
  }

  lemma {:induction false} ValueIsToken(s: string, p: nat, v: string, q: nat)
    requires ValueIn(s, p, v, q)
    ensures ValueToken(s, p) == Some(Token(Value, v, q))
  {
    assert Has(s, p, v);
    SpanExact(s, p, v, IsValueChar);
  }

  /** Blanks go as far as they go. */
  lemma {:induction false} SameStop(s: string, p: nat, i: nat, j: nat)
    requires p <= i <= |s| && (forall k :: p <= k < i ==> IsBlank(s[k])) && (i < |s| ==> !IsBlank(s[i]))
    requires p <= j <= |s| && (forall k :: p <= k < j ==> IsBlank(s[k])) && (j < |s| ==> !IsBlank(s[j]))
    ensures i == j
  {
  }

  /** A header line is there if and only if its two tokens are. */
  lemma {:induction false} HeaderIsTokens(s: string, p: nat, h: (string, string), q: nat)
    requires HeaderIn(s, p, h, q)
    ensures KeyToken(s, p).Some? && KeyToken(s, p).value == Token(Key, h.0, KeyToken(s, p).value.end)
    ensures ValueToken(s, KeyToken(s, p).value.end) == Some(Token(Value, h.1, q))
    ensures p < KeyToken(s, p).value.end < q <= |s|
  {
    hide KeyToken, ValueToken;
    KeyIsToken(s, p, h.0);
    KeyTokenText(s, p);
    var i: nat :|
      && p + |h.0| + 1 <= i <= |s| && (forall j :: p + |h.0| + 1 <= j < i ==> IsBlank(s[j]))
      && (i < |s| ==> !IsBlank(s[i])) && ValueIn(s, i, h.1, q);
    SameStop(s, p + |h.0| + 1, i, KeyToken(s, p).value.end);
    ValueIsToken(s, i, h.1, q);
  }

  lemma {:induction false} TokensAreHeader(s: string, p: nat)
    requires p <= |s| && KeyToken(s, p).Some? && KeyToken(s, p).value.kind == Key
    requires KeyToken(s, p).value.end <= |s| && ValueToken(s, KeyToken(s, p).value.end).Some?
    ensures var k, v := KeyToken(s, p).value, ValueToken(s, KeyToken(s, p).value.end).value;
      HeaderIn(s, p, (k.value, v.value), v.end)
  {
    hide KeyToken, ValueToken, KeyIn, ValueIn;
    KeyTokenText(s, p);
    ValueTokenText(s, KeyToken(s, p).value.end);
  }

  /** A field whose key is wanted is read to the end of its line; any other stays in front. */
  lemma {:induction false} FieldReads(
      s: string, l: Lexer, p: nat, k: string, i: nat, v: string, q: nat, key: Option<string>)
    requires FacingKey(s, l, p)
    requires KeyToken(s, p) == Some(Token(Key, k, i)) && ValueToken(s, i) == Some(Token(Value, v, q))
    ensures var (m, value) := ParseField(s, l, key);
      if key.None? || EqualFold(k, key.value) then value == Some(v) && m.accepted && m.next == q
      else value == None && FacingKey(s, m, p)
  {
    hide KeyToken, ValueToken, EqualFold;
  }

  lemma {:induction false} HeaderRead(s: string, st: State, p: nat, h: (string, string), q: nat)
    requires FacingKey(s, st.lex, p) && HeaderIn(s, p, h, q)
    ensures var r := ParseHeader(s, st);
      r.ok && r.req == Noted(st.req, h) && r.lex.accepted && r.lex.next == q && p < q <= |s|
  {
    hide KeyToken, ValueToken, EqualFold, ParseField, HeaderIn;
    HeaderIsTokens(s, p, h, q);
    var i := KeyToken(s, p).value.end;
    FieldReads(s, st.lex, p, h.0, i, h.1, q, Some("Content-Length"));
    var l := ParseField(s, st.lex, Some("Content-Length")).0;
    if !EqualFold(h.0, "Content-Length") {
      FieldReads(s, l, p, h.0, i, h.1, q, Some("Content-Type"));
      var m := ParseField(s, l, Some("Content-Type")).0;
      if !EqualFold(h.0, "Content-Type") { FieldReads(s, m, p, h.0, i, h.1, q, None); }
    }
  }

  /** No header line starts here. */
  ghost predicate NoHeader(s: string, p: nat) { forall h, q: nat :: !HeaderIn(s, p, h, q) }

  /** A key starts here, but no header line. */
  ghost predicate Broken(s: string, p: nat) { NoHeader(s, p) && exists k :: KeyIn(s, p, k) }

  /** Without a header line the parser reads nothing, and unless a key is there it still
      faces the same place. */
  lemma {:induction false} FieldStays(s: string, l: Lexer, p: nat, key: Option<string>)
    requires FacingKey(s, l, p) && !(KeyToken(s, p).Some? && KeyToken(s, p).value.kind == Key)
    ensures var (m, value) := ParseField(s, l, key); value == None && FacingKey(s, m, p)
  {
    hide KeyToken;
  }

  lemma {:induction false} NoHeaderStays(s: string, st: State, p: nat)
    requires FacingKey(s, st.lex, p) && p <= |s| && NoHeader(s, p) && !Broken(s, p)
    ensures var r := ParseHeader(s, st); !r.ok && r.req == st.req && FacingKey(s, r.lex, p)
  {
    hide KeyToken, ParseField, HeaderIn, KeyIn;
    KeyTokenText(s, p);
    FieldStays(s, st.lex, p, Some("Content-Length"));
    var l := ParseField(s, st.lex, Some("Content-Length")).0;
    FieldStays(s, l, p, Some("Content-Type"));
    FieldStays(s, ParseField(s, l, Some("Content-Type")).0, p, None);
  }

  /** The line from `p` stops at `r`, but not with an end of line. */
  ghost predicate Unended(s: string, p: nat, r: nat) {
    && p <= r <= |s| && (forall i :: p <= i < r ==> IsValueChar(s[i]))
    && (r < |s| ==> !IsValueChar(s[r])) && !(CharIn(s, r, '\r') && CharIn(s, r + 1, '\n'))
  }

  /** A key, its colon and the blanks after it are part of the line. */
  lemma {:induction false} KeyBeforeStop(s: string, p: nat, r: nat)
    requires Unended(s, p, r) && KeyToken(s, p).Some? && KeyToken(s, p).value.kind == Key
    ensures Unended(s, KeyToken(s, p).value.end, r)
  {
    hide KeyToken;
    KeyTokenText(s, p);
  }

  lemma {:induction false} UnendedNoValue(s: string, p: nat, r: nat)
    requires Unended(s, p, r)
    ensures ValueToken(s, p) == None
  {
    assert Has(s, p, s[p..r]);
    SpanExact(s, p, s[p..r], IsValueChar);
  }

  lemma {:induction false} NoValueUnended(s: string, p: nat) returns (r: nat)
    requires p <= |s| && ValueToken(s, p) == None
    ensures Unended(s, p, r)
  {
    SpanRuns(s, p, IsValueChar);
    r := p + Span(s, p, IsValueChar);
  }

  /** A value whose line does not end is not read, and nothing further on in it. */
  lemma {:induction false} FieldFails(s: string, l: Lexer, p: nat, r: nat, key: Option<string>) returns (at: nat)
    requires FacingKey(s, l, p) && Unended(s, p, r)
    ensures var (m, value) := ParseField(s, l, key); value == None && FacingKey(s, m, at) && Unended(s, at, r)
  {
    hide KeyToken, ValueToken, EqualFold, Unended;
    at := p;
    var (m, ok) := Peek(s, l.(mode := KeyMode), Key);
    if ok && (key.None? || EqualFold(m.token.value, key.value)) {
      KeyBeforeStop(s, p, r);
      at := KeyToken(s, p).value.end;
      UnendedNoValue(s, at, r);
    }
  }

  lemma {:induction false} BrokenFails(s: string, st: State, p: nat)
    requires FacingKey(s, st.lex, p) && p <= |s| && Broken(s, p)
    ensures var r := ParseHeader(s, st); !r.ok && r.req == st.req
  {
    hide KeyToken, ValueToken, ParseField, HeaderIn, KeyIn, Unended;
    var k :| KeyIn(s, p, k);
    KeyIsToken(s, p, k);
    KeyTokenText(s, p);
    var i := KeyToken(s, p).value.end;
    if ValueToken(s, i).Some? {
      TokensAreHeader(s, p);
      return;
    }
    var r := NoValueUnended(s, i);
    LineUnended(s, p, k, i, r);
    var a := FieldFails(s, st.lex, p, r, Some("Content-Length"));
    var l := ParseField(s, st.lex, Some("Content-Length")).0;
    var b := FieldFails(s, l, a, r, Some("Content-Type"));
    var c := FieldFails(s, ParseField(s, l, Some("Content-Type")).0, b, r, None);
  }

  lemma {:induction false} LineUnended(s: string, p: nat, k: string, i: nat, r: nat)
    requires KeyIn(s, p, k) && p + |k| + 1 <= i && Unended(s, i, r)
    requires forall j :: p + |k| + 1 <= j < i ==> IsBlank(s[j])
    ensures Unended(s, p, r)
  {
  }

  /** The end of the headers: an empty line, or anything that is no header line. */
  lemma {:induction false} HeadersEnd(s: string, st: State, p: nat)
    requires FacingKey(s, st.lex, p) && p <= |s| && NoHeader(s, p)
    ensures var r := ParseHeaders(s, st);
      && r.req == st.req
      && (!Broken(s, p) ==> (r.ok <==> CharIn(s, p, '\r') ==> CharIn(s, p + 1, '\n')))
      && (CharIn(s, p, '\r') && CharIn(s, p + 1, '\n') ==> r.lex.next == p + 2)
  {
    hide KeyToken, ParseHeader, HeaderIn, KeyIn;
    KeyTokenText(s, p);
    if p < |s| { KeyTokenText(s, p + 1); }
    if Broken(s, p) {
      BrokenFails(s, st, p);
      BrokenIsNoEnd(s, p);
    } else {
      NoHeaderStays(s, st, p);
    }
  }

  lemma {:induction false} BrokenIsNoEnd(s: string, p: nat)
    requires Broken(s, p)
    ensures !CharIn(s, p, '\r')
  {
    hide HeaderIn;
    var k :| KeyIn(s, p, k);
    assert IsKeyChar(s[p]);
  }

  /** The headers of any text: as many header lines as there are, each noted. */
  lemma {:induction false} HeadersSound(s: string, st: State, p: nat) returns (hs: seq<(string, string)>, q: nat)
    requires st.lex.accepted && st.lex.next == p && p <= |s|
    ensures HeadersIn(s, p, hs, q) && NoHeader(s, q) && p <= q <= |s|
    ensures var r := ParseHeaders(s, st);
      && r.req == NotedAll(st.req, hs)
      && (!Broken(s, q) ==> (r.ok <==> CharIn(s, q, '\r') ==> CharIn(s, q + 1, '\n')))
      && (CharIn(s, q, '\r') && CharIn(s, q + 1, '\n') ==> r.lex.next == q + 2)
    decreases |s| - p
  {
    hide KeyToken, HeaderIn, Broken, Noted;
    hs, q := [], p;
    if NoHeader(s, p) {
      HeadersEnd(s, st, p);
    } else {
      hide NoHeader;
      var h, m := FirstHeader(s, p);
      HeaderRead(s, st, p, h, m);
      hide ParseHeader;
      var rest;
      rest, q := HeadersSound(s, ParseHeader(s, st), m);
      hs := [h] + rest;
      assert hs[1..] == rest;
    }
  }

  lemma {:induction false} FirstHeader(s: string, p: nat) returns (h: (string, string), q: nat)
    requires !NoHeader(s, p)
    ensures HeaderIn(s, p, h, q)
  {
    hide HeaderIn;
    h, q :| HeaderIn(s, p, h, q);
  }

  ghost predicate HasLine(s: string) { exists verb, path, qs, q: nat :: LineIn(s, verb, path, qs, q) }

  /** Any text. It is accepted only if it starts with a request line that fits the tables;
      header lines follow until there is none; and the request is what they say and ends
      after the empty line, if there is one. Every text that starts with such a line is
      accepted, unless its headers end in a carriage return alone, or perhaps in a key
      whose line does not end. */
  lemma {:induction false} AnyText(s: string) returns (line: nat, hs: seq<(string, string)>, end: nat)
    ensures Parse(s).Accepted? ==> HasLine(s)
    ensures HasLine(s) ==>
      && HeadersIn(s, line, hs, end) && NoHeader(s, end)
      && (!Broken(s, end) ==> (Parse(s).Accepted? <==> CharIn(s, end, '\r') ==> CharIn(s, end + 1, '\n')))
    ensures Parse(s).Accepted? ==>
      var p, noted := Parse(s).parsed, NotedAll(NoReq, hs);
      && LineIn(s, p.verb, p.url, p.queries, line)
      && p.contentLength == noted.contentLength && p.contentType == noted.contentType
      && (CharIn(s, end, '\r') && CharIn(s, end + 1, '\n') ==> p.headerLength == end + 2)
  {
    hide ParseRequestLine, ParseHeaders, LineIn, HeadersIn, NoHeader, Broken, NotedAll;
    var r := ParseRequestLine(s, Begin);
    line, hs, end := r.lex.next, [], 0;
    LineSound(s);
    LineIsRead(s);
    if r.ok && !r.req.overrun {
      hs, end := HeadersSound(s, r, line);
      NotedFields(r.req, NoReq, hs);
    }
  }
}
