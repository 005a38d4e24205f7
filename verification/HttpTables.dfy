/** The parser's two tables, for every text. */
module HttpTables {
  import opened Common
  import opened Http
  import opened HttpParser

  /** How many ampersands there are before `p`. */
  function Ampersands(s: string, p: nat): nat {
    if p == 0 then 0 else Ampersands(s, p - 1) + if p - 1 < |s| && s[p - 1] == '&' then 1 else 0
  }

  lemma {:induction false} MoreAmpersands(s: string, p: nat, q: nat)
    requires p <= q
    ensures Ampersands(s, p) <= Ampersands(s, q)
    decreases q
  {
    if p < q { MoreAmpersands(s, p, q - 1); }
  }

  /** An ampersand accepted is one more behind. */
  lemma {:induction false} AmpersandAccepted(s: string, l: Lexer)
    requires l.accepted && l.mode == RequestMode && l.next <= |s|
    ensures var (m, ok) := Expect(s, l, Ampersand);
      && m.mode == l.mode && l.next <= m.next <= |s|
      && (ok ==> m.accepted && Ampersands(s, m.next) == Ampersands(s, l.next) + 1)
  {
    PeekMoves(s, l);
  }

  /** What one pair of a query does to the table: it grows by one, with one more
      ampersand behind if another pair is to follow; and only a full table is overrun. */
  lemma {:induction false} PairFills(s: string, st: State)
    requires st.lex.mode == RequestMode && st.lex.next <= |s| && |st.req.queries| <= QueryMax && !st.req.overrun
    ensures var p := ParsePair(s, st);
      && p.lex.mode == RequestMode && p.lex.next <= |s| && |p.req.queries| <= QueryMax && p.req.url == st.req.url
      && (p.req.overrun ==> |st.req.queries| == QueryMax && !p.ok)
      && (p.ok ==> |p.req.queries| == |st.req.queries| + 1)
      && (p.ok ==> Ampersands(s, st.lex.next) < Ampersands(s, p.lex.next))
  {
    hide Peeked, Ampersands;
    PeekMoves(s, st.lex);
    var k := ParseQueryKey(s, st);
    PeekMoves(s, k.lex);
    var e := Then(s, k, Eq);
    PeekMoves(s, e.lex);
    var v := ParseQueryValue(s, e);
    if v.ok && e.ok {
      AmpersandAccepted(s, v.lex);
      MoreAmpersands(s, st.lex.next, v.lex.next);
    }
  }

  /** The queries read so far are no more than the ampersands behind. */
  lemma {:induction false} QueryFills(s: string, st: State)
    requires st.lex.mode == RequestMode && st.lex.next <= |s| && !st.req.overrun
    requires |st.req.queries| <= QueryMax && |st.req.queries| <= Ampersands(s, st.lex.next)
    ensures var r := ParseQuery(s, st);
      && |r.req.queries| <= QueryMax && r.req.url == st.req.url
      && (r.req.overrun ==> QueryMax <= Ampersands(s, |s|))
    decreases |s| - st.lex.next
  {
    hide ParsePair, Ampersands;
    PairFills(s, st);
    MoreAmpersands(s, st.lex.next, |s|);
    var p := ParsePair(s, st);
    if p.ok && st.lex.next < p.lex.next <= |s| { QueryFills(s, p); }
  }

  lemma {:induction false} PathFills(s: string, st: State)
    requires st.lex.mode == RequestMode && st.lex.next <= |s| && |st.req.url| <= UrlMax
    ensures var r := ParsePath(s, st);
      && r.lex.mode == RequestMode && r.lex.next <= |s| && |r.req.url| <= UrlMax
      && r.req == st.req.(url := r.req.url)
    decreases UrlMax - |st.req.url|
  {
    hide Peeked;
    PeekMoves(s, st.lex);
    var l := Expect(s, st.lex, Solidus).0;
    PeekMoves(s, l);
    var m := Peeked(s, l).0;
    PeekMoves(s, m.(accepted := true));
    if |st.req.url| < UrlMax && m.token.kind == Literal {
      var n := Peek(s, m.(accepted := true), Solidus).0;
      PathFills(s, State(st.req.(url := st.req.url + [m.token.value]), n, true));
    }
  }

  ghost predicate Inside(s: string, req: Req) {
    && |req.url| <= UrlMax && |req.queries| <= QueryMax
    && (req.overrun ==> QueryMax <= Ampersands(s, |s|))
  }

  lemma {:induction false} UrlFills(s: string, st: State)
    requires st.lex.mode == RequestMode && st.lex.next <= |s|
    requires st.req.url == [] && st.req.queries == [] && !st.req.overrun
    ensures Inside(s, ParseUrl(s, st).req)
  {
    hide ParsePath, ParseQuery, Peeked, Ampersands;
    PathFills(s, st);
    var p := ParsePath(s, st);
    PeekMoves(s, p.lex);
    var q := Then(s, p, Query);
    if q.ok { QueryFills(s, q); }
  }

  lemma {:induction false} LineFills(s: string)
    ensures Inside(s, ParseRequestLine(s, Begin).req)
  {
    hide ParseUrl, Peeked, Ampersands, EqualFold;
    PeekMoves(s, Begin.lex);
    var g := MethodIs(s, Begin, "GET", Get);
    PeekMoves(s, g.lex);
    var p := MethodIs(s, g, "PUT", Put);
    PeekMoves(s, p.lex);
    var a := ParseMethod(s, Begin);
    PeekMoves(s, a.lex);
    var b := Then(s, a, Ws);
    if b.ok { UrlFills(s, b); }
  }

  lemma {:induction false} HeaderKeepsUrl(s: string, st: State)
    ensures var h := ParseHeader(s, st); h.req.url == st.req.url && h.req.queries == st.req.queries
  {
    hide ParseField, LengthOf;
  }

  lemma {:induction false} HeadersKeepUrl(s: string, st: State)
    ensures var h := ParseHeaders(s, st); h.req.url == st.req.url && h.req.queries == st.req.queries
    decreases |s| - st.lex.next
  {
    hide ParseHeader, Expect;
    HeaderKeepsUrl(s, st);
    var h := ParseHeader(s, st);
    if h.ok && st.lex.next < h.lex.next <= |s| { HeadersKeepUrl(s, h); }
  }

  /** For every text: what the parser accepts fits both tables, and a text with fewer
      than 32 ampersands never overruns the table of queries. */
  lemma {:induction false} TablesHold(s: string)
    ensures Parse(s).Accepted? ==> |Parse(s).parsed.url| <= UrlMax && |Parse(s).parsed.queries| <= QueryMax
    ensures Ampersands(s, |s|) < QueryMax ==> Parse(s) != Overrun
  {
    hide ParseRequestLine, ParseHeaders, Ampersands;
    LineFills(s);
    HeadersKeepUrl(s, ParseRequestLine(s, Begin));
  }
}
