/** The canonical request (section 3 of RFC 7230) and that the parser inverts it. */
module HttpPrint {
  import opened Common
  import opened Http

  datatype Request = Request(
    m: Method, path: seq<string>, queries: seq<(string, string)>, headers: seq<(string, string)>)

  function MethodName(m: Method): string {
    match m
    case Get => "GET"
    case Put => "PUT"
    case Options => "OPTIONS"
  }

  function Slashes(path: seq<string>): string {
    if path == [] then "" else "/" + path[0] + Slashes(path[1..])
  }

  function PrintPath(path: seq<string>): string { if path == [] then "/" else Slashes(path) }

  function PrintPair(q: (string, string)): string { q.0 + "=" + q.1 }

  function PrintPairs(qs: seq<(string, string)>): string
    requires qs != []
  {
    if |qs| == 1 then PrintPair(qs[0]) else PrintPair(qs[0]) + "&" + PrintPairs(qs[1..])
  }

  function PrintQuery(qs: seq<(string, string)>): string { if qs == [] then "" else "?" + PrintPairs(qs) }

  function PrintHeader(h: (string, string)): string { h.0 + ": " + h.1 + "\r\n" }

  function PrintHeaders(hs: seq<(string, string)>): string {
    if hs == [] then "\r\n" else PrintHeader(hs[0]) + PrintHeaders(hs[1..])
  }

  function Print(r: Request): string {
    MethodName(r.m) + " " + PrintPath(r.path) + PrintQuery(r.queries) + " HTTP/1.1\r\n" + PrintHeaders(r.headers)
  }

  // ------------------------------------------------------- what can be printed

  ghost predicate IsWord(w: string) { w != "" && forall i :: 0 <= i < |w| ==> IsLiteral(w[i]) }

  ghost predicate IsKey(k: string) { k != "" && forall i :: 0 <= i < |k| ==> IsKeyChar(k[i]) }

  ghost predicate IsValue(v: string) {
    (v != "" ==> !IsBlank(v[0])) && forall i :: 0 <= i < |v| ==> IsValueChar(v[i])
  }

  ghost predicate Printable(r: Request) {
    && (forall i :: 0 <= i < |r.path| ==> IsWord(r.path[i]))
    && (forall i :: 0 <= i < |r.queries| ==> IsWord(r.queries[i].0) && IsWord(r.queries[i].1))
    && (forall i :: 0 <= i < |r.headers| ==> IsKey(r.headers[i].0) && IsValue(r.headers[i].1))
  }

  // ------------------------------------------------------------ text in place

  ghost predicate Has(s: string, p: nat, t: string) { p + |t| <= |s| && s[p..p + |t|] == t }

  lemma {:induction false} HasConcat(s: string, p: nat, a: string, b: string)
    ensures Has(s, p, a + b) <==> Has(s, p, a) && Has(s, p + |a|, b)
  {
    if p + |a| + |b| <= |s| {
      assert s[p..p + |a| + |b|] == s[p..p + |a|] + s[p + |a|..p + |a| + |b|];
      assert (a + b)[..|a|] == a && (a + b)[|a|..] == b;
      if Has(s, p, a + b) {
        assert s[p..p + |a|] == s[p..p + |a| + |b|][..|a|];
        assert s[p + |a|..p + |a| + |b|] == s[p..p + |a| + |b|][|a|..];
      }
    }
  }

  lemma {:induction false} HasAt(s: string, p: nat, t: string, i: nat)
    requires Has(s, p, t) && i < |t|
    ensures p + i < |s| && s[p + i] == t[i] && CharAt(s, p + i) == t[i]
  {
    assert s[p..p + |t|][i] == t[i];
  }

  lemma {:induction false} SpanExact(s: string, p: nat, t: string, f: char -> bool)
    requires Has(s, p, t) && (forall i :: 0 <= i < |t| ==> f(t[i]))
    requires p + |t| == |s| || !f(s[p + |t|])
    ensures Span(s, p, f) == |t|
    decreases |t|
  {
    if t != "" {
      HasAt(s, p, t, 0);
      assert t == t[..1] + t[1..];
      HasConcat(s, p, t[..1], t[1..]);
      SpanExact(s, p + 1, t[1..], f);
    }
  }

  // ----------------------------------------------------------- single tokens

  lemma {:induction false} WordToken(s: string, p: nat, w: string)
    requires Has(s, p, w) && IsWord(w) && p + |w| < |s| && !IsLiteral(s[p + |w|])
    ensures RequestToken(s, p) == Some(Token(Literal, w, p + |w|))
  {
    HasAt(s, p, w, 0);
    SpanExact(s, p, w, IsLiteral);
  }

  /** A mark that runs of itself would join: a slash or a blank. */
  lemma {:induction false} MarkToken(s: string, p: nat)
    requires p < |s| && (p + 1 < |s| ==> s[p + 1] != '/' && !IsBlank(s[p + 1]))
    ensures s[p] == '/' ==> RequestToken(s, p) == Some(Token(Solidus, "", p + 1))
    ensures s[p] == ' ' ==> RequestToken(s, p) == Some(Token(Ws, "", p + 1))
  {
    if s[p] == '/' { SpanExact(s, p, "/", IsSlash); }
    if s[p] == ' ' { SpanExact(s, p, " ", IsBlank); }
  }

  lemma {:induction false} HeaderKeyToken(s: string, p: nat, k: string)
    requires IsKey(k) && Has(s, p, k + ": ") && p + |k| + 2 < |s| && !IsBlank(s[p + |k| + 2])
    ensures KeyToken(s, p) == Some(Token(Key, k, p + |k| + 2))
  {
    HasConcat(s, p, k, ": ");
    HasAt(s, p, k, 0);
    HasAt(s, p + |k|, ": ", 0);
    HasAt(s, p + |k|, ": ", 1);
    SpanExact(s, p, k, IsKeyChar);
    SpanExact(s, p + |k| + 1, " ", IsBlank);
  }

  lemma {:induction false} HeaderValueToken(s: string, p: nat, v: string)
    requires IsValue(v) && Has(s, p, v + "\r\n")
    ensures ValueToken(s, p) == Some(Token(Value, v, p + |v| + 2))
  {
    HasConcat(s, p, v, "\r\n");
    HasAt(s, p + |v|, "\r\n", 0);
    HasAt(s, p + |v|, "\r\n", 1);
    SpanExact(s, p, v, IsValueChar);
  }

  // ------------------------------------------------------------ the lexer

  /** The next token the parser sees is the one at `p`, seen already or not. */
  ghost predicate Facing(s: string, l: Lexer, p: nat) {
    && l.mode == RequestMode
    && if l.accepted then l.next == p else RequestToken(s, p) == Some(l.token) && l.next == l.token.end
  }

  lemma {:induction false} PeekAt(s: string, l: Lexer, p: nat, t: Token)
    requires Facing(s, l, p) && RequestToken(s, p) == Some(t)
    ensures var (m, found) := Peeked(s, l);
      found && m.token == t && !m.accepted && Facing(s, m, p) && Facing(s, m.(accepted := true), t.end)
  {
  }

  lemma {:induction false} ExpectAt(s: string, l: Lexer, p: nat, t: Token, kind: Kind)
    requires Facing(s, l, p) && RequestToken(s, p) == Some(t)
    ensures var (m, ok) := Expect(s, l, kind);
      ok == (t.kind == kind) && Facing(s, m, if ok then t.end else p) && (ok ==> m.accepted)
  {
    PeekAt(s, l, p, t);
  }

  lemma {:induction false} WordAt(s: string, l: Lexer, p: nat, t: Token, word: string)
    requires Facing(s, l, p) && RequestToken(s, p) == Some(t)
    ensures var (m, ok) := Word(s, l, word);
      ok == (t.kind == Literal && EqualFold(word, t.value)) && Facing(s, m, if ok then t.end else p)
  {
    PeekAt(s, l, p, t);
  }

  /** What may follow a path or a query. */
  ghost predicate Stop(s: string, p: nat) {
    && p < |s| && (s[p] == ' ' || s[p] == '?')
    && (p + 1 < |s| ==> !IsBlank(s[p + 1]) && s[p + 1] != '/')
  }

  lemma {:induction false} StopToken(s: string, p: nat)
    requires Stop(s, p)
    ensures RequestToken(s, p) == Some(Token(if s[p] == ' ' then Ws else Query, "", p + 1))
  {
    MarkToken(s, p);
  }

  // --------------------------------------------------------------- the path

  /** The pieces of a path. */
  lemma {:induction false} PathPieces(s: string, path: seq<string>, p: nat)
    requires path != [] && Has(s, p, Slashes(path))
    ensures var end := p + 1 + |path[0]|;
      && Has(s, p, "/") && Has(s, p + 1, path[0]) && Has(s, end, Slashes(path[1..]))
      && |Slashes(path)| == 1 + |path[0]| + |Slashes(path[1..])|
  {
    hide Has;
    HasConcat(s, p, "/" + path[0], Slashes(path[1..]));
    HasConcat(s, p, "/", path[0]);
  }

  /** The tokens of the first element of a path and what follows it. */
  lemma {:induction false} PathElement(s: string, path: seq<string>, p: nat)
    requires path != [] && (forall i :: 0 <= i < |path| ==> IsWord(path[i]))
    requires Has(s, p, Slashes(path)) && Stop(s, p + |Slashes(path)|)
    ensures var w := path[0]; var end := p + 1 + |w|;
      && RequestToken(s, p) == Some(Token(Solidus, "", p + 1))
      && RequestToken(s, p + 1) == Some(Token(Literal, w, end))
      && Has(s, end, Slashes(path[1..])) && |Slashes(path)| == 1 + |w| + |Slashes(path[1..])|
      && RequestToken(s, end).Some?
      && (RequestToken(s, end).value.kind == Solidus <==> path[1..] != [])
  {
    hide RequestToken, IsLiteral, Slashes, Has, Stop;
    var w, at, end := path[0], p + 1, p + 1 + |path[0]|;
    PathPieces(s, path, p);
    HasAt(s, p, "/", 0);
    HasAt(s, at, w, 0);
    RestStarts(s, path[1..], end);
    LiteralIsNoMark(w[0]);
    MarkToken(s, p);
    WordToken(s, at, w);
    if path[1..] == [] {
      SlashesNone(path[1..]);
      StopToken(s, end);
    } else {
      LiteralIsNoMark(s[end + 1]);
      MarkToken(s, end);
    }
  }

  lemma {:induction false} LiteralIsNoMark(c: char)
    requires IsLiteral(c)
    ensures c != '/' && !IsBlank(c)
  {
  }

  /** The parser is stuck in front of a token of this kind. */
  ghost predicate StuckAt(s: string, l: Lexer, kind: Kind) {
    exists p, t :: Facing(s, l, p) && RequestToken(s, p) == Some(t) && t.kind == kind
  }

  /** After a path the parser faces what follows it; a path that is too long leaves it
      stuck in front of a word. */
  lemma {:induction false} PathParses(s: string, st: State, path: seq<string>, p: nat)
    requires path != [] && (forall i :: 0 <= i < |path| ==> IsWord(path[i]))
    requires Facing(s, st.lex, p) && Has(s, p, Slashes(path)) && Stop(s, p + |Slashes(path)|)
    ensures var r := ParsePath(s, st);
      if |st.req.url| + |path| <= UrlMax then
        r.ok && r.req == st.req.(url := st.req.url + path) && Facing(s, r.lex, p + |Slashes(path)|)
      else !r.ok && StuckAt(s, r.lex, Literal) && r.req.overrun == st.req.overrun
    decreases |path|
  {
    hide RequestToken, Has, Stop, Slashes, Peeked, IsWord;
    var w, at, end := path[0], p + 1, p + 1 + |path[0]|;
    PathElement(s, path, p);
    ExpectAt(s, st.lex, p, Token(Solidus, "", at), Solidus);
    var l := Expect(s, st.lex, Solidus).0;
    PeekAt(s, l, at, Token(Literal, w, end));
    if |st.req.url| < UrlMax {
      var m := Peeked(s, l).0.(accepted := true);
      PeekAt(s, m, end, RequestToken(s, end).value);
      assert st.req.url + [w] + path[1..] == st.req.url + path;
      if path[1..] != [] {
        var req := st.req.(url := st.req.url + [w]);
        PathParses(s, State(req, Peek(s, m, Solidus).0, true), path[1..], end);
      } else {
        SlashesNone(path[1..]);
      }
    }
  }

  lemma {:induction false} SlashesNone(path: seq<string>)
    requires path == []
    ensures Slashes(path) == ""
  {
  }

  /** What follows a path element: the next slash and word, or what follows the path. */
  lemma {:induction false} RestStarts(s: string, path: seq<string>, p: nat)
    requires (forall i :: 0 <= i < |path| ==> IsWord(path[i]))
    requires Has(s, p, Slashes(path)) && Stop(s, p + |Slashes(path)|)
    ensures p < |s| && !IsLiteral(s[p])
    ensures path != [] ==> s[p] == '/' && p + 1 < |s| && IsLiteral(s[p + 1])
  {
    if path != [] {
      HasConcat(s, p, "/" + path[0], Slashes(path[1..]));
      HasConcat(s, p, "/", path[0]);
      HasAt(s, p, "/", 0);
      HasAt(s, p + 1, path[0], 0);
    }
  }

  // -------------------------------------------------------------- the query

  ghost predicate AreWords(qs: seq<(string, string)>) {
    forall i :: 0 <= i < |qs| ==> IsWord(qs[i].0) && IsWord(qs[i].1)
  }

  /** The pieces of a query. */
  lemma {:induction false} PairPieces(s: string, qs: seq<(string, string)>, p: nat)
    requires qs != [] && Has(s, p, PrintPairs(qs))
    ensures var (k, v) := qs[0]; var eq := p + |k|; var end := eq + 1 + |v|;
      && Has(s, p, k) && Has(s, eq, "=") && Has(s, eq + 1, v)
      && (|qs| == 1 ==> end == p + |PrintPairs(qs)|)
      && (|qs| > 1 ==>
            && Has(s, end, "&") && Has(s, end + 1, PrintPairs(qs[1..]))
            && end + 1 + |PrintPairs(qs[1..])| == p + |PrintPairs(qs)|)
  {
    hide Has;
    var (k, v) := qs[0];
    if |qs| > 1 {
      HasConcat(s, p, PrintPair(qs[0]) + "&", PrintPairs(qs[1..]));
      HasConcat(s, p, PrintPair(qs[0]), "&");
    }
    HasConcat(s, p, k + "=", v);
    HasConcat(s, p, k, "=");
  }

  lemma {:induction false} CharToken(s: string, p: nat, c: char)
    requires Has(s, p, [c])
    ensures p < |s| && s[p] == c
    ensures c == '=' ==> RequestToken(s, p) == Some(Token(Eq, "", p + 1)) && !IsLiteral(s[p])
    ensures c == '&' ==> RequestToken(s, p) == Some(Token(Ampersand, "", p + 1)) && !IsLiteral(s[p])
    ensures c == '?' ==> RequestToken(s, p) == Some(Token(Query, "", p + 1)) && !IsLiteral(s[p])
    ensures c == '\r' ==> RequestToken(s, p) == Some(Token(Cr, "", p + 1)) && !IsLiteral(s[p])
    ensures c == '\n' ==> RequestToken(s, p) == Some(Token(Lf, "", p + 1))
  {
    HasAt(s, p, [c], 0);
  }

  /** The tokens of the first pair of a query and what follows it. */
  lemma {:induction false} PairTokens(s: string, qs: seq<(string, string)>, p: nat)
    requires qs != [] && AreWords(qs)
    requires Has(s, p, PrintPairs(qs)) && Stop(s, p + |PrintPairs(qs)|)
    ensures var (k, v) := qs[0]; var eq := p + |k|; var end := eq + 1 + |v|;
      && RequestToken(s, p) == Some(Token(Literal, k, eq))
      && RequestToken(s, eq) == Some(Token(Eq, "", eq + 1))
      && RequestToken(s, eq + 1) == Some(Token(Literal, v, end))
      && RequestToken(s, end).Some? && end < |s|
      && (|qs| == 1 ==> end == p + |PrintPairs(qs)| && RequestToken(s, end).value.kind != Ampersand)
      && (|qs| > 1 ==>
            && RequestToken(s, end) == Some(Token(Ampersand, "", end + 1))
            && Has(s, end + 1, PrintPairs(qs[1..])) && end + 1 + |PrintPairs(qs[1..])| == p + |PrintPairs(qs)|)
  {
    hide RequestToken, PrintPairs, Has, IsWord, IsLiteral;
    var (k, v) := qs[0];
    var eq := p + |k|;
    var end := eq + 1 + |v|;
    PairPieces(s, qs, p);
    CharToken(s, eq, '=');
    if |qs| > 1 {
      CharToken(s, end, '&');
    } else {
      StopToken(s, end);
      StopIsNoLiteral(s, end);
    }
    WordToken(s, p, k);
    WordToken(s, eq + 1, v);
  }

  lemma {:induction false} StopIsNoLiteral(s: string, p: nat)
    requires Stop(s, p)
    ensures !IsLiteral(s[p])
  {
  }

  lemma {:induction false} PairParses(s: string, st: State, k: string, v: string, p: nat)
    requires Facing(s, st.lex, p) && |st.req.url| < UrlMax && |st.req.queries| < QueryMax
    requires RequestToken(s, p) == Some(Token(Literal, k, p + |k|))
    requires RequestToken(s, p + |k|) == Some(Token(Eq, "", p + |k| + 1))
    requires RequestToken(s, p + |k| + 1) == Some(Token(Literal, v, p + |k| + 1 + |v|))
    requires RequestToken(s, p + |k| + 1 + |v|).Some?
    ensures var r, end := ParsePair(s, st), p + |k| + 1 + |v|; var t := RequestToken(s, end).value;
      && r.req == st.req.(pendingKey := k, queries := st.req.queries + [(k, v)])
      && r.ok == (t.kind == Ampersand) && Facing(s, r.lex, if r.ok then t.end else end) && (r.ok ==> r.lex.accepted)
  {
    hide RequestToken, Peeked;
    PeekAt(s, st.lex, p, RequestToken(s, p).value);
    var a := ParseQueryKey(s, st);
    ExpectAt(s, a.lex, p + |k|, RequestToken(s, p + |k|).value, Eq);
    var b := Then(s, a, Eq);
    PeekAt(s, b.lex, p + |k| + 1, RequestToken(s, p + |k| + 1).value);
    var c := ParseQueryValue(s, b);
    var end := p + |k| + 1 + |v|;
    ExpectAt(s, c.lex, end, RequestToken(s, end).value, Ampersand);
  }

  /** With a full table the next key is written past its end. */
  lemma {:induction false} PairOverruns(s: string, st: State, p: nat, t: Token)
    requires Facing(s, st.lex, p) && |st.req.url| < UrlMax && |st.req.queries| >= QueryMax
    requires RequestToken(s, p) == Some(t) && t.kind == Literal
    ensures var r := ParsePair(s, st); !r.ok && r.req.overrun
  {
    hide RequestToken, Peeked;
    PeekAt(s, st.lex, p, t);
  }

  /** Queries that fit the table are read to their end; one too many overruns it. */
  lemma {:induction false} QueryParses(s: string, st: State, qs: seq<(string, string)>, p: nat)
    requires qs != [] && AreWords(qs) && |st.req.url| < UrlMax && |st.req.queries| <= QueryMax
    requires Facing(s, st.lex, p) && st.lex.accepted && Has(s, p, PrintPairs(qs)) && Stop(s, p + |PrintPairs(qs)|)
    ensures var r := ParseQuery(s, st);
      && r.ok
      && if |st.req.queries| + |qs| <= QueryMax then
           && Facing(s, r.lex, p + |PrintPairs(qs)|)
           && r.req == st.req.(pendingKey := r.req.pendingKey, queries := st.req.queries + qs)
         else r.req.overrun
    decreases |qs|
  {
    hide RequestToken, Has, Stop, PrintPairs, ParsePair, IsWord;
    var (k, v) := qs[0];
    PairTokens(s, qs, p);
    if |st.req.queries| == QueryMax {
      PairOverruns(s, st, p, Token(Literal, k, p + |k|));
      return;
    }
    PairParses(s, st, k, v, p);
    var r := ParsePair(s, st);
    assert qs == [qs[0]] + qs[1..];
    if |qs| > 1 {
      QueryParses(s, r, qs[1..], p + |k| + |v| + 2);
      assert st.req.queries + [(k, v)] + qs[1..] == st.req.queries + qs;
    } else {
      assert st.req.queries + [(k, v)] == st.req.queries + qs;
    }
  }

  /** With a full path the first key is refused and stays where it is. */
  lemma {:induction false} QueryRefused(s: string, st: State, p: nat, t: Token)
    requires Facing(s, st.lex, p) && |st.req.url| >= UrlMax && RequestToken(s, p) == Some(t) && t.kind == Literal
    ensures var r := ParseQuery(s, st); r.ok && r.req == st.req && StuckAt(s, r.lex, Literal)
  {
    hide RequestToken, Peeked;
    PeekAt(s, st.lex, p, t);
  }

  // ------------------------------------------------------------------ the url

  const VersionText: string := " HTTP/1.1\r\n"

  /** The urls the parser can read back: the path fits its table, and if there are
      queries it is neither empty nor full. */
  predicate Fits(path: seq<string>, qs: seq<(string, string)>) {
    |path| <= UrlMax && (qs != [] ==> 0 < |path| < UrlMax)
  }

  /** A url in place, with the version after it. */
  ghost predicate UrlIn(s: string, p: nat, path: seq<string>, qs: seq<(string, string)>) {
    && (forall i :: 0 <= i < |path| ==> IsWord(path[i])) && AreWords(qs)
    && Has(s, p, PrintPath(path)) && Has(s, p + |PrintPath(path)|, PrintQuery(qs))
    && Has(s, p + |PrintPath(path)| + |PrintQuery(qs)|, VersionText)
  }

  lemma {:induction false} UrlPieces(s: string, p: nat, path: seq<string>, qs: seq<(string, string)>)
    requires UrlIn(s, p, path, qs)
    ensures var e := p + |PrintPath(path)|; var end := e + |PrintQuery(qs)|;
      && Stop(s, end) && s[end] == ' '
      && Stop(s, e) && s[e] == (if qs == [] then ' ' else '?')
      && (qs != [] ==> Has(s, e + 1, PrintPairs(qs)) && e + 1 + |PrintPairs(qs)| == end)
  {
    hide Has, PrintPairs, PrintPath;
    var e := p + |PrintPath(path)|;
    var end := e + |PrintQuery(qs)|;
    HasAt(s, end, VersionText, 0);
    HasAt(s, end, VersionText, 1);
    if qs != [] {
      HasConcat(s, e, "?", PrintPairs(qs));
      HasAt(s, e, "?", 0);
      PairPieces(s, qs, e + 1);
      HasAt(s, e + 1, qs[0].0, 0);
    }
  }

  lemma {:induction false} SlashToken(s: string, p: nat)
    requires Has(s, p, "/") && p + 1 < |s| && s[p + 1] != '/'
    ensures RequestToken(s, p) == Some(Token(Solidus, "", p + 1))
  {
    HasAt(s, p, "/", 0);
    SpanExact(s, p, "/", IsSlash);
  }

  /** The empty path: fine before the version, refused before a query. */
  lemma {:induction false} EmptyPathParses(s: string, st: State, p: nat)
    requires Facing(s, st.lex, p) && Has(s, p, "/") && Stop(s, p + 1)
    ensures var r := ParsePath(s, st);
      r.req == st.req && Facing(s, r.lex, p + 1) && r.ok == (s[p + 1] == ' ')
  {
    hide RequestToken, Peeked, Has;
    SlashToken(s, p);
    StopToken(s, p + 1);
    ExpectAt(s, st.lex, p, Token(Solidus, "", p + 1), Solidus);
    PeekAt(s, Expect(s, st.lex, Solidus).0, p + 1, RequestToken(s, p + 1).value);
  }

  lemma {:induction false} UrlParses(s: string, st: State, p: nat, path: seq<string>, qs: seq<(string, string)>)
    requires Facing(s, st.lex, p) && UrlIn(s, p, path, qs)
    requires st.req.url == [] && st.req.queries == [] && !st.req.overrun
    ensures var r, end := ParseUrl(s, st), p + |PrintPath(path)| + |PrintQuery(qs)|;
      && r.ok
      && (Fits(path, qs) && |qs| <= QueryMax ==>
            Facing(s, r.lex, end) && r.req == st.req.(url := path, queries := qs, pendingKey := r.req.pendingKey))
      && (Fits(path, qs) ==> r.req.overrun == (|qs| > QueryMax))
      && (!Fits(path, qs) ==> !r.req.overrun && (StuckAt(s, r.lex, Literal) || StuckAt(s, r.lex, Query)))
  {
    hide RequestToken, Has, Stop, ParsePath, ParseQuery, PrintPairs, Slashes, IsWord, Expect;
    UrlPieces(s, p, path, qs);
    var e := p + |PrintPath(path)|;
    StopToken(s, e);
    var r := ParsePath(s, st);
    if path == [] {
      EmptyPathParses(s, st, p);
    } else {
      PathParses(s, st, path, p);
      assert [] + path == path;
    }
    if r.ok { QueryRest(s, r, path, qs, e, e + |PrintQuery(qs)|); }
  }

  /** After a path that parsed: a query if there is one. */
  lemma {:induction false} QueryRest(
      s: string, r: State, path: seq<string>, qs: seq<(string, string)>, e: nat, end: nat)
    requires r.ok && Facing(s, r.lex, e) && r.req.url == path && r.req.queries == [] && !r.req.overrun
    requires |path| <= UrlMax && (qs != [] ==> path != []) && AreWords(qs) && Stop(s, e) && Stop(s, end)
    requires s[e] == (if qs == [] then ' ' else '?') && (qs == [] ==> end == e)
    requires qs != [] ==> Has(s, e + 1, PrintPairs(qs)) && e + 1 + |PrintPairs(qs)| == end
    ensures var q := Then(s, r, Query); var u := if q.ok then ParseQuery(s, q) else q.(ok := true);
      && u.ok
      && (Fits(path, qs) && |qs| <= QueryMax ==>
            Facing(s, u.lex, end) && u.req == r.req.(queries := qs, pendingKey := u.req.pendingKey))
      && (Fits(path, qs) ==> u.req.overrun == (|qs| > QueryMax))
      && (!Fits(path, qs) ==> !u.req.overrun && StuckAt(s, u.lex, Literal))
  {
    hide RequestToken, Has, Stop, ParseQuery, PrintPairs, IsWord, Expect, StuckAt;
    StopToken(s, e);
    ExpectAt(s, r.lex, e, RequestToken(s, e).value, Query);
    if qs != [] {
      PairTokens(s, qs, e + 1);
      var q := Then(s, r, Query);
      if |path| < UrlMax {
        QueryParses(s, q, qs, e + 1);
        assert [] + qs == qs;
      } else {
        QueryRefused(s, q, e + 1, RequestToken(s, e + 1).value);
      }
    }
  }

  // ---------------------------------------------------------- the request line

  lemma {:induction false} VersionTokens(s: string, p: nat)
    requires Has(s, p, VersionText)
    ensures RequestToken(s, p) == Some(Token(Ws, "", p + 1))
    ensures RequestToken(s, p + 1) == Some(Token(Literal, "HTTP", p + 5))
    ensures RequestToken(s, p + 5) == Some(Token(Solidus, "", p + 6))
    ensures RequestToken(s, p + 6) == Some(Token(Literal, "1.1", p + 9))
    ensures RequestToken(s, p + 9) == Some(Token(Cr, "", p + 10))
    ensures RequestToken(s, p + 10) == Some(Token(Lf, "", p + 11))
  {
    hide RequestToken, Has;
    VersionPieces(s, p);
    HasAt(s, p, " ", 0);
    HasAt(s, p + 1, "HTTP", 0);
    HasAt(s, p + 5, "/", 0);
    HasAt(s, p + 6, "1.1", 0);
    CharToken(s, p + 9, '\r');
    CharToken(s, p + 10, '\n');
    MarkToken(s, p);
    MarkToken(s, p + 5);
    WordToken(s, p + 1, "HTTP");
    WordToken(s, p + 6, "1.1");
  }

  lemma {:induction false} VersionPieces(s: string, p: nat)
    requires Has(s, p, VersionText)
    ensures Has(s, p, " ") && Has(s, p + 1, "HTTP") && Has(s, p + 5, "/") && Has(s, p + 6, "1.1")
    ensures Has(s, p + 9, "\r") && Has(s, p + 10, "\n")
  {
    hide Has;
    assert VersionText == " " + "HTTP" + "/" + "1.1" + "\r" + "\n";
    HasConcat(s, p, " " + "HTTP" + "/" + "1.1" + "\r", "\n");
    HasConcat(s, p, " " + "HTTP" + "/" + "1.1", "\r");
    HasConcat(s, p, " " + "HTTP" + "/", "1.1");
    HasConcat(s, p, " " + "HTTP", "/");
    HasConcat(s, p, " ", "HTTP");
  }

  lemma {:induction false} VersionParses(s: string, st: State, p: nat)
    requires st.ok && Facing(s, st.lex, p) && Has(s, p, VersionText)
    ensures var r := Then(s, Then(s, ParseVersion(s, Then(s, st, Ws)), Cr), Lf);
      r.ok && r.req == st.req && r.lex.accepted && r.lex.next == p + 11
  {
    hide RequestToken, Has, Word, Expect;
    VersionTokens(s, p);
    ExpectAt(s, st.lex, p, Token(Ws, "", p + 1), Ws);
    var a := Then(s, st, Ws);
    WordAt(s, a.lex, p + 1, Token(Literal, "HTTP", p + 5), "HTTP");
    var b := ThenWord(s, a, "HTTP");
    ExpectAt(s, b.lex, p + 5, Token(Solidus, "", p + 6), Solidus);
    var c := Then(s, b, Solidus);
    WordAt(s, c.lex, p + 6, Token(Literal, "1.1", p + 9), "1.1");
    var d := ThenWord(s, c, "1.1");
    ExpectAt(s, d.lex, p + 9, Token(Cr, "", p + 10), Cr);
    var e := Then(s, d, Cr);
    ExpectAt(s, e.lex, p + 10, Token(Lf, "", p + 11), Lf);
  }

  /** A parser stuck in front of anything but a blank refuses the request. */
  lemma {:induction false} StuckFails(s: string, st: State, kind: Kind)
    requires st.ok && StuckAt(s, st.lex, kind) && kind != Ws
    ensures var r := Then(s, Then(s, ParseVersion(s, Then(s, st, Ws)), Cr), Lf); !r.ok && r.req == st.req
  {
    hide RequestToken, Expect;
    var p, t :| Facing(s, st.lex, p) && RequestToken(s, p) == Some(t) && t.kind == kind;
    ExpectAt(s, st.lex, p, t, Ws);
  }

  lemma {:induction false} MethodParses(s: string, m: Method)
    requires Has(s, 0, MethodName(m)) && Has(s, |MethodName(m)|, " /")
    ensures var r := ParseMethod(s, Begin);
      r.ok && r.req == NoReq.(verb := Some(m)) && Facing(s, r.lex, |MethodName(m)|)
  {
    var w := MethodName(m);
    assert IsWord(w);
    hide RequestToken, Has, Peeked;
    HasAt(s, |w|, " /", 0);
    WordToken(s, 0, w);
    var t := Token(Literal, w, |w|);
    WordAt(s, Begin.lex, 0, t, "GET");
    var g := MethodIs(s, Begin, "GET", Get);
    MethodNamesDiffer(m);
    if m != Get {
      WordAt(s, g.lex, 0, t, "PUT");
      var p := MethodIs(s, g, "PUT", Put);
      if m != Put { WordAt(s, p.lex, 0, t, "OPTIONS"); }
    }
  }

  lemma {:induction false} MethodNamesDiffer(m: Method)
    ensures EqualFold("GET", MethodName(m)) <==> m == Get
    ensures EqualFold("PUT", MethodName(m)) <==> m == Put
    ensures EqualFold("OPTIONS", MethodName(m)) <==> m == Options
  {
    var g, p := "GET", "PUT";
    assert Lower(g[0]) == 'g' && Lower(p[0]) == 'p';
  }

  // ------------------------------------------------------------ the headers

  /** What a header means to the request. */
  function Noted(req: Req, h: (string, string)): Req {
    if EqualFold(h.0, "Content-Length") then req.(contentLength := LengthOf(h.1))
    else if EqualFold(h.0, "Content-Type") then req.(contentType := Some(h.1))
    else req
  }

  function NotedAll(req: Req, hs: seq<(string, string)>): Req
    decreases |hs|
  {
    if hs == [] then req else NotedAll(Noted(req, hs[0]), hs[1..])
  }

  /** The next token in key mode is the one at `p`, seen already or not. */
  ghost predicate FacingKey(s: string, l: Lexer, p: nat) {
    if l.accepted then l.next == p else KeyToken(s, p) == Some(l.token) && l.next == l.token.end
  }

  /** A field whose key is wanted is read; one whose key is not is left in front. */
  lemma {:induction false} FieldParses(s: string, l: Lexer, p: nat, k: string, v: string, key: Option<string>)
    requires FacingKey(s, l, p)
    requires KeyToken(s, p) == Some(Token(Key, k, p + |k| + 2))
    requires ValueToken(s, p + |k| + 2) == Some(Token(Value, v, p + |k| + |v| + 4))
    ensures var (m, value) := ParseField(s, l, key);
      if key.None? || EqualFold(k, key.value) then value == Some(v) && m.accepted && m.next == p + |k| + |v| + 4
      else value == None && FacingKey(s, m, p)
  {
    hide KeyToken, ValueToken, EqualFold;
  }

  /** In front of the empty line no field is found. */
  lemma {:induction false} FieldMisses(s: string, l: Lexer, p: nat, key: Option<string>)
    requires FacingKey(s, l, p) && KeyToken(s, p) == Some(Token(Cr, "", p + 1))
    ensures var (m, value) := ParseField(s, l, key); value == None && FacingKey(s, m, p)
  {
    hide KeyToken;
  }

  lemma {:induction false} HeaderParses(s: string, st: State, p: nat, k: string, v: string)
    requires FacingKey(s, st.lex, p) && IsKey(k) && IsValue(v) && Has(s, p, PrintHeader((k, v)))
    ensures var r := ParseHeader(s, st);
      r.ok && r.req == Noted(st.req, (k, v)) && r.lex.accepted && r.lex.next == p + |k| + |v| + 4
  {
    HeaderTokens(s, p, k, v);
    hide KeyToken, ValueToken, Has, EqualFold, ParseField;
    FieldParses(s, st.lex, p, k, v, Some("Content-Length"));
    var l := ParseField(s, st.lex, Some("Content-Length")).0;
    if !EqualFold(k, "Content-Length") {
      FieldParses(s, l, p, k, v, Some("Content-Type"));
      var m := ParseField(s, l, Some("Content-Type")).0;
      if !EqualFold(k, "Content-Type") { FieldParses(s, m, p, k, v, None); }
    }
  }

  lemma {:induction false} HeaderTokens(s: string, p: nat, k: string, v: string)
    requires IsKey(k) && IsValue(v) && Has(s, p, PrintHeader((k, v)))
    ensures KeyToken(s, p) == Some(Token(Key, k, p + |k| + 2))
    ensures ValueToken(s, p + |k| + 2) == Some(Token(Value, v, p + |k| + |v| + 4))
    ensures |PrintHeader((k, v))| == |k| + |v| + 4 && p + |k| + |v| + 4 <= |s|
  {
    hide Has, KeyToken, ValueToken, IsKey, IsValueChar;
    HasConcat(s, p, k + ": " + v, "\r\n");
    HasConcat(s, p, k + ": ", v);
    HasConcat(s, p + |k| + 2, v, "\r\n");
    HasAt(s, p + |k| + 2 + |v|, "\r\n", 0);
    HasAt(s, p + |k| + 2 + |v|, "\r\n", 1);
    if v != "" { HasAt(s, p + |k| + 2, v, 0); }
    HeaderKeyToken(s, p, k);
    HeaderValueToken(s, p + |k| + 2, v);
  }

  lemma {:induction false} HeadersParse(s: string, st: State, p: nat, hs: seq<(string, string)>)
    requires (forall i :: 0 <= i < |hs| ==> IsKey(hs[i].0) && IsValue(hs[i].1))
    requires st.lex.accepted && st.lex.next == p && Has(s, p, PrintHeaders(hs))
    ensures var r := ParseHeaders(s, st);
      r.ok && r.req == NotedAll(st.req, hs) && r.lex.next == p + |PrintHeaders(hs)|
    decreases |hs|
  {
    hide Has, ParseHeader, IsKey, IsValue, PrintHeader, Noted;
    if hs == [] {
      EmptyLineParses(s, st, p);
    } else {
      var (k, v) := hs[0];
      HasConcat(s, p, PrintHeader(hs[0]), PrintHeaders(hs[1..]));
      HeaderParses(s, st, p, k, v);
      HeaderTokens(s, p, k, v);
      HeadersParse(s, ParseHeader(s, st), p + |k| + |v| + 4, hs[1..]);
    }
  }

  lemma {:induction false} EmptyLineParses(s: string, st: State, p: nat)
    requires st.lex.accepted && st.lex.next == p && Has(s, p, "\r\n")
    ensures var r := ParseHeaders(s, st); r.ok && r.req == st.req && r.lex.next == p + 2
  {
    HasAt(s, p, "\r\n", 0);
    HasAt(s, p, "\r\n", 1);
    assert KeyToken(s, p) == Some(Token(Cr, "", p + 1)) && KeyToken(s, p + 1) == Some(Token(Lf, "", p + 2));
    hide KeyToken, Has, ParseField;
    FieldMisses(s, st.lex, p, Some("Content-Length"));
    var l := ParseField(s, st.lex, Some("Content-Length")).0;
    FieldMisses(s, l, p, Some("Content-Type"));
    var m := ParseField(s, l, Some("Content-Type")).0;
    FieldMisses(s, m, p, None);
  }

  // --------------------------------------------------------------- round trip

  /** What the parser should make of a request. */
  function Meaning(r: Request): Parsed {
    var req := NotedAll(NoReq, r.headers);
    Parsed(Some(r.m), r.path, r.queries, req.contentLength, req.contentType, |Print(r)|)
  }

  lemma {:induction false} FivePieces(s: string, a: string, b: string, c: string, d: string, e: string)
    requires Has(s, 0, a + " " + b + c + d + e)
    ensures var p := |a| + 1;
      && Has(s, 0, a) && Has(s, |a|, " ") && Has(s, p, b) && Has(s, p + |b|, c)
      && Has(s, p + |b| + |c|, d) && Has(s, p + |b| + |c| + |d|, e)
  {
    hide Has;
    HasConcat(s, 0, a + " " + b + c + d, e);
    HasConcat(s, 0, a + " " + b + c, d);
    HasConcat(s, 0, a + " " + b, c);
    HasConcat(s, 0, a + " ", b);
    HasConcat(s, 0, a, " ");
  }

  /** The pieces of a printed request, whatever body follows it. */
  lemma {:induction false} RequestPieces(r: Request, body: string)
    requires Printable(r)
    ensures var s, n := Print(r) + body, |MethodName(r.m)|;
      var p := n + 1; var v := p + |PrintPath(r.path)| + |PrintQuery(r.queries)|;
      && Has(s, 0, MethodName(r.m)) && Has(s, n, " /") && UrlIn(s, p, r.path, r.queries)
      && Has(s, v + 11, PrintHeaders(r.headers)) && v + 11 + |PrintHeaders(r.headers)| == |Print(r)|
  {
    hide PrintPath, PrintQuery, PrintHeaders, MethodName, IsWord, IsKey, IsValue;
    var s, n := Print(r) + body, |MethodName(r.m)|;
    assert Has(s, 0, Print(r));
    hide Has;
    FivePieces(s, MethodName(r.m), PrintPath(r.path), PrintQuery(r.queries), VersionText, PrintHeaders(r.headers));
    PathStarts(s, r.path, n + 1);
    HasConcat(s, n, " ", "/");
    assert " " + "/" == " /";
  }

  lemma {:induction false} PathStarts(s: string, path: seq<string>, p: nat)
    requires Has(s, p, PrintPath(path))
    ensures Has(s, p, "/")
  {
    if path != [] {
      HasConcat(s, p, "/" + path[0], Slashes(path[1..]));
      HasConcat(s, p, "/", path[0]);
    }
  }

  /** The headers do not touch what the request line has set. */
  lemma {:induction false} NotedFields(a: Req, b: Req, hs: seq<(string, string)>)
    requires a.contentLength == b.contentLength && a.contentType == b.contentType
    ensures var c, d := NotedAll(a, hs), NotedAll(b, hs);
      c == a.(contentLength := d.contentLength, contentType := d.contentType)
    decreases |hs|
  {
    hide EqualFold;
    if hs != [] { NotedFields(Noted(a, hs[0]), Noted(b, hs[0]), hs[1..]); }
  }

  /** What becomes of a printed request. */
  function Fate(r: Request): Outcome {
    if !Fits(r.path, r.queries) then Refused
    else if |r.queries| > QueryMax then Overrun
    else Accepted(Meaning(r))
  }

  /** Parsing inverts printing. For every request and every body after it: if the url
      fits and the queries fit their table, the parser recovers the method, path,
      queries and content headers and finds the exact end of the header; if the url does
      not fit, the request is refused; and if only the queries do not, the table is
      overrun. */
  lemma {:induction false} ParsePrint(r: Request, body: string)
    requires Printable(r)
    ensures Parse(Print(r) + body) == Fate(r)
  {
    hide Has, ParseHeaders, Print, PrintHeaders, PrintPath, PrintQuery, MethodName, ParseRequestLine;
    hide IsKey, IsValue, IsWord, Fits;
    var s, n := Print(r) + body, |MethodName(r.m)|;
    RequestPieces(r, body);
    RequestLineParses(s, r);
    var line := ParseRequestLine(s, Begin);
    if line.ok && !line.req.overrun {
      HeadersParse(s, line, n + 1 + |PrintPath(r.path)| + |PrintQuery(r.queries)| + 11, r.headers);
      NotedFields(line.req, NoReq, r.headers);
    }
  }

  /** The parse of a printed request stays inside the table of queries if and only if
      there are no more than 32, or the path keeps them from being read. */
  lemma {:induction false} InsideTable(r: Request, body: string)
    requires Printable(r)
    ensures Parse(Print(r) + body) != Overrun <==> !(0 < |r.path| < UrlMax && |r.queries| > QueryMax)
  {
    hide Parse, Print;
    ParsePrint(r, body);
  }

  /** One path element and 33 queries are enough to overrun it. */
  lemma {:induction false} OverrunExample()
    ensures var r := Request(Get, ["a"], seq(33, _ => ("k", "v")), []);
      Printable(r) && Parse(Print(r)) == Overrun
  {
    hide Parse, Print;
    var r := Request(Get, ["a"], seq(33, _ => ("k", "v")), []);
    assert IsWord("a") && IsWord("k") && IsWord("v");
    ParsePrint(r, "");
    assert Print(r) + "" == Print(r);
  }

  lemma {:induction false} RequestLineParses(s: string, r: Request)
    requires var n := |MethodName(r.m)|;
      Has(s, 0, MethodName(r.m)) && Has(s, n, " /") && UrlIn(s, n + 1, r.path, r.queries)
    ensures var n, line := |MethodName(r.m)|, ParseRequestLine(s, Begin);
      && line.req.overrun == (Fits(r.path, r.queries) && |r.queries| > QueryMax)
      && (!line.req.overrun ==> line.ok == Fits(r.path, r.queries))
      && (line.ok && !line.req.overrun ==>
            && line.req == NoReq.(verb := Some(r.m), url := r.path, queries := r.queries,
                                  pendingKey := line.req.pendingKey)
            && line.lex.accepted && line.lex.next == n + 1 + |PrintPath(r.path)| + |PrintQuery(r.queries)| + 11)
  {
    hide RequestToken, Has, Facing, ParseMethod, ParseUrl, ParseVersion, Then, UrlIn, Fits, MethodName, StuckAt;
    var n := |MethodName(r.m)|;
    var p := n + 1;
    MethodPart(s, r.m);
    var b := Then(s, ParseMethod(s, Begin), Ws);
    UrlParses(s, b, p, r.path, r.queries);
    VersionPlace(s, p, r.path, r.queries);
    UrlRest(s, ParseUrl(s, b), r.path, r.queries, p + |PrintPath(r.path)| + |PrintQuery(r.queries)|);
  }

  lemma {:induction false} VersionPlace(s: string, p: nat, path: seq<string>, qs: seq<(string, string)>)
    requires UrlIn(s, p, path, qs)
    ensures Has(s, p + |PrintPath(path)| + |PrintQuery(qs)|, VersionText)
  {
    hide Has;
  }

  /** The method and the blank after it. */
  lemma {:induction false} MethodPart(s: string, m: Method)
    requires Has(s, 0, MethodName(m)) && Has(s, |MethodName(m)|, " /")
    ensures var n, a := |MethodName(m)|, ParseMethod(s, Begin); var b := Then(s, a, Ws);
      a.ok && b.ok && b.req == NoReq.(verb := Some(m)) && Facing(s, b.lex, n + 1)
  {
    hide RequestToken, Has;
    var n := |MethodName(m)|;
    HasAt(s, n, " /", 0);
    HasAt(s, n, " /", 1);
    MarkIsBlank(s, n);
    hide ParseMethod, MethodName, Expect;
    MethodParses(s, m);
    ExpectAt(s, ParseMethod(s, Begin).lex, n, Token(Ws, "", n + 1), Ws);
  }

  /** After the url: the version, or nothing that could be one. */
  lemma {:induction false} UrlRest(s: string, c: State, path: seq<string>, qs: seq<(string, string)>, p: nat)
    requires c.ok && Has(s, p, VersionText) && (Fits(path, qs) && |qs| <= QueryMax ==> Facing(s, c.lex, p))
    requires !Fits(path, qs) ==> StuckAt(s, c.lex, Literal) || StuckAt(s, c.lex, Query)
    ensures var r := Then(s, Then(s, ParseVersion(s, Then(s, c, Ws)), Cr), Lf);
      && r.req == c.req && (!Fits(path, qs) ==> !r.ok)
      && (Fits(path, qs) && |qs| <= QueryMax ==> r.ok && r.lex.accepted && r.lex.next == p + 11)
  {
    hide Has, Then, ParseVersion, Fits, Facing, StuckAt;
    RestKeepsRequest(s, c);
    if Fits(path, qs) {
      if |qs| <= QueryMax { VersionParses(s, c, p); }
    } else if StuckAt(s, c.lex, Literal) {
      StuckFails(s, c, Literal);
    } else {
      StuckFails(s, c, Query);
    }
  }

  /** Nothing after the url touches the request. */
  lemma {:induction false} RestKeepsRequest(s: string, st: State)
    ensures Then(s, Then(s, ParseVersion(s, Then(s, st, Ws)), Cr), Lf).req == st.req
  {
    hide Expect, Word;
  }

  lemma {:induction false} MarkIsBlank(s: string, p: nat)
    requires p + 1 < |s| && s[p] == ' ' && s[p + 1] == '/'
    ensures RequestToken(s, p) == Some(Token(Ws, "", p + 1))
  {
    SpanExact(s, p, " ", IsBlank);
  }

  // ---------------------------------------------------------- content length

  function Decimal(n: nat): string {
    if n < 10 then [('0' as int + n) as char] else Decimal(n / 10) + [('0' as int + n % 10) as char]
  }

  lemma {:induction false} DigitsAppend(s: string, d: char, p: nat, sofar: nat)
    requires p <= |s| && IsDigit(d) && forall i :: p <= i < |s| ==> IsDigit(s[i])
    ensures Digits(s + [d], p, sofar) == Digits(s, p, sofar) * 10 + (d as int - '0' as int)
    decreases |s| - p
  {
    if p < |s| {
      DigitsAppend(s, d, p + 1, sofar * 10 + (s[p] as int - '0' as int));
    } else {
      assert Digits(s + [d], p + 1, sofar * 10 + (d as int - '0' as int)) == sofar * 10 + (d as int - '0' as int);
    }
  }

  lemma {:induction false} DecimalDigits(n: nat)
    ensures Decimal(n) != "" && (forall i :: 0 <= i < |Decimal(n)| ==> IsDigit(Decimal(n)[i]))
    ensures Digits(Decimal(n), 0, 0) == n
  {
    if n < 10 {
      DigitsAppend("", Decimal(n)[0], 0, 0);
      assert "" + Decimal(n) == Decimal(n);
    } else {
      DecimalDigits(n / 10);
      DigitsAppend(Decimal(n / 10), ('0' as int + n % 10) as char, 0, 0);
    }
  }

  // ------------------------------------------------------- the last header wins

  /** No header from `i` on has the key. */
  ghost predicate NoneFrom(hs: seq<(string, string)>, i: nat, key: string) {
    forall j :: i <= j < |hs| ==> !EqualFold(hs[j].0, key)
  }

  /** The i-th header is the last with the key. */
  ghost predicate LastWith(hs: seq<(string, string)>, i: nat, key: string)
    requires i < |hs|
  {
    EqualFold(hs[i].0, key) && NoneFrom(hs, i + 1, key)
  }

  lemma {:induction false} KeysDiffer(k: string)
    ensures !(EqualFold(k, "Content-Length") && EqualFold(k, "Content-Type"))
  {
  }

  /** For any list of headers: content type and content length are those of the last
      header with the key in either case, and their defaults if there is none. */
  lemma {:induction false} LastHeaderWins(req: Req, hs: seq<(string, string)>, i: nat)
    ensures NoneFrom(hs, 0, "Content-Length") ==> NotedAll(req, hs).contentLength == req.contentLength
    ensures NoneFrom(hs, 0, "Content-Type") ==> NotedAll(req, hs).contentType == req.contentType
    ensures i < |hs| && LastWith(hs, i, "Content-Length") ==>
      NotedAll(req, hs).contentLength == LengthOf(hs[i].1)
    ensures i < |hs| && LastWith(hs, i, "Content-Type") ==>
      NotedAll(req, hs).contentType == Some(hs[i].1)
    decreases |hs|
  {
    hide EqualFold, LengthOf;
    if hs != [] {
      var next := Noted(req, hs[0]);
      KeysDiffer(hs[0].0);
      NoneLater(hs, "Content-Length", i);
      NoneLater(hs, "Content-Type", i);
      LastHeaderWins(next, hs[1..], if i > 0 then i - 1 else 0);
    }
  }

  lemma {:induction false} NoneLater(hs: seq<(string, string)>, key: string, i: nat)
    requires hs != []
    ensures NoneFrom(hs, 0, key) ==> NoneFrom(hs[1..], 0, key) && !EqualFold(hs[0].0, key)
    ensures NoneFrom(hs, 1, key) ==> NoneFrom(hs[1..], 0, key)
    ensures i > 0 && NoneFrom(hs, i + 1, key) ==> NoneFrom(hs[1..], i, key)
    ensures 0 < i < |hs| ==> hs[1..][i - 1] == hs[i]
  {
    hide EqualFold;
    forall j | 0 <= j < |hs[1..]| ensures hs[1..][j] == hs[j + 1] { }
  }

  /** The content headers that a printed request is given back: those of the last header
      with each key, or none. */
  lemma {:induction false} ContentHeadersRead(r: Request, body: string, i: nat)
    requires Printable(r) && Fits(r.path, r.queries) && |r.queries| <= QueryMax
    ensures Parse(Print(r) + body).Accepted?
    ensures NoneFrom(r.headers, 0, "Content-Length") ==> Parse(Print(r) + body).parsed.contentLength == 0
    ensures NoneFrom(r.headers, 0, "Content-Type") ==> Parse(Print(r) + body).parsed.contentType == None
    ensures i < |r.headers| && LastWith(r.headers, i, "Content-Length") ==>
      Parse(Print(r) + body).parsed.contentLength == LengthOf(r.headers[i].1)
    ensures i < |r.headers| && LastWith(r.headers, i, "Content-Type") ==>
      Parse(Print(r) + body).parsed.contentType == Some(r.headers[i].1)
  {
    hide Parse, Print, EqualFold, LengthOf, NotedAll, NoneFrom, LastWith;
    ParsePrint(r, body);
    LastHeaderWins(NoReq, r.headers, i);
  }

  /** A decimal content length is recovered if and only if it is an int; the largest
      size_t also comes out right, because the nearest long to it cuts to -1. */
  lemma {:induction false} LengthRoundTrip(n: nat)
    ensures IsValue(Decimal(n))
    ensures LengthOf(Decimal(n)) == n <==> n < 0x8000_0000 || n == SizeRange - 1
  {
    DecimalDigits(n);
    var d := Decimal(n);
    assert IsDigit(d[0]) && Span(d, 0, IsSpace) == 0;
    assert Numeral(d) == n;
    CutBack(n);
  }

  lemma {:induction false} CutBack(n: nat)
    ensures ToSize(CutToInt(Clamped(n))) == n <==> n < 0x8000_0000 || n == SizeRange - 1
  {
  }

  /** A negative content length comes out as a size_t just below its range, or as zero if
      it is beyond any long. */
  lemma {:induction false} NegativeLength(n: nat)
    requires n >= 1
    ensures IsValue("-" + Decimal(n))
    ensures n <= 0x8000_0000 ==> LengthOf("-" + Decimal(n)) == SizeRange - n
    ensures n >= 0x8000_0000_0000_0000 ==> LengthOf("-" + Decimal(n)) == 0
  {
    DecimalDigits(n);
    var d := "-" + Decimal(n);
    assert d[0] == '-' && Span(d, 0, IsSpace) == 0;
    DigitsShift("-", Decimal(n), 0, 0);
    assert Numeral(d) == -(n as int);
  }

  /** The white space of the C library. */
  ghost predicate AreSpaces(b: string) {
    forall i :: 0 <= i < |b| ==> b[i] in {' ', '\t', '\n', '\U{000b}', '\U{000c}', '\r'}
  }

  /** What is read of a number: white space before it and anything but a digit after it do
      not matter, and a sign counts. */
  lemma {:induction false} NumeralRead(b: string, sign: string, n: nat, rest: string)
    requires AreSpaces(b) && sign in {"", "+", "-"} && (rest != "" ==> !IsDigit(rest[0]))
    ensures Numeral(b + sign + Decimal(n) + rest) == if sign == "-" then -(n as int) else n
  {
    var d := Decimal(n);
    var s := b + sign + d + rest;
    DecimalDigits(n);
    assert Has(s, 0, b);
    assert s[|b|] == if sign == "" then d[0] else sign[0];
    SpanExact(s, 0, b, IsSpace);
    assert s == (b + sign) + (d + rest);
    DigitsShift(b + sign, d + rest, 0, 0);
    DigitsStop(d, rest, 0, 0);
  }

  lemma {:induction false} DigitsStop(d: string, rest: string, p: nat, sofar: nat)
    requires p <= |d| && (rest != "" ==> !IsDigit(rest[0]))
    ensures Digits(d + rest, p, sofar) == Digits(d, p, sofar)
    decreases |d| - p
  {
    if p < |d| && IsDigit(d[p]) { DigitsStop(d, rest, p + 1, sofar * 10 + (d[p] as int - '0' as int)); }
  }

  lemma {:induction false} DigitsShift(a: string, b: string, p: nat, sofar: nat)
    requires p <= |b|
    ensures Digits(a + b, |a| + p, sofar) == Digits(b, p, sofar)
    decreases |b| - p
  {
    if p < |b| && IsDigit(b[p]) {
      assert (a + b)[|a| + p] == b[p];
      DigitsShift(a, b, p + 1, sofar * 10 + (b[p] as int - '0' as int));
    }
  }
}
