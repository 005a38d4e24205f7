/** The request lines the parser accepts, spelled out character by character, and that
    it accepts these and no others, for every text. */
module HttpLine {
  import opened Common
  import opened Http
  import opened HttpPrint

  // ------------------------------------------------------------ text in place

  /** The characters from `p` to `q`, at least one, all in the class. */
  ghost predicate Run(s: string, p: nat, q: nat, f: char -> bool) {
    p < q <= |s| && forall i :: p <= i < q ==> f(s[i])
  }

  /** A word of the request line, as long as it goes. */
  ghost predicate WordIn(s: string, p: nat, q: nat, w: string) {
    Run(s, p, q, IsLiteral) && w == s[p..q] && (q < |s| ==> !IsLiteral(s[q]))
  }

  ghost predicate CharIn(s: string, p: nat, c: char) { p < |s| && s[p] == c }

  /** Slashes and words in turn; slashes may come last, and make up the empty path, and
      then it is open. */
  ghost predicate PathIn(s: string, p: nat, path: seq<string>, open: bool, q: nat)
    decreases |path|
  {
    exists i: nat :: Run(s, p, i, IsSlash) &&
      if path == [] then q == i && open
      else exists j: nat ::
        WordIn(s, i, j, path[0]) && ((|path| == 1 && q == j && !open) || PathIn(s, j, path[1..], open, q))
  }

  /** A key and a value with an equals sign between them. */
  ghost predicate PairIn(s: string, p: nat, i: nat, j: nat, kv: (string, string)) {
    WordIn(s, p, i, kv.0) && CharIn(s, i, '=') && WordIn(s, i + 1, j, kv.1)
  }

  /** Pairs of words, each with an ampersand before the next; after the last ampersand
      there may be nothing, or a loose word, with an equals sign or without. */
  ghost predicate PairsIn(s: string, p: nat, qs: seq<(string, string)>, loose: bool, q: nat)
    decreases |qs|
  {
    if qs == [] then
      if loose then exists i: nat, w :: WordIn(s, p, i, w) && (q == i || (CharIn(s, i, '=') && q == i + 1)) else q == p
    else exists i: nat, j: nat ::
      && PairIn(s, p, i, j, qs[0])
      && ((|qs| == 1 && q == j && !loose) || (CharIn(s, j, '&') && PairsIn(s, j + 1, qs[1..], loose, q)))
  }

  /** No question mark follows an open path. */
  ghost predicate QueryIn(s: string, p: nat, open: bool, qs: seq<(string, string)>, loose: bool, q: nat) {
    || (qs == [] && !loose && q == p)
    || (!open && CharIn(s, p, '?') && PairsIn(s, p + 1, qs, loose, q))
  }

  /** Blanks, HTTP in either case, slashes, 1.1 and the end of the line. */
  ghost predicate VersionIn(s: string, p: nat, q: nat) {
    exists i: nat, j: nat, k: nat, w ::
      && Run(s, p, i, IsBlank) && WordIn(s, i, j, w) && EqualFold("HTTP", w)
      && Run(s, j, k, IsSlash) && WordIn(s, k, k + 3, "1.1")
      && CharIn(s, k + 3, '\r') && CharIn(s, k + 4, '\n') && q == k + 5
  }

  ghost predicate MethodIn(s: string, verb: Option<Method>, q: nat) {
    && verb.Some?
    && exists i: nat, w :: WordIn(s, 0, i, w) && EqualFold(MethodName(verb.value), w) && Run(s, i, q, IsBlank)
  }

  /** The path fits its table and, if a key is to be read, leaves room in it; and the
      keys fit theirs. */
  predicate TablesFit(path: seq<string>, qs: seq<(string, string)>, loose: bool) {
    var keys := |qs| + if loose then 1 else 0;
    |path| <= 32 && keys <= 32 && (keys > 0 ==> |path| < 32)
  }

  ghost predicate LineAt(
      s: string, verb: Option<Method>, path: seq<string>, qs: seq<(string, string)>,
      a: nat, b: nat, open: bool, c: nat, loose: bool, q: nat)
  {
    && MethodIn(s, verb, a) && PathIn(s, a, path, open, b) && QueryIn(s, b, open, qs, loose, c) && VersionIn(s, c, q)
    && TablesFit(path, qs, loose)
  }

  /** A request line up to `q`. */
  ghost predicate LineIn(s: string, verb: Option<Method>, path: seq<string>, qs: seq<(string, string)>, q: nat) {
    exists a: nat, b: nat, open, c: nat, loose :: LineAt(s, verb, path, qs, a, b, open, c, loose, q)
  }

  // ------------------------------------------------------------------- tokens

  lemma {:induction false} SpanRuns(s: string, p: nat, f: char -> bool)
    requires p <= |s|
    ensures var n := Span(s, p, f);
      && p + n <= |s| && (forall i :: p <= i < p + n ==> f(s[i])) && (p + n < |s| ==> !f(s[p + n]))
      && (p < |s| && f(s[p]) ==> n > 0)
    decreases |s| - p
  {
    if p < |s| && f(s[p]) { SpanRuns(s, p + 1, f); }
  }

  /** What stands where a token was found. */
  lemma {:induction false} TokenText(s: string, p: nat)
    requires p <= |s| && RequestToken(s, p).Some?
    ensures var t := RequestToken(s, p).value;
      && p < t.end <= |s|
      && (t.kind == Solidus ==> Run(s, p, t.end, IsSlash))
      && (t.kind == Ws ==> Run(s, p, t.end, IsBlank) && (t.end < |s| ==> !IsBlank(s[t.end])))
      && (t.kind == Literal ==> WordIn(s, p, t.end, t.value))
      && (t.kind == Cr ==> CharIn(s, p, '\r') && t.end == p + 1)
      && (t.kind == Lf ==> CharIn(s, p, '\n') && t.end == p + 1)
      && (t.kind == Query ==> CharIn(s, p, '?') && t.end == p + 1)
      && (t.kind == Ampersand ==> CharIn(s, p, '&') && t.end == p + 1)
      && (t.kind == Eq ==> CharIn(s, p, '=') && t.end == p + 1)
  {
    SpanRuns(s, p, IsSlash);
    SpanRuns(s, p, IsBlank);
    SpanRuns(s, p, IsLiteral);
  }

  lemma {:induction false} ExpectSound(s: string, l: Lexer, p: nat, kind: Kind)
    requires Facing(s, l, p) && p <= |s|
    ensures var (m, ok) := Expect(s, l, kind);
      && (ok <==> RequestToken(s, p).Some? && RequestToken(s, p).value.kind == kind)
      && (ok ==> m.accepted && Facing(s, m, RequestToken(s, p).value.end))
      && (!ok ==> Facing(s, m, p))
  {
    hide RequestToken;
  }

  lemma {:induction false} PeekSound(s: string, l: Lexer, p: nat)
    requires Facing(s, l, p) && p <= |s|
    ensures var (m, found) := Peeked(s, l);
      && found == RequestToken(s, p).Some? && Facing(s, m, p)
      && (found ==> m.token == RequestToken(s, p).value && Facing(s, m.(accepted := true), m.token.end))
  {
    hide RequestToken;
  }

  lemma {:induction false} WordSound(s: string, l: Lexer, p: nat, word: string)
    requires Facing(s, l, p) && p <= |s|
    ensures var (m, ok) := Word(s, l, word);
      && (ok ==>
            && RequestToken(s, p).Some? && RequestToken(s, p).value.kind == Literal
            && EqualFold(word, RequestToken(s, p).value.value)
            && m.accepted && Facing(s, m, RequestToken(s, p).value.end))
      && (!ok ==> Facing(s, m, p))
  {
    hide RequestToken, EqualFold;
    PeekSound(s, l, p);
  }

  // ------------------------------------------------------------ the request line

  /** The parser faces anything but a blank, so the request line fails. */
  ghost predicate Stuck(s: string, l: Lexer) {
    exists p: nat :: p <= |s| && Facing(s, l, p) && !(RequestToken(s, p).Some? && RequestToken(s, p).value.kind == Ws)
  }

  lemma {:induction false} MethodSound(s: string)
    ensures var r := ParseMethod(s, Begin);
      r.ok ==>
        && r.req == NoReq.(verb := r.req.verb) && r.req.verb.Some?
        && RequestToken(s, 0).Some? && RequestToken(s, 0).value.kind == Literal
        && EqualFold(MethodName(r.req.verb.value), RequestToken(s, 0).value.value)
        && Facing(s, r.lex, RequestToken(s, 0).value.end)
  {
    hide RequestToken, Word;
    WordSound(s, Begin.lex, 0, "GET");
    var g := MethodIs(s, Begin, "GET", Get);
    if !g.ok {
      WordSound(s, g.lex, 0, "PUT");
      var p := MethodIs(s, g, "PUT", Put);
      if !p.ok { WordSound(s, p.lex, 0, "OPTIONS"); }
    }
  }

  /** A path that parsed is in the text, and one that did not leaves the parser stuck. */
  lemma {:induction false} PathSound(s: string, st: State, p: nat) returns (path: seq<string>, open: bool, q: nat)
    requires Facing(s, st.lex, p) && p <= |s| && (p < |s| ==> !IsBlank(s[p]))
    ensures var r := ParsePath(s, st);
      if r.ok then
        && r.req == st.req.(url := st.req.url + path) && PathIn(s, p, path, open, q) && q <= |s|
        && Facing(s, r.lex, q) && (|st.req.url| <= UrlMax ==> |st.req.url| + |path| <= UrlMax)
        && (open ==> RequestToken(s, q).Some? && RequestToken(s, q).value.kind == Ws)
      else Stuck(s, r.lex)
    ensures ParsePath(s, st).req == st.req.(url := ParsePath(s, st).req.url)
    decreases UrlMax - |st.req.url|
  {
    hide RequestToken, Peeked, PathIn;
    path, open, q := [], true, p;
    ExpectSound(s, st.lex, p, Solidus);
    var (l, slash) := Expect(s, st.lex, Solidus);
    if !slash {
      StuckAtStart(s, l, p);
      return;
    }
    TokenText(s, p);
    var i := RequestToken(s, p).value.end;
    PeekSound(s, l, i);
    var (m, found) := Peeked(s, l);
    if !found {
      assert Stuck(s, m);
      return;
    }
    TokenText(s, i);
    if m.token.kind != Literal {
      q := i;
      assert PathIn(s, p, [], true, i) by { PathEmpty(s, p, i); }
      assert st.req.url + [] == st.req.url;
      assert m.token.kind != Ws ==> Stuck(s, m);
    } else if |st.req.url| >= UrlMax {
      assert Stuck(s, m);
    } else {
      var w, j := m.token.value, m.token.end;
      var req := st.req.(url := st.req.url + [w]);
      PeekSound(s, m.(accepted := true), j);
      var (n, more) := Peek(s, m.(accepted := true), Solidus);
      if more {
        TokenText(s, j);
        SlashIsNoBlank(s, j);
        var rest;
        rest, open, q := PathSound(s, State(req, n, true), j);
        path := [w] + rest;
        assert st.req.url + path == req.url + rest;
        if ParsePath(s, State(req, n, true)).ok { PathMore(s, p, i, j, w, rest, open, q); }
      } else {
        path, open, q := [w], false, j;
        PathLast(s, p, i, j, w);
      }
    }
  }

  lemma {:induction false} StuckAtStart(s: string, l: Lexer, p: nat)
    requires Facing(s, l, p) && p <= |s| && (p < |s| ==> !IsBlank(s[p]))
    ensures Stuck(s, l)
  {
    if RequestToken(s, p).Some? { TokenText(s, p); }
  }

  lemma {:induction false} SlashIsNoBlank(s: string, p: nat)
    requires p < |s| && IsSlash(s[p])
    ensures !IsBlank(s[p])
  {
  }

  lemma {:induction false} PathEmpty(s: string, p: nat, i: nat)
    requires Run(s, p, i, IsSlash)
    ensures PathIn(s, p, [], true, i)
  {
  }

  lemma {:induction false} PathLast(s: string, p: nat, i: nat, j: nat, w: string)
    requires Run(s, p, i, IsSlash) && WordIn(s, i, j, w)
    ensures PathIn(s, p, [w], false, j)
  {
    var path := [w];
    assert WordIn(s, i, j, path[0]) && |path| == 1;
  }

  lemma {:induction false} PathMore(s: string, p: nat, i: nat, j: nat, w: string, rest: seq<string>, open: bool, q: nat)
    requires Run(s, p, i, IsSlash) && WordIn(s, i, j, w) && PathIn(s, j, rest, open, q)
    ensures PathIn(s, p, [w] + rest, open, q)
  {
    assert ([w] + rest)[1..] == rest;
  }

  /** Where the key and the value of a pair were found, and how far it went. */
  lemma {:induction false} KeySound(s: string, st: State, p: nat)
    requires Facing(s, st.lex, p) && p <= |s|
    ensures var r := ParseQueryKey(s, st);
      && (r.ok ==>
            && RequestToken(s, p).Some? && RequestToken(s, p).value.kind == Literal
            && |st.req.url| < UrlMax && |st.req.queries| < QueryMax
            && r.req == st.req.(pendingKey := RequestToken(s, p).value.value)
            && Facing(s, r.lex, RequestToken(s, p).value.end))
      && (!r.ok ==> Facing(s, r.lex, p) && r.req == st.req.(overrun := r.req.overrun))
  {
    hide RequestToken, Peeked;
    PeekSound(s, st.lex, p);
  }

  lemma {:induction false} ValueSound(s: string, st: State, p: nat)
    requires Facing(s, st.lex, p) && p <= |s|
    ensures var r := ParseQueryValue(s, st);
      && (r.ok ==>
            && RequestToken(s, p).Some? && RequestToken(s, p).value.kind == Literal
            && r.req == st.req.(queries := st.req.queries + [(st.req.pendingKey, RequestToken(s, p).value.value)])
            && Facing(s, r.lex, RequestToken(s, p).value.end))
      && (!r.ok ==> Facing(s, r.lex, p) && r.req == st.req)
  {
    hide RequestToken, Peeked;
    PeekSound(s, st.lex, p);
  }

  /** Keys are read only while the path leaves room, and pairs only while their table does. */
  ghost predicate Room(st: State, r: State, qs: seq<(string, string)>, loose: bool) {
    var keys := |qs| + if loose then 1 else 0;
    && (keys > 0 ==> |st.req.url| < UrlMax)
    && (|st.req.queries| <= QueryMax && !r.req.overrun ==> |st.req.queries| + keys <= QueryMax)
  }

  /** A pair and an ampersand were found from `p` to `q`, or as much of them as there is. */
  lemma {:induction false} PairSound(s: string, st: State, p: nat)
      returns (qs: seq<(string, string)>, loose: bool, q: nat)
    requires Facing(s, st.lex, p) && p <= |s| && !st.req.overrun
    ensures q <= |s|
    ensures var r := ParsePair(s, st);
      && Facing(s, r.lex, q)
      && r.req == st.req.(pendingKey := r.req.pendingKey, queries := st.req.queries + qs, overrun := r.req.overrun)
      && (r.ok ==>
            && |qs| == 1 && !r.req.overrun
            && exists i: nat, j: nat :: PairIn(s, p, i, j, qs[0]) && CharIn(s, j, '&') && q == j + 1)
      && (!r.ok ==> PairsIn(s, p, qs, loose, q))
      && Room(st, r, qs, loose)
  {
    hide RequestToken, Expect, ParseQueryKey, ParseQueryValue, PairsIn;
    qs, loose, q := [], false, p;
    assert st.req.queries + [] == st.req.queries;
    KeySound(s, st, p);
    var a := ParseQueryKey(s, st);
    if !a.ok {
      NoPair(s, p);
      return;
    }
    TokenText(s, p);
    var k, i := RequestToken(s, p).value.value, RequestToken(s, p).value.end;
    loose, q := true, i;
    ExpectSound(s, a.lex, i, Eq);
    var b := Then(s, a, Eq);
    if !b.ok {
      KeyOnly(s, p, i, k);
      return;
    }
    TokenText(s, i);
    q := i + 1;
    ValueSound(s, b, i + 1);
    var c := ParseQueryValue(s, b);
    if !c.ok {
      KeyOnly(s, p, i, k);
      return;
    }
    TokenText(s, i + 1);
    var v, j := RequestToken(s, i + 1).value.value, RequestToken(s, i + 1).value.end;
    qs, loose, q := [(k, v)], false, j;
    ExpectSound(s, c.lex, j, Ampersand);
    if Then(s, c, Ampersand).ok {
      TokenText(s, j);
      q := j + 1;
      assert PairIn(s, p, i, j, qs[0]);
    } else {
      OnePair(s, p, i, j, qs);
    }
  }

  lemma {:induction false} NoPair(s: string, p: nat)
    ensures PairsIn(s, p, [], false, p)
  {
  }

  lemma {:induction false} KeyOnly(s: string, p: nat, i: nat, k: string)
    requires WordIn(s, p, i, k)
    ensures PairsIn(s, p, [], true, i) && (CharIn(s, i, '=') ==> PairsIn(s, p, [], true, i + 1))
  {
  }

  lemma {:induction false} OnePair(s: string, p: nat, i: nat, j: nat, qs: seq<(string, string)>)
    requires |qs| == 1 && PairIn(s, p, i, j, qs[0])
    ensures PairsIn(s, p, qs, false, j)
  {
    hide PairIn;
  }

  lemma {:induction false} MorePairs(
      s: string, p: nat, i: nat, j: nat, qs: seq<(string, string)>, loose: bool, q: nat)
    requires qs != [] && PairIn(s, p, i, j, qs[0])
    requires CharIn(s, j, '&') && PairsIn(s, j + 1, qs[1..], loose, q)
    ensures PairsIn(s, p, qs, loose, q)
  {
  }

  lemma {:induction false} QuerySound(s: string, st: State, p: nat)
      returns (qs: seq<(string, string)>, loose: bool, q: nat)
    requires Facing(s, st.lex, p) && p <= |s| && !st.req.overrun
    ensures var r := ParseQuery(s, st);
      && r.ok
      && r.req == st.req.(pendingKey := r.req.pendingKey, queries := st.req.queries + qs, overrun := r.req.overrun)
      && PairsIn(s, p, qs, loose, q) && q <= |s| && Facing(s, r.lex, q) && Room(st, r, qs, loose)
    decreases |s| - st.lex.next
  {
    hide RequestToken, ParsePair, PairsIn, Facing, PairIn, CharIn;
    qs, loose, q := PairSound(s, st, p);
    var r := ParsePair(s, st);
    if r.ok {
      var i: nat, j: nat :| PairIn(s, p, i, j, qs[0]) && CharIn(s, j, '&') && q == j + 1;
      var rest := [];
      if st.lex.next < r.lex.next <= |s| {
        var pair := qs;
        rest, loose, q := QuerySound(s, r, j + 1);
        assert st.req.queries + pair + rest == st.req.queries + (pair + rest);
      } else {
        NoPair(s, j + 1);
        loose := false;
      }
      var all := [qs[0]] + rest;
      assert all[1..] == rest && qs + rest == all && st.req.queries + qs + rest == st.req.queries + all;
      MorePairs(s, p, i, j, all, loose, q);
      qs := all;
    }
  }

  lemma {:induction false} UrlSound(s: string, st: State, p: nat)
      returns (path: seq<string>, open: bool, qs: seq<(string, string)>, loose: bool, q: nat)
    requires Facing(s, st.lex, p) && p <= |s| && (p < |s| ==> !IsBlank(s[p]))
    requires st.req.url == [] && st.req.queries == [] && !st.req.overrun
    ensures var r := ParseUrl(s, st);
      && r.ok && r.req == st.req.(url := r.req.url, pendingKey := r.req.pendingKey, queries := r.req.queries,
                                  overrun := r.req.overrun)
      && (|| Stuck(s, r.lex)
          || (&& r.req.url == path && r.req.queries == qs && q <= |s| && Facing(s, r.lex, q)
              && (!r.req.overrun ==> TablesFit(path, qs, loose))
              && exists b: nat :: PathIn(s, p, path, open, b) && QueryIn(s, b, open, qs, loose, q)))
  {
    hide RequestToken, ParsePath, ParseQuery, PathIn, PairsIn, Expect;
    var b;
    path, open, b := PathSound(s, st, p);
    var r := ParsePath(s, st);
    qs, loose, q := [], false, b;
    if r.ok {
      assert [] + path == path;
      ExpectSound(s, r.lex, b, Query);
      if Then(s, r, Query).ok {
        TokenText(s, b);
        qs, loose, q := QuerySound(s, Then(s, r, Query), b + 1);
        assert [] + qs == qs;
      }
      assert PathIn(s, p, path, open, b) && QueryIn(s, b, open, qs, loose, q);
    }
  }

  lemma {:induction false} VersionSound(s: string, st: State, p: nat) returns (q: nat)
    requires st.ok && Facing(s, st.lex, p) && p <= |s|
    ensures var r := Then(s, Then(s, ParseVersion(s, Then(s, st, Ws)), Cr), Lf);
      r.ok ==> VersionIn(s, p, q) && q <= |s| && r.lex.accepted && r.lex.next == q
  {
    hide RequestToken, Expect, Word, EqualFold, VersionIn;
    q := 0;
    ExpectSound(s, st.lex, p, Ws);
    var a := Then(s, st, Ws);
    if !a.ok { return; }
    TokenText(s, p);
    var i := RequestToken(s, p).value.end;
    WordSound(s, a.lex, i, "HTTP");
    var b := ThenWord(s, a, "HTTP");
    if !b.ok { return; }
    TokenText(s, i);
    var w, j := RequestToken(s, i).value.value, RequestToken(s, i).value.end;
    ExpectSound(s, b.lex, j, Solidus);
    var c := Then(s, b, Solidus);
    if !c.ok { return; }
    TokenText(s, j);
    var k := RequestToken(s, j).value.end;
    WordSound(s, c.lex, k, "1.1");
    var d := ThenWord(s, c, "1.1");
    if !d.ok { return; }
    TokenText(s, k);
    NumberWord(RequestToken(s, k).value.value);
    var e := RequestToken(s, k).value.end;
    ExpectSound(s, d.lex, e, Cr);
    var f := Then(s, d, Cr);
    if !f.ok { return; }
    TokenText(s, e);
    ExpectSound(s, f.lex, e + 1, Lf);
    if !Then(s, f, Lf).ok { return; }
    TokenText(s, e + 1);
    q := e + 2;
    VersionThere(s, p, i, j, k, w);
  }

  lemma {:induction false} NumberWord(w: string)
    requires EqualFold("1.1", w)
    ensures w == "1.1"
  {
    assert |w| == 3 && Lower(w[0]) == '1' && Lower(w[1]) == '.' && Lower(w[2]) == '1';
  }

  lemma {:induction false} VersionThere(s: string, p: nat, i: nat, j: nat, k: nat, w: string)
    requires Run(s, p, i, IsBlank) && WordIn(s, i, j, w) && EqualFold("HTTP", w)
    requires Run(s, j, k, IsSlash) && WordIn(s, k, k + 3, "1.1")
    requires CharIn(s, k + 3, '\r') && CharIn(s, k + 4, '\n')
    ensures VersionIn(s, p, k + 5)
  {
    hide WordIn, Run, EqualFold;
  }

  lemma {:induction false} StuckRefused(s: string, st: State)
    requires st.ok && Stuck(s, st.lex)
    ensures !Then(s, Then(s, ParseVersion(s, Then(s, st, Ws)), Cr), Lf).ok
  {
    hide RequestToken, Expect;
    var p: nat :| p <= |s| && Facing(s, st.lex, p)
      && !(RequestToken(s, p).Some? && RequestToken(s, p).value.kind == Ws);
    ExpectSound(s, st.lex, p, Ws);
  }

  /** A request line that parses is one, and the request is what it says. */
  lemma {:induction false} LineSound(s: string)
    ensures var r := ParseRequestLine(s, Begin);
      r.ok && !r.req.overrun ==>
        && LineIn(s, r.req.verb, r.req.url, r.req.queries, r.lex.next) && r.lex.accepted && r.lex.next <= |s|
        && r.req.contentLength == 0 && r.req.contentType == None
  {
    hide RequestToken, ParseMethod, ParseUrl, Expect, VersionIn, PathIn, QueryIn, EqualFold;
    var m := ParseMethod(s, Begin);
    MethodSound(s);
    if !m.ok { return; }
    TokenText(s, 0);
    var i := RequestToken(s, 0).value.end;
    ExpectSound(s, m.lex, i, Ws);
    var n := Then(s, m, Ws);
    if !n.ok { return; }
    TokenText(s, i);
    var a := RequestToken(s, i).value.end;
    assert MethodIn(s, m.req.verb, a);
    var path, open, qs, loose, c := UrlSound(s, n, a);
    var u := ParseUrl(s, n);
    RestKeepsRequest(s, u);
    if Stuck(s, u.lex) {
      StuckRefused(s, u);
    } else {
      var b: nat :| PathIn(s, a, path, open, b) && QueryIn(s, b, open, qs, loose, c);
      var q := VersionSound(s, u, c);
      var r := ParseRequestLine(s, Begin);
      if r.ok && !r.req.overrun {
        assert LineAt(s, r.req.verb, r.req.url, r.req.queries, a, b, open, c, loose, q);
      }
    }
  }

  // --------------------------------------------------- and every such line is read

  /** A run of slashes or blanks, as long as it goes, is a token. */
  lemma {:induction false} RunToken(s: string, p: nat, i: nat)
    requires p < i <= |s|
    ensures Run(s, p, i, IsSlash) && (i < |s| ==> s[i] != '/') ==> RequestToken(s, p) == Some(Token(Solidus, "", i))
    ensures Run(s, p, i, IsBlank) && (i < |s| ==> !IsBlank(s[i])) ==> RequestToken(s, p) == Some(Token(Ws, "", i))
  {
    assert Has(s, p, s[p..i]);
    if Run(s, p, i, IsSlash) && (i < |s| ==> s[i] != '/') { SpanExact(s, p, s[p..i], IsSlash); }
    if Run(s, p, i, IsBlank) && (i < |s| ==> !IsBlank(s[i])) { SpanExact(s, p, s[p..i], IsBlank); }
  }

  lemma {:induction false} WordIsToken(s: string, p: nat, q: nat, w: string)
    requires WordIn(s, p, q, w)
    ensures RequestToken(s, p) == Some(Token(Literal, w, q))
    ensures s[p] != '/' && !IsBlank(s[p])
  {
    assert Has(s, p, w);
    SpanExact(s, p, w, IsLiteral);
    assert IsLiteral(s[p]);
  }

  lemma {:induction false} MarkIsToken(s: string, p: nat)
    requires p < |s|
    ensures s[p] == '?' ==> RequestToken(s, p) == Some(Token(Query, "", p + 1))
    ensures s[p] == '&' ==> RequestToken(s, p) == Some(Token(Ampersand, "", p + 1))
    ensures s[p] == '=' ==> RequestToken(s, p) == Some(Token(Eq, "", p + 1))
    ensures s[p] == '\r' ==> RequestToken(s, p) == Some(Token(Cr, "", p + 1))
    ensures s[p] == '\n' ==> RequestToken(s, p) == Some(Token(Lf, "", p + 1))
    ensures IsBlank(s[p]) ==> RequestToken(s, p).Some? && RequestToken(s, p).value.kind == Ws
  {
  }

  /** What follows a path in a request line. */
  ghost predicate PathEnds(s: string, q: nat, open: bool) {
    q < |s| && (IsBlank(s[q]) || (s[q] == '?' && !open))
  }

  lemma {:induction false} PathReads(s: string, st: State, p: nat, path: seq<string>, open: bool, q: nat)
    requires Facing(s, st.lex, p) && p <= |s| && PathIn(s, p, path, open, q) && PathEnds(s, q, open)
    requires |st.req.url| + |path| <= UrlMax
    ensures var r := ParsePath(s, st);
      r.ok && r.req == st.req.(url := st.req.url + path) && Facing(s, r.lex, q)
    decreases |path|
  {
    hide RequestToken, Peeked, WordIn;
    var i: nat :| Run(s, p, i, IsSlash) &&
      if path == [] then q == i && open
      else exists j: nat ::
        WordIn(s, i, j, path[0]) && ((|path| == 1 && q == j && !open) || PathIn(s, j, path[1..], open, q));
    if path == [] {
      MarkIsToken(s, i);
      RunToken(s, p, i);
      ExpectSound(s, st.lex, p, Solidus);
      PeekSound(s, Expect(s, st.lex, Solidus).0, i);
      assert st.req.url + [] == st.req.url;
    } else {
      var j: nat :|
        WordIn(s, i, j, path[0]) && ((|path| == 1 && q == j && !open) || PathIn(s, j, path[1..], open, q));
      WordIsToken(s, i, j, path[0]);
      RunToken(s, p, i);
      ExpectSound(s, st.lex, p, Solidus);
      var l := Expect(s, st.lex, Solidus).0;
      PeekSound(s, l, i);
      var m := Peeked(s, l).0.(accepted := true);
      PeekSound(s, m, j);
      var req := st.req.(url := st.req.url + [path[0]]);
      var n := Peek(s, m, Solidus).0;
      assert st.req.url + path == req.url + path[1..];
      if |path| == 1 && q == j && !open {
        NoSlash(s, j);
      } else {
        SlashNext(s, j, path[1..], open, q);
        PathReads(s, State(req, n, true), j, path[1..], open, q);
      }
    }
  }

  lemma {:induction false} NoSlash(s: string, p: nat)
    requires PathEnds(s, p, false)
    ensures RequestToken(s, p).Some? && RequestToken(s, p).value.kind != Solidus
  {
    MarkIsToken(s, p);
  }

  lemma {:induction false} SlashNext(s: string, p: nat, path: seq<string>, open: bool, q: nat)
    requires PathIn(s, p, path, open, q)
    ensures p < |s| && RequestToken(s, p).Some? && RequestToken(s, p).value.kind == Solidus
  {
    var i: nat :| Run(s, p, i, IsSlash);
    assert IsSlash(s[p]);
  }

  /** A key, its equals sign and its value are read, and the ampersand if there is one. */
  lemma {:induction false} PairReads(s: string, st: State, p: nat, i: nat, j: nat, k: string, v: string)
    requires Facing(s, st.lex, p) && PairIn(s, p, i, j, (k, v)) && j < |s|
    requires |st.req.url| < UrlMax && |st.req.queries| < QueryMax
    ensures var r := ParsePair(s, st);
      && r.req == st.req.(pendingKey := k, queries := st.req.queries + [(k, v)])
      && (if s[j] == '&' then r.ok && r.lex.accepted && Facing(s, r.lex, j + 1)
          else IsBlank(s[j]) ==> !r.ok && Facing(s, r.lex, j))
  {
    hide RequestToken, Peeked;
    WordIsToken(s, p, i, k);
    PeekSound(s, st.lex, p);
    var a := ParseQueryKey(s, st);
    MarkIsToken(s, i);
    ExpectSound(s, a.lex, i, Eq);
    var b := Then(s, a, Eq);
    WordIsToken(s, i + 1, j, v);
    PeekSound(s, b.lex, i + 1);
    var c := ParseQueryValue(s, b);
    MarkIsToken(s, j);
    ExpectSound(s, c.lex, j, Ampersand);
  }

  /** A loose word is read as a key and stays one. */
  lemma {:induction false} LooseReads(s: string, st: State, p: nat, i: nat, w: string, q: nat)
    requires Facing(s, st.lex, p) && WordIn(s, p, i, w) && q < |s| && IsBlank(s[q])
    requires q == i || (CharIn(s, i, '=') && q == i + 1)
    requires |st.req.url| < UrlMax && |st.req.queries| < QueryMax
    ensures var r := ParsePair(s, st); !r.ok && r.req == st.req.(pendingKey := w) && Facing(s, r.lex, q)
  {
    hide RequestToken, Peeked;
    WordIsToken(s, p, i, w);
    PeekSound(s, st.lex, p);
    var a := ParseQueryKey(s, st);
    MarkIsToken(s, i);
    ExpectSound(s, a.lex, i, Eq);
    if q == i + 1 {
      var b := Then(s, a, Eq);
      MarkIsToken(s, q);
      PeekSound(s, b.lex, q);
    }
  }

  lemma {:induction false} NothingReads(s: string, st: State, p: nat)
    requires Facing(s, st.lex, p) && p < |s| && IsBlank(s[p])
    ensures var r := ParsePair(s, st); !r.ok && r.req == st.req && Facing(s, r.lex, p)
  {
    hide RequestToken, Peeked;
    MarkIsToken(s, p);
    PeekSound(s, st.lex, p);
  }

  /** There is room for the keys of a query. */
  ghost predicate HasRoom(st: State, qs: seq<(string, string)>, loose: bool) {
    var keys := |qs| + if loose then 1 else 0;
    (keys > 0 ==> |st.req.url| < UrlMax) && |st.req.queries| + keys <= QueryMax
  }

  lemma {:induction false} QueryReads(s: string, st: State, p: nat, qs: seq<(string, string)>, loose: bool, q: nat)
    requires Facing(s, st.lex, p) && st.lex.accepted && PairsIn(s, p, qs, loose, q) && q < |s| && IsBlank(s[q])
    requires HasRoom(st, qs, loose)
    ensures var r := ParseQuery(s, st);
      && r.ok && r.req == st.req.(pendingKey := r.req.pendingKey, queries := st.req.queries + qs)
      && Facing(s, r.lex, q)
    decreases |qs|
  {
    hide ParsePair, WordIn, RequestToken;
    assert st.req.queries + [] == st.req.queries;
    if qs == [] {
      if loose {
        var i: nat, w :| WordIn(s, p, i, w) && (q == i || (CharIn(s, i, '=') && q == i + 1));
        LooseReads(s, st, p, i, w, q);
      } else {
        NothingReads(s, st, p);
      }
    } else {
      var i: nat, j: nat :|
        && PairIn(s, p, i, j, qs[0])
        && ((|qs| == 1 && q == j && !loose) || (CharIn(s, j, '&') && PairsIn(s, j + 1, qs[1..], loose, q)));
      PairReads(s, st, p, i, j, qs[0].0, qs[0].1);
      WordMoves(s, p, i, qs[0].0);
      WordMoves(s, i + 1, j, qs[0].1);
      if s[j] == '&' {
        assert st.req.queries + [(qs[0].0, qs[0].1)] + qs[1..] == st.req.queries + qs;
        QueryReads(s, ParsePair(s, st), j + 1, qs[1..], loose, q);
      } else {
        assert qs == [qs[0]];
      }
    }
  }

  lemma {:induction false} WordMoves(s: string, p: nat, q: nat, w: string)
    requires WordIn(s, p, q, w)
    ensures p < q <= |s|
  {
  }

  lemma {:induction false} MethodReads(s: string, verb: Option<Method>, a: nat)
    requires MethodIn(s, verb, a) && (a < |s| ==> !IsBlank(s[a]))
    ensures var m := ParseMethod(s, Begin); var r := Then(s, m, Ws);
      m.ok && r.ok && r.req == NoReq.(verb := verb) && r.lex.accepted && Facing(s, r.lex, a)
  {
    hide RequestToken, Peeked;
    var i: nat, w :| WordIn(s, 0, i, w) && EqualFold(MethodName(verb.value), w) && Run(s, i, a, IsBlank);
    WordIsToken(s, 0, i, w);
    WordSays(s, Begin.lex, 0, "GET");
    var g := MethodIs(s, Begin, "GET", Get);
    FoldsTo(verb.value, w);
    if !g.ok {
      WordSays(s, g.lex, 0, "PUT");
      var p := MethodIs(s, g, "PUT", Put);
      if !p.ok { WordSays(s, p.lex, 0, "OPTIONS"); }
    }
    var m := ParseMethod(s, Begin);
    RunToken(s, i, a);
    ExpectSound(s, m.lex, i, Ws);
  }

  lemma {:induction false} WordSays(s: string, l: Lexer, p: nat, word: string)
    requires Facing(s, l, p) && p <= |s| && RequestToken(s, p).Some? && RequestToken(s, p).value.kind == Literal
    ensures var (m, ok) := Word(s, l, word); var t := RequestToken(s, p).value;
      ok == EqualFold(word, t.value) && Facing(s, m, if ok then t.end else p)
  {
    hide RequestToken, EqualFold;
    PeekSound(s, l, p);
  }

  /** A word is one method's name at most. */
  lemma {:induction false} FoldsTo(m: Method, w: string)
    requires EqualFold(MethodName(m), w)
    ensures EqualFold("GET", w) <==> m == Get
    ensures EqualFold("PUT", w) <==> m == Put
    ensures EqualFold("OPTIONS", w) <==> m == Options
  {
    MethodNamesDiffer(m);
    forall x: string, y: string | EqualFold(x, w) && EqualFold(y, w) ensures EqualFold(x, y) { }
    assert |MethodName(m)| == |w|;
    if EqualFold("GET", w) { assert EqualFold("GET", MethodName(m)); }
    if EqualFold("PUT", w) { assert EqualFold("PUT", MethodName(m)); }
    if EqualFold("OPTIONS", w) { assert EqualFold("OPTIONS", MethodName(m)); }
  }

  lemma {:induction false} VersionReads(s: string, st: State, p: nat, q: nat)
    requires st.ok && Facing(s, st.lex, p) && p <= |s| && VersionIn(s, p, q)
    ensures var r := Then(s, Then(s, ParseVersion(s, Then(s, st, Ws)), Cr), Lf);
      r.ok && r.req == st.req && r.lex.accepted && r.lex.next == q
  {
    hide RequestToken, Expect, Word, EqualFold, WordIn, Run;
    var i: nat, j: nat, k: nat, w :|
      && Run(s, p, i, IsBlank) && WordIn(s, i, j, w) && EqualFold("HTTP", w)
      && Run(s, j, k, IsSlash) && WordIn(s, k, k + 3, "1.1")
      && CharIn(s, k + 3, '\r') && CharIn(s, k + 4, '\n') && q == k + 5;
    WordIsToken(s, i, j, w);
    WordIsToken(s, k, k + 3, "1.1");
    RunInside(s, p, i, IsBlank);
    RunInside(s, j, k, IsSlash);
    RunToken(s, p, i);
    RunToken(s, j, k);
    MarkIsToken(s, k + 3);
    MarkIsToken(s, k + 4);
    ExpectSound(s, st.lex, p, Ws);
    var a := Then(s, st, Ws);
    WordSays(s, a.lex, i, "HTTP");
    var b := ThenWord(s, a, "HTTP");
    ExpectSound(s, b.lex, j, Solidus);
    var c := Then(s, b, Solidus);
    WordSays(s, c.lex, k, "1.1");
    var d := ThenWord(s, c, "1.1");
    assert EqualFold("1.1", "1.1") by { FoldSelf("1.1"); }
    ExpectSound(s, d.lex, k + 3, Cr);
    ExpectSound(s, Then(s, d, Cr).lex, k + 4, Lf);
  }

  lemma {:induction false} FoldSelf(w: string)
    ensures EqualFold(w, w)
  {
  }

  lemma {:induction false} RunInside(s: string, p: nat, q: nat, f: char -> bool)
    requires Run(s, p, q, f)
    ensures p < q <= |s| && f(s[p])
  {
  }

  /** Every request line of the grammar that fits the tables is read, to its end. */
  lemma {:induction false} LineReads(
      s: string, verb: Option<Method>, path: seq<string>, qs: seq<(string, string)>, q: nat)
    requires LineIn(s, verb, path, qs, q)
    ensures var r := ParseRequestLine(s, Begin);
      && r.ok && !r.req.overrun && r.req.verb == verb && r.req.url == path && r.req.queries == qs
      && r.lex.next == q
  {
    hide RequestToken, ParseMethod, ParsePath, ParseQuery, Expect, PathIn, PairsIn, MethodIn, VersionIn;
    var a: nat, b: nat, open, c: nat, loose :| LineAt(s, verb, path, qs, a, b, open, c, loose, q);
    SlashNext(s, a, path, open, b);
    BlankNext(s, c, q);
    SlashIsThere(s, a);
    MethodReads(s, verb, a);
    var n := Then(s, ParseMethod(s, Begin), Ws);
    PathReads(s, n, a, path, open, b);
    var r := ParsePath(s, n);
    assert [] + path == path && [] + qs == qs;
    MarkIsToken(s, b);
    ExpectSound(s, r.lex, b, Query);
    if CharIn(s, b, '?') { QueryReads(s, Then(s, r, Query), b + 1, qs, loose, c); }
    var u := ParseUrl(s, n);
    VersionReads(s, u, c, q);
  }

  lemma {:induction false} SlashIsThere(s: string, p: nat)
    requires p < |s| && RequestToken(s, p).Some? && RequestToken(s, p).value.kind == Solidus
    ensures !IsBlank(s[p])
  {
  }

  lemma {:induction false} BlankNext(s: string, p: nat, q: nat)
    requires VersionIn(s, p, q)
    ensures p < |s| && IsBlank(s[p])
  {
    var i: nat :| Run(s, p, i, IsBlank);
    assert IsBlank(s[p]);
  }

  /** For every text: its beginning is read as a request line, without overrunning a table,
      if and only if it is one that fits them. */
  lemma {:induction false} LineIsRead(s: string)
    ensures var r := ParseRequestLine(s, Begin);
      r.ok && !r.req.overrun <==> exists verb, path, qs, q: nat :: LineIn(s, verb, path, qs, q)
  {
    hide ParseRequestLine, LineIn;
    LineSound(s);
    var r := ParseRequestLine(s, Begin);
    if verb, path, qs, q: nat :| LineIn(s, verb, path, qs, q) { LineReads(s, verb, path, qs, q); }
    if r.ok && !r.req.overrun { assert LineIn(s, r.req.verb, r.req.url, r.req.queries, r.lex.next); }
  }
}
