/** Characters and whole texts, spelled out: what the lexer's classes are, and what the
    parser makes of content headers as they are written on the wire. */
module HttpText {
  import opened Common
  import opened Http
  import opened HttpPrint

  // --------------------------------------------------------------- characters

  /** The characters of a header's key. */
  predicate InKey(c: char) {
    c in {
      '-', '0', '1', '2', '3', '4', '5', '6', '7', '8', '9', 'A', 'B', 'C', 'D', 'E', 'F', 'G', 'H', 'I', 'J',
      'K', 'L', 'M', 'N', 'O', 'P', 'Q', 'R', 'S', 'T', 'U', 'V', 'W', 'X', 'Y', 'Z', 'a', 'b', 'c', 'd', 'e',
      'f', 'g', 'h', 'i', 'j', 'k', 'l', 'm', 'n', 'o', 'p', 'q', 'r', 's', 't', 'u', 'v', 'w', 'x', 'y', 'z'}
  }

  /** The characters of a word in the request line. */
  predicate InWord(c: char) {
    c in {
      '!', '"', '#', '$', '%', '\'', '(', ')', '*', '+', ',', '-', '.', '0', '1', '2', '3', '4', '5', '6', '7',
      '8', '9', ':', ';', '<', '>', '@', 'A', 'B', 'C', 'D', 'E', 'F', 'G', 'H', 'I', 'J', 'K', 'L', 'M', 'N',
      'O', 'P', 'Q', 'R', 'S', 'T', 'U', 'V', 'W', 'X', 'Y', 'Z', '[', '\\', ']', '^', '_', '`', 'a', 'b', 'c',
      'd', 'e', 'f', 'g', 'h', 'i', 'j', 'k', 'l', 'm', 'n', 'o', 'p', 'q', 'r', 's', 't', 'u', 'v', 'w', 'x',
      'y', 'z', '{', '|', '}', '~'}
  }

  lemma {:induction false} KeyCharacters(c: char)
    ensures IsKeyChar(c) <==> InKey(c)
  {
  }

  lemma {:induction false} WordCharacters(c: char)
    ensures IsLiteral(c) <==> InWord(c)
  {
  }

  /** Blanks are spaces and tabs; a value runs to the carriage return. */
  lemma {:induction false} OtherCharacters(c: char)
    ensures IsBlank(c) <==> c in {' ', '\t'}
    ensures IsSlash(c) <==> c in {'/'}
    ensures IsDigit(c) <==> c in {'0', '1', '2', '3', '4', '5', '6', '7', '8', '9'}
    ensures IsValueChar(c) <==> c !in {'\r', '\0'}
  {
  }

  // ------------------------------------------------------------ content headers

  /** A key in any mixture of cases. */
  ghost predicate Spelled(k: string, lower: string, upper: string) {
    |k| == |lower| == |upper| && forall i :: 0 <= i < |k| ==> k[i] == lower[i] || k[i] == upper[i]
  }

  ghost predicate IsLengthKey(k: string) { Spelled(k, "content-length", "CONTENT-LENGTH") }

  ghost predicate IsTypeKey(k: string) { Spelled(k, "content-type", "CONTENT-TYPE") }

  /** `lower` and `upper` are the same letters and hyphens in the two cases. */
  ghost predicate Cases(lower: string, upper: string) {
    && |lower| == |upper|
    && forall i :: 0 <= i < |lower| ==>
         if upper[i] == '-' then lower[i] == '-'
         else 'A' <= upper[i] <= 'Z' && lower[i] as int == upper[i] as int + 32
  }

  lemma {:induction false} FoldIsSpelling(k: string, word: string, lower: string, upper: string)
    requires Cases(lower, upper) && Spelled(word, lower, upper)
    ensures EqualFold(k, word) <==> Spelled(k, lower, upper)
  {
    if |k| == |word| {
      forall i | 0 <= i < |k|
        ensures Lower(k[i]) == Lower(word[i]) <==> k[i] == lower[i] || k[i] == upper[i]
      {
      }
    }
  }

  lemma {:induction false} SpelledIsKey(k: string, lower: string, upper: string)
    requires Cases(lower, upper) && Spelled(k, lower, upper) && lower != ""
    ensures IsKey(k)
  {
    forall i | 0 <= i < |k| ensures IsKeyChar(k[i]) { }
  }

  /** The two content headers and no others are told by their keys, in either case; and
      their keys can be read. */
  lemma {:induction false} ContentKeys(k: string)
    ensures EqualFold(k, "Content-Length") <==> IsLengthKey(k)
    ensures EqualFold(k, "Content-Type") <==> IsTypeKey(k)
    ensures IsLengthKey(k) || IsTypeKey(k) ==> IsKey(k)
  {
    FoldIsSpelling(k, "Content-Length", "content-length", "CONTENT-LENGTH");
    FoldIsSpelling(k, "Content-Type", "content-type", "CONTENT-TYPE");
    if IsLengthKey(k) { SpelledIsKey(k, "content-length", "CONTENT-LENGTH"); }
    if IsTypeKey(k) { SpelledIsKey(k, "content-type", "CONTENT-TYPE"); }
  }

  ghost predicate PlainWord(w: string) { w != "" && forall i :: 0 <= i < |w| ==> InWord(w[i]) }

  ghost predicate PlainHeader(h: (string, string)) {
    && h.0 != "" && (forall i :: 0 <= i < |h.0| ==> InKey(h.0[i]))
    && PlainValue(h.1)
  }

  ghost predicate PlainValue(v: string) {
    (v != "" ==> v[0] !in {' ', '\t'}) && forall i :: 0 <= i < |v| ==> v[i] !in {'\r', '\0'}
  }

  /** A request line that fits the program's tables. */
  ghost predicate PlainLine(r: Request) {
    && |r.path| <= 32 && |r.queries| <= 32 && (r.queries != [] ==> 0 < |r.path| < 32)
    && (forall i :: 0 <= i < |r.path| ==> PlainWord(r.path[i]))
    && (forall i :: 0 <= i < |r.queries| ==> PlainWord(r.queries[i].0) && PlainWord(r.queries[i].1))
  }

  lemma {:induction false} PlainWordIsWord(w: string)
    requires PlainWord(w)
    ensures IsWord(w)
  {
    hide InWord, IsLiteral;
    forall i | 0 <= i < |w| ensures IsLiteral(w[i]) { WordCharacters(w[i]); }
  }

  lemma {:induction false} PlainHeaderPrints(h: (string, string))
    requires PlainHeader(h)
    ensures IsKey(h.0) && IsValue(h.1)
  {
    hide InKey, IsKeyChar;
    forall i | 0 <= i < |h.0| ensures IsKeyChar(h.0[i]) { KeyCharacters(h.0[i]); }
  }

  lemma {:induction false} PlainPrints(r: Request)
    requires PlainLine(r) && forall i :: 0 <= i < |r.headers| ==> IsKey(r.headers[i].0) && IsValue(r.headers[i].1)
    ensures Printable(r) && Fits(r.path, r.queries) && |r.queries| <= QueryMax
  {
    hide PlainWord, IsWord, IsKey, IsValue;
    forall i | 0 <= i < |r.path| ensures IsWord(r.path[i]) { PlainWordIsWord(r.path[i]); }
    forall i | 0 <= i < |r.queries| ensures IsWord(r.queries[i].0) && IsWord(r.queries[i].1) {
      PlainWordIsWord(r.queries[i].0);
      PlainWordIsWord(r.queries[i].1);
    }
  }

  /** Headers with one content header among them, the last of its kind. */
  lemma {:induction false} AmongPlain(
      r: Request, a: seq<(string, string)>, h: (string, string), b: seq<(string, string)>)
    requires PlainLine(r) && r.headers == a + [h] + b && IsKey(h.0) && IsValue(h.1)
    requires (forall x <- a :: PlainHeader(x)) && (forall x <- b :: PlainHeader(x))
    ensures Printable(r) && Fits(r.path, r.queries) && |r.queries| <= QueryMax
  {
    hide PlainHeader, PlainLine, IsKey, IsValue;
    forall i | 0 <= i < |r.headers| ensures IsKey(r.headers[i].0) && IsValue(r.headers[i].1) {
      if i < |a| {
        assert r.headers[i] == a[i];
        PlainHeaderPrints(a[i]);
      } else if i > |a| {
        assert r.headers[i] == b[i - |a| - 1];
        PlainHeaderPrints(b[i - |a| - 1]);
      }
    }
    PlainPrints(r);
  }

  lemma {:induction false} LastAmong(
      a: seq<(string, string)>, h: (string, string), b: seq<(string, string)>, key: string)
    requires EqualFold(h.0, key) && forall x <- b :: !EqualFold(x.0, key)
    ensures LastWith(a + [h] + b, |a|, key)
  {
    hide EqualFold;
    var hs := a + [h] + b;
    forall j | |a| + 1 <= j < |hs| ensures !EqualFold(hs[j].0, key) { assert hs[j] == b[j - |a| - 1]; }
  }

  /** A content length below 2^31 in decimal, under its key in any case, among any other
      headers, is read if no later header has that key; and the header ends where it ends. */
  lemma {:induction false} ContentLengthRead(
      r: Request, a: seq<(string, string)>, k: string, n: nat, b: seq<(string, string)>, body: string)
    requires PlainLine(r) && r.headers == a + [(k, Decimal(n))] + b && IsLengthKey(k) && n < 0x8000_0000
    requires (forall x <- a :: PlainHeader(x)) && (forall x <- b :: PlainHeader(x) && !IsLengthKey(x.0))
    ensures var o := Parse(Print(r) + body);
      && o.Accepted? && o.parsed.contentLength == n && o.parsed.headerLength == |Print(r)|
      && o.parsed.verb == Some(r.m) && o.parsed.url == r.path && o.parsed.queries == r.queries
  {
    hide Parse, Print, PlainHeader, PlainLine, IsLengthKey, IsTypeKey, EqualFold, LengthOf, Decimal, NotedAll;
    ContentKeys(k);
    LengthRoundTrip(n);
    AmongPlain(r, a, (k, Decimal(n)), b);
    forall x <- b ensures !EqualFold(x.0, "Content-Length") { ContentKeys(x.0); }
    LastAmong(a, (k, Decimal(n)), b, "Content-Length");
    ContentHeadersRead(r, body, |a|);
    ParsePrint(r, body);
  }

  /** The same for a content type. */
  lemma {:induction false} ContentTypeRead(
      r: Request, a: seq<(string, string)>, k: string, v: string, b: seq<(string, string)>, body: string)
    requires PlainLine(r) && r.headers == a + [(k, v)] + b && IsTypeKey(k) && PlainValue(v)
    requires (forall x <- a :: PlainHeader(x)) && (forall x <- b :: PlainHeader(x) && !IsTypeKey(x.0))
    ensures var o := Parse(Print(r) + body);
      o.Accepted? && o.parsed.contentType == Some(v) && o.parsed.headerLength == |Print(r)|
  {
    assert IsValue(v);
    hide Parse, Print, PlainHeader, PlainLine, IsLengthKey, IsTypeKey, EqualFold, NotedAll, PlainValue;
    ContentKeys(k);
    AmongPlain(r, a, (k, v), b);
    forall x <- b ensures !EqualFold(x.0, "Content-Type") { ContentKeys(x.0); }
    LastAmong(a, (k, v), b, "Content-Type");
    ContentHeadersRead(r, body, |a|);
    ParsePrint(r, body);
  }

  // ---------------------------------------------------------------- a whole text

  const PutText: string := "PUT /a" + " HTTP/1.1\r\n" + "content-length: 5\r\n" + "\r\n"

  lemma {:induction false} PutPrints()
    ensures Print(Request(Put, ["a"], [], [("content-length", "5")])) == PutText
  {
    var hs := [("content-length", "5")];
    assert Slashes(["a"]) == "/a" by { assert ["a"][1..] == []; }
    assert "PUT" + " " + "/a" + "" == "PUT /a";
    PutHeader();
    assert hs[1..] == [];
    hide PrintHeader, Slashes;
    assert PrintHeaders(hs) == PrintHeader(hs[0]) + PrintHeaders([]);
    assert PrintHeaders([]) == "\r\n";
    var line := "PUT /a" + " HTTP/1.1\r\n";
    assert line + (PrintHeader(hs[0]) + "\r\n") == line + PrintHeader(hs[0]) + "\r\n";
  }

  lemma {:induction false} PutHeader()
    ensures PrintHeader(("content-length", "5")) == "content-length: 5\r\n"
  {
    assert "content-length" + ": " == "content-length: ";
    assert "content-length: " + "5" == "content-length: 5";
  }

  /** One request, character by character, and what the parser makes of it. */
  lemma {:induction false} PutIsRead(body: string)
    ensures var o := Parse(PutText + body);
      && o.Accepted? && o.parsed.verb == Some(Put) && o.parsed.url == ["a"] && o.parsed.queries == []
      && o.parsed.contentLength == 5 && o.parsed.headerLength == 38
  {
    var r := Request(Put, ["a"], [], [("content-length", "5")]);
    PutPrints();
    assert Decimal(5) == "5" && |PutText| == 38;
    assert PlainWord("a") && IsLengthKey("content-length");
    hide Parse, Print, IsLengthKey, PlainWord, Decimal;
    assert r.headers == [] + [("content-length", Decimal(5))] + [];
    ContentLengthRead(r, [], "content-length", 5, [], body);
  }
}
