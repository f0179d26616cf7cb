/** The release script decides by searching the stored JSON text for the quoted word
    IN_FLIGHT. This module writes the text out and proves when the search succeeds. */
module ReleaseScript {
  import opened Http
  import opened Redis

  // ---- Encoding ----

  const HEX := "0123456789abcdef"

  predicate Escaped(c: char) {
    c < ' ' || c == '"' || c == '\\' || c == '<' || c == '>' || c == '&' || c == '\U{2028}' || c == '\U{2029}'
  }

  /** One character of a JSON string: section 7 of RFC 8259, with the extra escapes that
      Go's encoder applies. */
  function EscapeChar(c: char): (r: string)
    ensures !Escaped(c) ==> r == [c]
    ensures c == '"' ==> r == "\\\""
    ensures Escaped(c) && c != '"' ==> r != [] && r[0] == '\\' && '"' !in r
  {
    if !Escaped(c) then [c]
    else if c == '"' || c == '\\' then ['\\', c]
    else if c as int == 8 then "\\b"
    else if c as int == 12 then "\\f"
    else if c == '\n' then "\\n"
    else if c == '\r' then "\\r"
    else if c == '\t' then "\\t"
    else
      var n := c as int;
      ['\\', 'u', HEX[n / 4096 % 16], HEX[n / 256 % 16], HEX[n / 16 % 16], HEX[n % 16]]
  }

  function Escape(text: string): string {
    if text == [] then [] else EscapeChar(text[0]) + Escape(text[1..])
  }

  predicate Base64Char(c: char) {
    'A' <= c <= 'Z' || 'a' <= c <= 'z' || '0' <= c <= '9' || c == '+' || c == '/' || c == '='
  }

  /** The base 64 alphabet of section 4 of RFC 4648. */
  function Sextet(n: int): (c: char)
    requires 0 <= n < 64
    ensures Base64Char(c)
  {
    if n < 26 then 'A' + n as char
    else if n < 52 then 'a' + (n - 26) as char
    else if n < 62 then '0' + (n - 52) as char
    else if n == 62 then '+' else '/'
  }

  function Base64(bytes: Bytes): (r: string)
    ensures forall c <- r :: Base64Char(c)
  {
    if bytes == [] then []
    else
      var a := bytes[0] as int;
      var b := if |bytes| > 1 then bytes[1] as int else 0;
      var c := if |bytes| > 2 then bytes[2] as int else 0;
      [Sextet(a / 4), Sextet(a % 4 * 16 + b / 16),
       if |bytes| > 1 then Sextet(b % 16 * 4 + c / 64) else '=',
       if |bytes| > 2 then Sextet(c % 64) else '=']
      + if |bytes| > 3 then Base64(bytes[3..]) else []
  }

  function Digits(n: nat): (r: string)
    ensures r != [] && forall c <- r :: c in "0123456789"
  {
    if n < 10 then [HEX[n]] else Digits(n / 10) + [HEX[n % 10]]
  }

  function Decimal(n: int): string {
    if n < 0 then "-" + Digits(-n) else Digits(n)
  }

  /** A JSON object as text without quotes, alternating with quoted strings. */
  datatype Item = Item(text: string, raw: string)

  function Render(items: seq<Item>): string {
    if items == [] then [] else Quoted(Escape(items[0].text)) + (items[0].raw + Render(items[1..]))
  }

  function HeaderItems(pairs: seq<(string, string)>): seq<Item> {
    if pairs == [] then []
    else [Item(pairs[0].0, ":"), Item(pairs[0].1, if |pairs| == 1 then "}," else ",")] + HeaderItems(pairs[1..])
  }

  function StateItems(env: Envelope, word: string): seq<Item> {
    [Item("state", ":"), Item(if env.state.InFlight? then word else COMPLETED, ",")]
    + [Item("request_hash", ":"), Item(env.hash, ",")]
  }

  function StatusItems(env: Envelope): seq<Item> {
    if env.status == 0 then [] else [Item("status_code", ":" + Decimal(env.status) + ",")]
  }

  function HeadersItems(pairs: seq<(string, string)>): seq<Item> {
    if pairs == [] then [] else [Item("headers", ":{")] + HeaderItems(pairs)
  }

  function BodyItems(env: Envelope): seq<Item> {
    if env.body == [] then [] else [Item("body", ":"), Item(Base64(env.body), ",")]
  }

  function TimeItems(created: string, expires: string): seq<Item> {
    [Item("created_at", ":"), Item(created, ",")] + [Item("expires_at", ":"), Item(expires, "}")]
  }

  /** The fields of an envelope in the order they are written, with the given word for the
      in-flight state; empty fields are left out. */
  function Items(env: Envelope, pairs: seq<(string, string)>, created: string, expires: string,
                 word: string): seq<Item> {
    StateItems(env, word) + StatusItems(env) + HeadersItems(pairs) + BodyItems(env) + TimeItems(created, expires)
  }

  function SerializeWith(env: Envelope, pairs: seq<(string, string)>, created: string, expires: string,
                         word: string): string {
    ['{'] + Render(Items(env, pairs, created, expires, word))
  }

  function Serialize(env: Envelope, pairs: seq<(string, string)>, created: string, expires: string): string {
    SerializeWith(env, pairs, created, expires, IN_FLIGHT)
  }

  predicate Lists(pairs: seq<(string, string)>, headers: map<string, string>) {
    && (forall p <- pairs :: p.0 in headers && headers[p.0] == p.1)
    && (forall name <- headers :: (name, headers[name]) in pairs)
  }

  predicate Timestamp(text: string) {
    forall c <- text :: c in "0123456789-:.TZ+"
  }

  // ---- Searching ----

  /** Words that the encoder leaves as they are. */
  predicate Plain(word: string) {
    forall c <- word :: !Escaped(c)
  }

  function Quoted(word: string): string {
    ['"'] + word + ['"']
  }

  predicate Contains(text: string, word: string) {
    exists i | 0 <= i <= |text| :: word <= text[i..]
  }

  /** The text cut at every double quote. */
  function Cut(text: string): (r: seq<string>)
    ensures r != []
  {
    if text == [] then [[]]
    else
      var rest := Cut(text[1..]);
      if text[0] == '"' then [[]] + rest else [[text[0]] + rest[0]] + rest[1..]
  }

  function Glue(a: seq<string>, b: seq<string>): seq<string>
    requires a != [] && b != []
  {
    if |a| == 1 then [a[0] + b[0]] + b[1..] else [a[0]] + Glue(a[1..], b)
  }

  lemma {:induction false} GlueAtQuote(a: seq<string>, b: seq<string>)
    requires a != []
    ensures Glue(a, [[]] + b) == a + b
  {
    if |a| == 1 {
      assert a[0] + [] == a[0];
      assert ([[]] + b)[1..] == b;
    } else {
      GlueAtQuote(a[1..], b);
      assert a + b == [a[0]] + (a[1..] + b);
    }
  }

  lemma {:induction false} CutPlain(text: string)
    requires '"' !in text
    ensures Cut(text) == [text]
  {
    if text != [] {
      CutPlain(text[1..]);
      assert text == [text[0]] + text[1..];
    }
  }

  lemma {:induction false} CutConcat(a: string, b: string)
    ensures Cut(a + b) == Glue(Cut(a), Cut(b))
  {
    if a == [] {
      assert a + b == b;
      assert [] + Cut(b)[0] == Cut(b)[0];
    } else {
      assert (a + b)[1..] == a[1..] + b;
      var rest := Cut(a[1..]);
      CutConcat(a[1..], b);
      if a[0] == '"' {
        assert Cut(a)[1..] == rest;
      } else {
        assert Cut(a)[1..] == rest[1..];
        if |rest| == 1 {
          assert [a[0]] + (rest[0] + Cut(b)[0]) == ([a[0]] + rest[0]) + Cut(b)[0];
        }
      }
    }
  }

  lemma CutAtQuote(rest: string)
    ensures Cut(['"'] + rest) == [[]] + Cut(rest)
  {
    assert (['"'] + rest)[1..] == rest;
  }

  lemma CutQuoted(inner: string, rest: string)
    ensures Cut(Quoted(inner) + rest) == [[]] + (Cut(inner) + Cut(rest))
  {
    assert Quoted(inner) + rest == ['"'] + (inner + (['"'] + rest));
    CutAtQuote(inner + (['"'] + rest));
    CutAtQuote(rest);
    CutConcat(inner, ['"'] + rest);
    GlueAtQuote(Cut(inner), Cut(rest));
  }

  lemma {:induction false} WordThenQuote(word: string, text: string)
    requires '"' !in word
    ensures word + ['"'] <= text <==> |Cut(text)| >= 2 && Cut(text)[0] == word
  {
    if text == [] {
    } else if word == [] {
      assert word + ['"'] <= text <==> text[0] == '"';
    } else if text[0] == '"' {
      assert (word + ['"'])[0] == word[0];
    } else {
      WordThenQuote(word[1..], text[1..]);
      assert word + ['"'] == [word[0]] + (word[1..] + ['"']);
      assert text == [text[0]] + text[1..];
      assert word == [word[0]] + word[1..];
    }
  }

  lemma ContainsStep(text: string, word: string)
    requires text != []
    ensures Contains(text, word) <==> word <= text || Contains(text[1..], word)
  {
    assert text[0..] == text;
    forall i | 0 < i <= |text| ensures text[i..] == text[1..][i - 1..] {}
    if i :| 0 <= i <= |text[1..]| && word <= text[1..][i..] {
      assert text[i + 1..] == text[1..][i..];
    }
  }

  /** A quoted word occurs exactly when the word is a whole piece between two quotes. */
  lemma {:induction false} ContainsIsPiece(text: string, word: string)
    requires '"' !in word
    ensures Contains(text, Quoted(word)) <==> exists i | 0 < i < |Cut(text)| - 1 :: Cut(text)[i] == word
  {
    if text != [] {
      var rest := text[1..];
      ContainsIsPiece(rest, word);
      ContainsStep(text, Quoted(word));
      WordThenQuote(word, rest);
      assert Quoted(word) == ['"'] + (word + ['"']);
      assert Quoted(word) <= text <==> text[0] == '"' && word + ['"'] <= rest;
      if text[0] == '"' {
        assert forall i | 0 <= i < |Cut(rest)| :: Cut(text)[i + 1] == Cut(rest)[i];
        assert forall i | 0 < i < |Cut(text)| :: Cut(text)[i] == Cut(rest)[i - 1];
      } else {
        assert forall i | 0 < i < |Cut(text)| :: Cut(text)[i] == Cut(rest)[i];
      }
    }
  }

  // ---- The pieces of an escaped string ----

  lemma CutEscape(text: string)
    requires text != []
    ensures var rest, head := Cut(Escape(text[1..])), EscapeChar(text[0]);
      Cut(Escape(text)) == if text[0] == '"' then [['\\']] + rest else [head + rest[0]] + rest[1..]
  {
    var head, rest := EscapeChar(text[0]), Cut(Escape(text[1..]));
    CutConcat(head, Escape(text[1..]));
    if text[0] == '"' {
      assert head == ['\\'] + (['"'] + []);
      CutConcat(['\\'], ['"'] + []);
      CutAtQuote([]);
      CutPlain(['\\']);
      GlueAtQuote([['\\']], [[]]);
      assert [['\\'], []][1..] == [[]];
      assert [] + rest[0] == rest[0];
    } else {
      CutPlain(head);
    }
  }

  lemma {:induction false} FirstPiece(text: string)
    ensures if Plain(text) then Cut(Escape(text)) == [text] else '\\' in Cut(Escape(text))[0]
  {
    if text != [] {
      var rest := text[1..];
      FirstPiece(rest);
      CutEscape(text);
      assert text == [text[0]] + rest;
      if text[0] != '"' {
        assert Cut(Escape(text))[0] == EscapeChar(text[0]) + Cut(Escape(rest))[0];
      }
    }
  }

  lemma EndsWithStep(text: string, suffix: string)
    requires text != []
    ensures EndsWith(text, suffix) <==> text == suffix || EndsWith(text[1..], suffix)
  {
    if |text| == |suffix| {
      assert text[0..] == text;
    } else if |text| > |suffix| {
      assert text[|text| - |suffix|..] == text[1..][|text[1..]| - |suffix|..];
    }
  }

  lemma {:induction false} LaterPieces(text: string, word: string)
    requires Plain(word)
    ensures word in Cut(Escape(text))[1..] <==> EndsWith(text, ['"'] + word)
  {
    if text != [] {
      var rest := text[1..];
      var pieces := Cut(Escape(rest));
      LaterPieces(rest, word);
      CutEscape(text);
      FirstPiece(rest);
      EndsWithStep(text, ['"'] + word);
      assert text == [text[0]] + rest;
      if text[0] == '"' {
        assert Cut(Escape(text))[1..] == pieces;
        assert pieces == [pieces[0]] + pieces[1..];
        assert text == ['"'] + word <==> rest == word;
      } else {
        assert Cut(Escape(text))[1..] == pieces[1..];
        assert text[0] != (['"'] + word)[0];
      }
    }
  }

  lemma QuotedPieces(text: string, word: string)
    requires Plain(word)
    ensures word in Cut(Escape(text)) <==> EndsIn(text, word)
  {
    FirstPiece(text);
    LaterPieces(text, word);
    var pieces := Cut(Escape(text));
    assert pieces == [pieces[0]] + pieces[1..];
  }

  // ---- The whole text ----

  predicate Separating(raw: string, word: string) {
    raw != word && '"' !in raw
  }

  lemma GlueOne(raw: string, cuts: seq<string>)
    ensures Glue([raw], [[]] + cuts) == [raw] + cuts
  {
    var b: seq<string> := [[]] + cuts;
    assert b[1..] == cuts && raw + b[0] == raw;
  }

  lemma CutItem(raw: string, inner: string, rest: string)
    requires '"' !in raw
    ensures Cut(raw + (Quoted(inner) + rest)) == [raw] + (Cut(inner) + Cut(rest))
  {
    CutPlain(raw);
    CutQuoted(inner, rest);
    CutConcat(raw, Quoted(inner) + rest);
    GlueOne(raw, Cut(inner) + Cut(rest));
  }

  /** The pieces of a rendered object: the word is among them, strictly inside, exactly if
      some item ends in it. */
  predicate Tells(pieces: seq<string>, raw: string, items: seq<Item>, word: string) {
    && pieces != [] && pieces[0] == raw && pieces[|pieces| - 1] != word
    && (word in pieces <==> AnyEndsIn(items, word))
  }

  lemma TellsMore(raw: string, inner: seq<string>, pieces: seq<string>, items: seq<Item>, word: string)
    requires items != [] && raw != word && Tells(pieces, items[0].raw, items[1..], word)
    requires word in inner <==> EndsIn(items[0].text, word)
    ensures Tells([raw] + (inner + pieces), raw, items, word)
  {
    assert items == [items[0]] + items[1..];
  }

  lemma {:induction false} RenderPieces(raw: string, items: seq<Item>, word: string)
    requires Plain(word) && Separating(raw, word) && forall item <- items :: Separating(item.raw, word)
    ensures Tells(Cut(raw + Render(items)), raw, items, word)
    decreases |items|
  {
    if items == [] {
      CutPlain(raw);
      assert raw + Render(items) == raw;
    } else {
      var inner, rest := Escape(items[0].text), items[0].raw + Render(items[1..]);
      RenderPieces(items[0].raw, items[1..], word);
      QuotedPieces(items[0].text, word);
      CutItem(raw, inner, rest);
      TellsMore(raw, Cut(inner), Cut(rest), items, word);
    }
  }

  predicate AnyEndsIn(items: seq<Item>, word: string) {
    exists item <- items :: EndsIn(item.text, word)
  }

  lemma AnyAppend(a: seq<Item>, b: seq<Item>, word: string)
    ensures AnyEndsIn(a + b, word) <==> AnyEndsIn(a, word) || AnyEndsIn(b, word)
  {
    assert forall item <- a :: item in a + b;
    assert forall item <- b :: item in a + b;
  }

  predicate AnyPair(pairs: seq<(string, string)>, word: string) {
    exists p <- pairs :: EndsIn(p.0, word) || EndsIn(p.1, word)
  }

  lemma {:induction false} HeaderItemsAreHeaders(pairs: seq<(string, string)>, word: string)
    requires |word| > 2
    ensures forall item <- HeaderItems(pairs) :: Separating(item.raw, word)
    ensures AnyEndsIn(HeaderItems(pairs), word) <==> AnyPair(pairs, word)
  {
    if pairs != [] {
      var rest := HeaderItems(pairs[1..]);
      var first := [Item(pairs[0].0, ":"), Item(pairs[0].1, if |pairs| == 1 then "}," else ",")];
      HeaderItemsAreHeaders(pairs[1..], word);
      assert pairs == [pairs[0]] + pairs[1..];
      AnyAppend(first, rest, word);
      assert first[0] in first && first[1] in first;
    }
  }

  /** A text that misses one of the word's characters cannot end in the word. */
  lemma Missing(text: string, word: string, c: char)
    requires c in word && c !in text
    ensures !EndsIn(text, word)
  {
    var suffix := ['"'] + word;
    assert c in suffix;
    if |suffix| <= |text| {
      var tail := text[|text| - |suffix|..];
      assert forall x <- tail :: x in text;
      assert c !in tail;
    }
  }

  /** A hexadecimal hash never misleads the script. */
  lemma HexIsUnmarked(hash: string)
    requires forall c <- hash :: c in HEX
    ensures !Marked(hash)
  {
    assert IN_FLIGHT[2] == '_';
    Missing(hash, IN_FLIGHT, '_');
  }

  /** What the proof needs to know of the word IN_FLIGHT. */
  predicate Searchable(word: string) {
    && |word| > 2 && Plain(word) && '"' !in word && ':' !in word && ',' !in word && '{' !in word && '}' !in word
    && 'F' in word && '_' in word && !EndsIn(COMPLETED, word)
  }

  lemma InFlightIsSearchable()
    ensures Searchable(IN_FLIGHT)
  {
    assert IN_FLIGHT[2] == '_' && IN_FLIGHT[3] == 'F';
    Missing(COMPLETED, IN_FLIGHT, 'F');
  }

  lemma TwoItems(a: Item, b: Item, word: string)
    ensures AnyEndsIn([a, b], word) <==> EndsIn(a.text, word) || EndsIn(b.text, word)
  {
    assert a == [a, b][0] && b == [a, b][1];
  }

  lemma OneItem(a: Item, word: string)
    ensures AnyEndsIn([a], word) <==> EndsIn(a.text, word)
  {
    assert a == [a][0];
  }

  lemma StateItemsEndIn(env: Envelope, word: string)
    requires Searchable(word)
    ensures AnyEndsIn(StateItems(env, word), word) <==> env.state.InFlight? || EndsIn(env.hash, word)
    ensures forall item <- StateItems(env, word) :: Separating(item.raw, word)
  {
    Missing("state", word, 'F');
    Missing("request_hash", word, 'F');
    var text := if env.state.InFlight? then word else COMPLETED;
    AnyAppend([Item("state", ":"), Item(text, ",")], [Item("request_hash", ":"), Item(env.hash, ",")], word);
    TwoItems(Item("state", ":"), Item(text, ","), word);
    TwoItems(Item("request_hash", ":"), Item(env.hash, ","), word);
  }

  lemma StatusItemsEndIn(env: Envelope, word: string)
    requires Searchable(word)
    ensures !AnyEndsIn(StatusItems(env), word)
    ensures forall item <- StatusItems(env) :: Separating(item.raw, word)
  {
    Missing("status_code", word, 'F');
    var raw := ":" + Decimal(env.status) + ",";
    OneItem(Item("status_code", raw), word);
    assert raw[0] == ':' && ':' in raw;
    assert '"' !in Decimal(env.status);
  }

  lemma HeadersItemsEndIn(pairs: seq<(string, string)>, word: string)
    requires Searchable(word)
    ensures AnyEndsIn(HeadersItems(pairs), word) <==> AnyPair(pairs, word)
    ensures forall item <- HeadersItems(pairs) :: Separating(item.raw, word)
  {
    Missing("headers", word, 'F');
    HeaderItemsAreHeaders(pairs, word);
    AnyAppend([Item("headers", ":{")], HeaderItems(pairs), word);
    OneItem(Item("headers", ":{"), word);
  }

  lemma BodyItemsEndIn(env: Envelope, word: string)
    requires Searchable(word)
    ensures !AnyEndsIn(BodyItems(env), word)
    ensures forall item <- BodyItems(env) :: Separating(item.raw, word)
  {
    Missing("body", word, 'F');
    Missing(Base64(env.body), word, '_');
    TwoItems(Item("body", ":"), Item(Base64(env.body), ","), word);
  }

  lemma TimeItemsEndIn(created: string, expires: string, word: string)
    requires Searchable(word) && Timestamp(created) && Timestamp(expires)
    ensures !AnyEndsIn(TimeItems(created, expires), word)
    ensures forall item <- TimeItems(created, expires) :: Separating(item.raw, word)
  {
    Missing("created_at", word, 'F');
    Missing("expires_at", word, 'F');
    Missing(created, word, 'F');
    Missing(expires, word, 'F');
    AnyAppend([Item("created_at", ":"), Item(created, ",")], [Item("expires_at", ":"), Item(expires, "}")], word);
    TwoItems(Item("created_at", ":"), Item(created, ","), word);
    TwoItems(Item("expires_at", ":"), Item(expires, "}"), word);
  }

  /** An envelope's strings end in the word only in its state, its hash or its headers. */
  lemma ItemsEndIn(env: Envelope, pairs: seq<(string, string)>, created: string, expires: string, word: string)
    requires Searchable(word) && Timestamp(created) && Timestamp(expires)
    ensures AnyEndsIn(Items(env, pairs, created, expires, word), word) <==>
      env.state.InFlight? || EndsIn(env.hash, word) || AnyPair(pairs, word)
    ensures forall item <- Items(env, pairs, created, expires, word) :: Separating(item.raw, word)
  {
    var state, status, headers := StateItems(env, word), StatusItems(env), HeadersItems(pairs);
    StateItemsEndIn(env, word);
    StatusItemsEndIn(env, word);
    HeadersItemsEndIn(pairs, word);
    BodyItemsEndIn(env, word);
    TimeItemsEndIn(created, expires, word);
    AnyAppend(state + status + headers + BodyItems(env), TimeItems(created, expires), word);
    AnyAppend(state + status + headers, BodyItems(env), word);
    AnyAppend(state + status, headers, word);
    AnyAppend(state, status, word);
  }

  /** Searching a rendered object for a quoted word finds the items that end in it. */
  lemma FindsItems(raw: string, items: seq<Item>, word: string)
    requires Plain(word) && '"' !in word && Separating(raw, word) && forall item <- items :: Separating(item.raw, word)
    ensures Contains(raw + Render(items), Quoted(word)) <==> AnyEndsIn(items, word)
  {
    RenderPieces(raw, items, word);
    ContainsIsPiece(raw + Render(items), word);
    var pieces := Cut(raw + Render(items));
    if word in pieces {
      var i :| 0 <= i < |pieces| && pieces[i] == word;
      assert i != 0 && i != |pieces| - 1;
    }
  }

  lemma FindsWord(env: Envelope, pairs: seq<(string, string)>, created: string, expires: string, word: string)
    requires Searchable(word) && Lists(pairs, env.headers) && Timestamp(created) && Timestamp(expires)
    ensures Contains(SerializeWith(env, pairs, created, expires, word), Quoted(word)) <==>
      env.state.InFlight? || EndsIn(env.hash, word)
      || exists name <- env.headers :: EndsIn(name, word) || EndsIn(env.headers[name], word)
  {
    PairsAreHeaders(pairs, env.headers, word);
    ItemsEndIn(env, pairs, created, expires, word);
    assert '{' in ['{'];
    FindsItems(['{'], Items(env, pairs, created, expires, word), word);
  }

  /** The script finds its word exactly in reservations, and in completions that carry a
      marked hash, header name or header value. */
  lemma FindsMarks(env: Envelope, pairs: seq<(string, string)>, created: string, expires: string)
    requires Lists(pairs, env.headers) && Timestamp(created) && Timestamp(expires)
    ensures Contains(Serialize(env, pairs, created, expires), Quoted(IN_FLIGHT)) <==> ScriptFinds(env)
  {
    InFlightIsSearchable();
    FindsWord(env, pairs, created, expires, IN_FLIGHT);
  }

  lemma PairsAreHeaders(pairs: seq<(string, string)>, headers: map<string, string>, word: string)
    requires Lists(pairs, headers)
    ensures AnyPair(pairs, word) <==> exists name <- headers :: EndsIn(name, word) || EndsIn(headers[name], word)
  {
    if name :| name in headers && (EndsIn(name, word) || EndsIn(headers[name], word)) {
      assert (name, headers[name]) in pairs;
    }
  }

  /** So a stored response whose headers are unmarked survives the script, and its state is
      what the script takes it to be. */
  lemma BenignTextTellsState(env: Envelope, pairs: seq<(string, string)>, created: string, expires: string)
    requires Lists(pairs, env.headers) && Timestamp(created) && Timestamp(expires)
    requires forall c <- env.hash :: c in HEX
    requires forall name <- env.headers :: !Marked(name) && !Marked(env.headers[name])
    ensures Contains(Serialize(env, pairs, created, expires), Quoted(IN_FLIGHT)) <==> env.state.InFlight?
  {
    FindsMarks(env, pairs, created, expires);
    HexIsUnmarked(env.hash);
  }
}
