/** The application-name rule, written once in Go and once in C#. */
module ApplicationName {
  import opened Common
  import opened Regex

  const MIN_LENGTH := 3
  const MAX_LENGTH := 40

  /** `^[a-z]([a-z0-9]|-[a-z0-9])*$` */
  const GO_STEP := Either(One(LowerOrDigit), Then(One(Hyphen), One(LowerOrDigit)))
  const GO_PATTERN := Then(Start, Then(One(Lower), Then(Star(GO_STEP), End)))

  /** `^[a-z](?:[a-z0-9]|-(?=[a-z0-9]))*[a-z0-9]$` */
  const NET_STEP := Either(One(LowerOrDigit), Then(One(Hyphen), Ahead(One(LowerOrDigit))))
  const NET_PATTERN := Then(Start, Then(One(Lower), Then(Star(NET_STEP), Then(One(LowerOrDigit), End))))

  // ---- The rule in plain words ----

  /** Lowercase letters, digits and hyphens; a letter first, a letter or digit last, no
      two hyphens in a row. */
  predicate Shaped(s: string) {
    && s != [] && In(s[0], Lower) && In(s[|s| - 1], LowerOrDigit)
    && (forall c <- s :: In(c, LowerOrDigit) || c == '-')
    && (forall i | 0 <= i < |s| - 1 :: !(s[i] == '-' && s[i + 1] == '-'))
  }

  predicate Valid(s: string) {
    MIN_LENGTH <= |s| <= MAX_LENGTH && Shaped(s)
  }

  // ---- Go ----

  function Utf8Width(c: char): nat {
    var n := c as int;
    if n < 0x80 then 1 else if n < 0x800 then 2 else if n < 0x10000 then 3 else 4
  }

  /** The length of a Go string, in bytes. */
  function Utf8Length(s: string): nat {
    if s == [] then 0 else Utf8Width(s[0]) + Utf8Length(s[1..])
  }

  ghost predicate GoAccepts(value: string) {
    MIN_LENGTH <= Utf8Length(value) <= MAX_LENGTH && IsMatch(Go, GO_PATTERN, value)
  }

  // ---- C# ----

  datatype ParseResult = Parsed(value: string) | NameRequired | BadLength | BadPattern

  /** The length of a .NET string, in UTF-16 units. */
  function Utf16Length(s: string): nat {
    if s == [] then 0 else (if s[0] as int < 0x10000 then 1 else 2) + Utf16Length(s[1..])
  }

  predicate IsWhiteSpace(c: char) {
    var n := c as int;
    || 0x09 <= n <= 0x0D || n == 0x20 || n == 0x85 || n == 0xA0 || n == 0x1680 || 0x2000 <= n <= 0x200A
    || n == 0x2028 || n == 0x2029 || n == 0x202F || n == 0x205F || n == 0x3000
  }

  function TrimStart(s: string): string {
    if s != [] && IsWhiteSpace(s[0]) then TrimStart(s[1..]) else s
  }

  function TrimEnd(s: string): string {
    if s != [] && IsWhiteSpace(s[|s| - 1]) then TrimEnd(s[..|s| - 1]) else s
  }

  function Trim(s: string): string {
    TrimEnd(TrimStart(s))
  }

  ghost function Parse(raw: Option<string>): ParseResult {
    if raw.None? || Trim(raw.value) == [] then NameRequired
    else
      var trimmed := Trim(raw.value);
      if !(MIN_LENGTH <= Utf16Length(trimmed) <= MAX_LENGTH) then BadLength
      else if !IsMatch(Net, NET_PATTERN, trimmed) then BadPattern
      else Parsed(trimmed)
  }

  // ---- The loops of the two patterns ----

  /** Every hyphen of the stretch is followed, inside the bound, by a letter or digit. */
  predicate Hyphenated(s: string, i: nat, j: nat, bound: nat)
    requires i <= j <= |s| && bound <= |s|
  {
    forall k | i <= k < j :: In(s[k], LowerOrDigit) || (s[k] == '-' && k + 1 < bound && In(s[k + 1], LowerOrDigit))
  }

  lemma {:induction false} GoLoop(s: string, i: nat, j: nat)
    requires i <= j <= |s|
    ensures Match(Go, Star(GO_STEP), s, i, j) <==> Hyphenated(s, i, j, j)
    decreases j - i
  {
    if i < j {
      forall k | i < k <= j ensures Match(Go, GO_STEP, s, i, k) <==> GoStepAt(s, i, k) {
        GoStepMatches(s, i, k);
      }
      forall k | i < k <= j ensures Match(Go, Star(GO_STEP), s, k, j) <==> Hyphenated(s, k, j, j) {
        GoLoop(s, k, j);
      }
      if Hyphenated(s, i, j, j) {
        var k := if In(s[i], LowerOrDigit) then i + 1 else i + 2;
        assert GoStepAt(s, i, k) && Hyphenated(s, k, j, j);
        assert Match(Go, GO_STEP, s, i, k) && Match(Go, Star(GO_STEP), s, k, j);
      }
    }
  }

  predicate GoStepAt(s: string, i: nat, k: nat)
    requires i < k <= |s|
  {
    (k == i + 1 && In(s[i], LowerOrDigit)) || (k == i + 2 && s[i] == '-' && In(s[i + 1], LowerOrDigit))
  }

  lemma GoStepMatches(s: string, i: nat, k: nat)
    requires i < k <= |s|
    ensures Match(Go, GO_STEP, s, i, k) <==> GoStepAt(s, i, k)
  {
    var pair := Then(One(Hyphen), One(LowerOrDigit));
    if k == i + 2 && s[i] == '-' && In(s[i + 1], LowerOrDigit) {
      ThenAt(Go, One(Hyphen), One(LowerOrDigit), s, i, i + 1, k);
    }
    if Match(Go, pair, s, i, k) {
      var m := ThenSplit(Go, One(Hyphen), One(LowerOrDigit), s, i, k);
    }
    assert Match(Go, GO_STEP, s, i, k) <==> Match(Go, One(LowerOrDigit), s, i, k) || Match(Go, pair, s, i, k);
  }

  lemma NetStepMatches(s: string, i: nat, k: nat)
    requires i < k <= |s|
    ensures Match(Net, NET_STEP, s, i, k) <==> k == i + 1 && Hyphenated(s, i, k, |s|)
  {
    var pair := Then(One(Hyphen), Ahead(One(LowerOrDigit)));
    if k == i + 1 && s[i] == '-' && k < |s| && In(s[k], LowerOrDigit) {
      assert Match(Net, One(LowerOrDigit), s, k, k + 1);
      ThenAt(Net, One(Hyphen), Ahead(One(LowerOrDigit)), s, i, k, k);
    }
    if Match(Net, pair, s, i, k) {
      var m := ThenSplit(Net, One(Hyphen), Ahead(One(LowerOrDigit)), s, i, k);
      assert Match(Net, Ahead(One(LowerOrDigit)), s, m, k);
    }
    assert Match(Net, NET_STEP, s, i, k) <==> Match(Net, One(LowerOrDigit), s, i, k) || Match(Net, pair, s, i, k);
  }

  lemma {:induction false} NetLoop(s: string, i: nat, j: nat)
    requires i <= j <= |s|
    ensures Match(Net, Star(NET_STEP), s, i, j) <==> Hyphenated(s, i, j, |s|)
    decreases j - i
  {
    if i < j {
      forall k | i < k <= j ensures Match(Net, NET_STEP, s, i, k) <==> k == i + 1 && Hyphenated(s, i, k, |s|) {
        NetStepMatches(s, i, k);
      }
      NetLoop(s, i + 1, j);
      if Hyphenated(s, i, j, |s|) {
        assert Match(Net, NET_STEP, s, i, i + 1) && Match(Net, Star(NET_STEP), s, i + 1, j);
      }
    }
  }

  // ---- The whole patterns ----

  /** Without the length bound, the Go pattern is the plain rule. */
  lemma GoPattern(s: string)
    ensures IsMatch(Go, GO_PATTERN, s) <==> Shaped(s)
  {
    if Shaped(s) {
      forall k | 1 <= k < |s| && s[k] == '-' ensures k + 1 < |s| && In(s[k + 1], LowerOrDigit) {
        assert !(s[k] == '-' && s[k + 1] == '-') && s[k + 1] in s;
      }
      assert forall k | 1 <= k < |s| :: s[k] in s;
      GoLoop(s, 1, |s|);
      ThenAt(Go, Star(GO_STEP), End, s, 1, |s|, |s|);
      ThenAt(Go, One(Lower), Then(Star(GO_STEP), End), s, 0, 1, |s|);
      ThenAt(Go, Start, Then(One(Lower), Then(Star(GO_STEP), End)), s, 0, 0, |s|);
    }
    if i, j :| 0 <= i <= j <= |s| && Match(Go, GO_PATTERN, s, i, j) {
      var a := ThenSplit(Go, Start, Then(One(Lower), Then(Star(GO_STEP), End)), s, i, j);
      var b := ThenSplit(Go, One(Lower), Then(Star(GO_STEP), End), s, a, j);
      var c := ThenSplit(Go, Star(GO_STEP), End, s, b, j);
      GoLoop(s, 1, j);
    }
  }

  /** A .NET `$` also matches before a final newline. */
  function Line(s: string): string {
    if s != [] && s[|s| - 1] == '\n' then s[..|s| - 1] else s
  }

  const NET_TAIL := Then(One(LowerOrDigit), End)

  lemma NetMatchSplits(s: string)
    requires IsMatch(Net, NET_PATTERN, s)
    ensures var n := |Line(s)|;
      n >= 2 && In(s[0], Lower) && In(s[n - 1], LowerOrDigit) && Hyphenated(s, 1, n - 1, |s|)
  {
    var i, j :| 0 <= i <= j <= |s| && Match(Net, NET_PATTERN, s, i, j);
    var a := ThenSplit(Net, Start, Then(One(Lower), Then(Star(NET_STEP), NET_TAIL)), s, i, j);
    var b := ThenSplit(Net, One(Lower), Then(Star(NET_STEP), NET_TAIL), s, a, j);
    var c := ThenSplit(Net, Star(NET_STEP), NET_TAIL, s, b, j);
    var e := ThenSplit(Net, One(LowerOrDigit), End, s, c, j);
    NetLoop(s, b, c);
  }

  lemma NetMatchJoins(s: string)
    requires |Line(s)| >= 2 && In(s[0], Lower) && In(s[|Line(s)| - 1], LowerOrDigit)
    requires Hyphenated(s, 1, |Line(s)| - 1, |s|)
    ensures IsMatch(Net, NET_PATTERN, s)
  {
    var n := |Line(s)|;
    NetLoop(s, 1, n - 1);
    ThenAt(Net, One(LowerOrDigit), End, s, n - 1, n, n);
    ThenAt(Net, Star(NET_STEP), NET_TAIL, s, 1, n - 1, n);
    ThenAt(Net, One(Lower), Then(Star(NET_STEP), NET_TAIL), s, 0, 1, n);
    ThenAt(Net, Start, Then(One(Lower), Then(Star(NET_STEP), NET_TAIL)), s, 0, 0, n);
  }

  lemma HyphenatedIsShaped(s: string)
    requires |Line(s)| >= 2
    ensures var line, n := Line(s), |Line(s)|;
      In(s[0], Lower) && In(s[n - 1], LowerOrDigit) && Hyphenated(s, 1, n - 1, |s|) <==> Shaped(line)
  {
    var line, n := Line(s), |Line(s)|;
    assert forall k | 0 <= k < n :: line[k] == s[k] && line[k] in line;
    if Shaped(line) {
      forall k | 1 <= k < n - 1 && s[k] == '-' ensures In(s[k + 1], LowerOrDigit) {
        assert !(line[k] == '-' && line[k + 1] == '-');
      }
    }
  }

  /** The .NET pattern is the plain rule on at least two characters, up to a final newline. */
  lemma NetPattern(s: string)
    ensures IsMatch(Net, NET_PATTERN, s) <==> |Line(s)| >= 2 && Shaped(Line(s))
  {
    if IsMatch(Net, NET_PATTERN, s) {
      NetMatchSplits(s);
    }
    if |Line(s)| >= 2 {
      HyphenatedIsShaped(s);
      if Shaped(Line(s)) {
        NetMatchJoins(s);
      }
    }
  }

  /** On strings without a newline the two patterns differ exactly on single letters. */
  lemma PatternsDifferOnSingleLetters(s: string)
    requires '\n' !in s
    ensures IsMatch(Go, GO_PATTERN, s) != IsMatch(Net, NET_PATTERN, s) <==> |s| == 1 && In(s[0], Lower)
  {
    GoPattern(s);
    NetPattern(s);
  }

  // ---- Lengths and trimming ----

  lemma {:induction false} AsciiLengths(s: string)
    requires forall c <- s :: c as int < 0x80
    ensures Utf8Length(s) == Utf16Length(s) == |s|
  {
    if s != [] {
      assert s[0] in s && forall c <- s[1..] :: c in s;
      AsciiLengths(s[1..]);
    }
  }

  lemma {:induction false} TrimEndEnds(s: string)
    ensures TrimEnd(s) != [] ==> !IsWhiteSpace(TrimEnd(s)[|TrimEnd(s)| - 1])
    ensures s == [] || !IsWhiteSpace(s[|s| - 1]) ==> TrimEnd(s) == s
  {
    if s != [] && IsWhiteSpace(s[|s| - 1]) {
      TrimEndEnds(s[..|s| - 1]);
    }
  }

  lemma ShapedIsAscii(s: string)
    requires Shaped(s)
    ensures (forall c <- s :: c as int < 0x80) && '\n' !in s && Trim(s) == s
  {
    TrimEndEnds(s);
  }

  lemma ParseIsRule(raw: Option<string>, value: string)
    ensures Parse(raw) == Parsed(value) <==> raw.Some? && value == Trim(raw.value) && Valid(value)
  {
    if raw.Some? && value == Trim(raw.value) {
      TrimEndEnds(TrimStart(raw.value));
      NetPattern(value);
      assert value != [] ==> Line(value) == value;
      if Shaped(value) {
        ShapedIsAscii(value);
        AsciiLengths(value);
      }
    }
  }

  /** And otherwise it says why not: nothing but white space, a length out of bounds, or another
      character or place than the rule allows. */
  lemma ParseFails(raw: Option<string>)
    ensures Parse(raw) == NameRequired <==> raw.None? || forall c <- raw.value :: IsWhiteSpace(c)
    ensures Parse(raw) == BadLength <==>
      raw.Some? && Trim(raw.value) != [] && !(3 <= Utf16Length(Trim(raw.value)) <= 40)
    ensures Parse(raw) == BadPattern <==>
      raw.Some? && 3 <= Utf16Length(Trim(raw.value)) <= 40 && !Shaped(Trim(raw.value))
  {
    if raw.Some? {
      var a, b := TrimIsStripped(raw.value);
      BlankTrimsAway(raw.value);
      NetPattern(Trim(raw.value));
      Utf16OfShort(Trim(raw.value));
      assert Trim(raw.value) != [] ==> Line(Trim(raw.value)) == Trim(raw.value);
    }
  }

  lemma Utf16OfShort(s: string)
    ensures Utf16Length(s) >= 3 ==> |s| >= 2
  {
    if |s| == 1 {
      assert s[1..] == [];
    }
  }

  /** Of the ASCII characters, these are white space. */
  lemma AsciiSpaces(c: char)
    requires c as int < 0x80
    ensures IsWhiteSpace(c) <==> c == ' ' || c == '\t' || c == '\n' || c == '\r' || c as int == 0x0B || c as int == 0x0C
  {
  }

  lemma {:induction false} TrimStartStrips(s: string) returns (a: nat)
    ensures a <= |s| && TrimStart(s) == s[a..] && forall k | 0 <= k < a :: IsWhiteSpace(s[k])
    ensures TrimStart(s) != [] ==> !IsWhiteSpace(TrimStart(s)[0])
  {
    if s != [] && IsWhiteSpace(s[0]) {
      var b := TrimStartStrips(s[1..]);
      a := b + 1;
      assert s[1..][b..] == s[a..];
      forall k | 0 <= k < a ensures IsWhiteSpace(s[k]) {
        assert k > 0 ==> s[k] == s[1..][k - 1];
      }
    } else {
      a := 0;
      assert s[0..] == s;
    }
  }

  lemma {:induction false} TrimEndStrips(s: string) returns (b: nat)
    ensures b <= |s| && TrimEnd(s) == s[..b] && forall k | b <= k < |s| :: IsWhiteSpace(s[k])
  {
    if s != [] && IsWhiteSpace(s[|s| - 1]) {
      b := TrimEndStrips(s[..|s| - 1]);
      assert s[..|s| - 1][..b] == s[..b];
      forall k | b <= k < |s| ensures IsWhiteSpace(s[k]) {
        assert k < |s| - 1 ==> s[k] == s[..|s| - 1][k];
      }
    } else {
      b := |s|;
      assert s[..|s|] == s;
    }
  }

  /** Trimming takes the white space off both ends and nothing else. */
  lemma TrimIsStripped(s: string) returns (a: nat, b: nat)
    ensures a <= b <= |s| && Trim(s) == s[a..b]
    ensures (forall k | 0 <= k < a || b <= k < |s| :: IsWhiteSpace(s[k]))
    ensures Trim(s) != [] ==> !IsWhiteSpace(Trim(s)[0]) && !IsWhiteSpace(Trim(s)[|Trim(s)| - 1])
  {
    a := TrimStartStrips(s);
    var n := TrimEndStrips(s[a..]);
    b := a + n;
    assert s[a..][..n] == s[a..b];
    forall k | 0 <= k < a || b <= k < |s| ensures IsWhiteSpace(s[k]) {
      assert k >= b ==> s[k] == s[a..][k - a];
    }
    TrimEndEnds(s[a..]);
  }

  lemma BlankTrimsAway(s: string)
    ensures Trim(s) == [] <==> forall c <- s :: IsWhiteSpace(c)
  {
    var a, b := TrimIsStripped(s);
    if Trim(s) != [] {
      assert Trim(s)[0] == s[a] && s[a] in s;
    } else {
      forall c <- s ensures IsWhiteSpace(c) {
        var k :| 0 <= k < |s| && s[k] == c;
      }
    }
  }

  /** Go accepts a name exactly when C# parses it to itself, everything C# parses is accepted
      by Go, and both are the plain rule. */
  lemma RulesAgree(raw: string)
    ensures GoAccepts(raw) <==> Valid(raw)
    ensures Valid(raw) <==> 3 <= |raw| <= 40 && Shaped(raw)
    ensures GoAccepts(raw) <==> Parse(Some(raw)) == Parsed(raw)
    ensures Parse(Some(raw)).Parsed? ==> GoAccepts(Parse(Some(raw)).value)
  {
    GoPattern(raw);
    GoPattern(Trim(raw));
    ParseIsRule(Some(raw), raw);
    ParseIsRule(Some(raw), Trim(raw));
    if Shaped(raw) {
      ShapedIsAscii(raw);
      AsciiLengths(raw);
    }
    if Shaped(Trim(raw)) {
      ShapedIsAscii(Trim(raw));
      AsciiLengths(Trim(raw));
    }
  }
}
