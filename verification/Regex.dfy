/** Regular expressions with anchors and lookahead, matched against a whole string in place. */
module Regex {

  datatype Class = Lower | LowerOrDigit | Hyphen

  predicate In(c: char, cls: Class) {
    match cls
    case Lower => 'a' <= c <= 'z'
    case LowerOrDigit => 'a' <= c <= 'z' || '0' <= c <= '9'
    case Hyphen => c == '-'
  }

  datatype Regex =
    | One(cls: Class)
    | Then(first: Regex, second: Regex)
    | Either(left: Regex, right: Regex)
    | Star(body: Regex)
    | Ahead(body: Regex)
    | Start
    | End

  /** Where `$` matches: only at the end in Go; in .NET also before a final newline. */
  datatype Dialect = Go | Net

  ghost predicate Match(d: Dialect, r: Regex, s: string, i: nat, j: nat)
    requires i <= j <= |s|
    decreases r, j - i
  {
    match r
    case One(cls) => j == i + 1 && In(s[i], cls)
    case Then(first, second) => exists k | i <= k <= j :: Match(d, first, s, i, k) && Match(d, second, s, k, j)
    case Either(left, right) => Match(d, left, s, i, j) || Match(d, right, s, i, j)
    case Star(body) => i == j || exists k | i < k <= j :: Match(d, body, s, i, k) && Match(d, r, s, k, j)
    case Ahead(body) => i == j && exists k | i <= k <= |s| :: Match(d, body, s, i, k)
    case Start => i == j == 0
    case End => i == j && (j == |s| || (d.Net? && j == |s| - 1 && s[j] == '\n'))
  }

  ghost predicate IsMatch(d: Dialect, r: Regex, s: string) {
    exists i, j | 0 <= i <= j <= |s| :: Match(d, r, s, i, j)
  }

  lemma ThenAt(d: Dialect, first: Regex, second: Regex, s: string, i: nat, k: nat, j: nat)
    requires i <= k <= j <= |s| && Match(d, first, s, i, k) && Match(d, second, s, k, j)
    ensures Match(d, Then(first, second), s, i, j)
  {
  }

  lemma ThenSplit(d: Dialect, first: Regex, second: Regex, s: string, i: nat, j: nat) returns (k: nat)
    requires i <= j <= |s| && Match(d, Then(first, second), s, i, j)
    ensures i <= k <= j && Match(d, first, s, i, k) && Match(d, second, s, k, j)
  {
    k :| i <= k <= j && Match(d, first, s, i, k) && Match(d, second, s, k, j);
  }
}
