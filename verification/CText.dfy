/** The C library's view of text: a pointer into a string is the rest of the string from there on. */
module CText {
  import opened Status

  /** isspace in the C locale. */
  predicate IsSpace(c: char) {
    c == ' ' || c == '\t' || c == '\n' || c == '\r' || c == '\U{000B}' || c == '\U{000C}'
  }

  function SkipSpace(s: string): (r: string)
    ensures |r| <= |s|
  {
    if s != "" && IsSpace(s[0]) then SkipSpace(s[1..]) else s
  }

  function Strchr(s: string, c: char): (r: Option<string>)
    ensures r.Some? ==> r.value != "" && |r.value| <= |s| && r.value[0] == c
  {
    if s == "" then None else if s[0] == c then Some(s) else Strchr(s[1..], c)
  }

  function Strstr(s: string, pattern: string): (r: Option<string>)
    ensures r.Some? ==> |r.value| <= |s| && pattern <= r.value
  {
    if pattern <= s then Some(s) else if s == "" then None else Strstr(s[1..], pattern)
  }

  lemma {:induction false} StrchrSkips(x: string, rest: string, c: char)
    requires c !in x
    ensures Strchr(x + rest, c) == Strchr(rest, c)
  {
    if x == "" {
      assert x + rest == rest;
    } else {
      assert (x + rest)[1..] == x[1..] + rest;
      StrchrSkips(x[1..], rest, c);
    }
  }

  /** What strchr passes over does not contain the character. */
  lemma {:induction false} StrchrSplits(s: string, c: char)
    ensures match Strchr(s, c)
            case None => c !in s
            case Some(r) => s == s[..|s| - |r|] + r && c !in s[..|s| - |r|]
  {
    if s != "" && s[0] != c {
      StrchrSplits(s[1..], c);
      var r := Strchr(s[1..], c);
      if r.Some? {
        assert s[..|s| - |r.value|] == [s[0]] + s[1..][..|s| - 1 - |r.value|];
      }
    }
  }

  lemma StrchrAt(x: string, y: string, c: char)
    requires c !in x && y != "" && y[0] == c
    ensures Strchr(x + y, c) == Some(y)
  {
    StrchrSkips(x, y, c);
  }

  lemma {:induction false} StrstrSkips(x: string, rest: string, pattern: string)
    requires pattern != "" && pattern[0] !in x
    ensures Strstr(x + rest, pattern) == Strstr(rest, pattern)
  {
    if x == "" {
      assert x + rest == rest;
    } else {
      assert (x + rest)[0] == x[0] && (x + rest)[1..] == x[1..] + rest;
      StrstrSkips(x[1..], rest, pattern);
    }
  }

  lemma SkipSpaceStops(s: string)
    requires s != "" && !IsSpace(s[0])
    ensures SkipSpace(s) == s && SkipSpace(" " + s) == s
  {
    assert (" " + s)[1..] == s;
  }

  // --- matching brackets -------------------------------------------------------------

  function Shift(c: char, open: char, close: char): int {
    if c == open then 1 else if c == close then -1 else 0
  }

  /** The bracket that closes the depth-th bracket still open. */
  function CloseFrom(s: string, depth: nat, open: char, close: char): (r: Option<string>)
    requires depth > 0
    ensures r.Some? ==> r.value != "" && |r.value| <= |s|
  {
    if s == "" then None else
    var next := depth + Shift(s[0], open, close);
    if next == 0 then Some(s) else CloseFrom(s[1..], next, open, close)
  }

  /** The depth after a text that starts at the given depth; None when it closes more than was open. */
  function Nest(s: string, depth: nat, open: char, close: char): (r: Option<nat>)
    requires depth > 0
    ensures r.Some? ==> r.value > 0
  {
    if s == "" then Some(depth) else
    var next := depth + Shift(s[0], open, close);
    if next == 0 then None else Nest(s[1..], next, open, close)
  }

  /** Every bracket the text opens it closes again, and it closes no other. */
  ghost predicate Balanced(s: string, open: char, close: char) {
    forall depth: nat :: depth > 0 ==> Nest(s, depth, open, close) == Some(depth)
  }

  lemma {:induction false} NestAppends(x: string, y: string, depth: nat, open: char, close: char)
    requires depth > 0
    ensures Nest(x + y, depth, open, close) ==
            match Nest(x, depth, open, close) case None => None case Some(d) => Nest(y, d, open, close)
  {
    if x == "" {
      assert x + y == y;
    } else {
      assert (x + y)[0] == x[0] && (x + y)[1..] == x[1..] + y;
      var next := depth + Shift(x[0], open, close);
      if next != 0 {
        NestAppends(x[1..], y, next, open, close);
      }
    }
  }

  lemma {:induction false} CloseFromSkips(x: string, rest: string, depth: nat, open: char, close: char)
    requires depth > 0 && Nest(x, depth, open, close).Some?
    ensures CloseFrom(x + rest, depth, open, close) ==
            CloseFrom(rest, Nest(x, depth, open, close).value, open, close)
  {
    if x == "" {
      assert x + rest == rest;
    } else {
      assert (x + rest)[0] == x[0] && (x + rest)[1..] == x[1..] + rest;
      CloseFromSkips(x[1..], rest, depth + Shift(x[0], open, close), open, close);
    }
  }

  lemma BalancedAppends(x: string, y: string, open: char, close: char)
    requires Balanced(x, open, close) && Balanced(y, open, close)
    ensures Balanced(x + y, open, close)
  {
    forall depth: nat | depth > 0 ensures Nest(x + y, depth, open, close) == Some(depth) {
      NestAppends(x, y, depth, open, close);
    }
  }

  lemma {:induction false} NestOfPlain(s: string, depth: nat, open: char, close: char)
    requires depth > 0 && open !in s && close !in s
    ensures Nest(s, depth, open, close) == Some(depth)
  {
    if s == "" {
    } else {
      NestOfPlain(s[1..], depth, open, close);
    }
  }

  lemma PlainIsBalanced(s: string, open: char, close: char)
    requires open !in s && close !in s
    ensures Balanced(s, open, close)
  {
    forall depth: nat | depth > 0 ensures Nest(s, depth, open, close) == Some(depth) {
      NestOfPlain(s, depth, open, close);
    }
  }

  lemma BracketedIsBalanced(body: string, open: char, close: char)
    requires open != close && Balanced(body, open, close)
    ensures Balanced([open] + (body + [close]), open, close)
  {
    forall depth: nat | depth > 0 ensures Nest([open] + (body + [close]), depth, open, close) == Some(depth) {
      NestAppends(body, [close], depth + 1, open, close);
      assert ([open] + (body + [close]))[1..] == body + [close];
    }
  }

  /** find_matching_brace and find_matching_bracket: the bracket that closes the one the text starts with. */
  function FindClose(s: string, open: char, close: char): (r: Option<string>)
    ensures r.Some? ==> r.value != "" && |r.value| < |s|
  {
    if s == "" || s[0] != open then None else CloseFrom(s[1..], 1, open, close)
  }

  /** One character before the rest of a text that is searched, or nested, to its end. */
  lemma CloseFromStep(c: char, before: string, rest: string, depth: nat, open: char, close: char)
    requires depth > 0 && depth + Shift(c, open, close) > 0
    ensures Nest([c] + before, depth, open, close) == Nest(before, depth + Shift(c, open, close), open, close)
    ensures CloseFrom([c] + rest, depth, open, close) == CloseFrom(rest, depth + Shift(c, open, close), open, close)
  {
    assert ([c] + before)[1..] == before && ([c] + rest)[1..] == rest;
  }

  /** Where the bracket found stands: before it, the depth never reaches zero and ends at one. */
  lemma {:induction false} CloseFromMeans(s: string, depth: nat, open: char, close: char) returns (before: string)
    requires depth > 0
    ensures match CloseFrom(s, depth, open, close)
            case None => Nest(s, depth, open, close).Some?
            case Some(r) => r[0] == close && s == before + r && Nest(before, depth, open, close) == Some(1)
    decreases |s|
  {
    if s == "" {
      before := "";
    } else {
      var next := depth + Shift(s[0], open, close);
      if next == 0 {
        before := "";
        assert "" + s == s;
      } else {
        var inner := CloseFromMeans(s[1..], next, open, close);
        before := [s[0]] + inner;
        CloseFromStep(s[0], inner, s[1..], depth, open, close);
        CloseFromStep(s[0], s[1..], s[1..], depth, open, close);
        assert s == [s[0]] + s[1..];
      }
    }
  }

  /**
   * The bracket found closes the first one: between them the depth is never back at zero, and it is at one just before.
   * None is found exactly when the text does not start with a bracket, or that one is never closed.
   */
  lemma FindCloseMeans(s: string, open: char, close: char) returns (between: string)
    requires open != close
    ensures match FindClose(s, open, close)
            case None => s == "" || s[0] != open || Nest(s[1..], 1, open, close).Some?
            case Some(r) => r[0] == close && s == [open] + (between + r) && Nest(between, 1, open, close) == Some(1)
  {
    between := "";
    if s != "" && s[0] == open {
      between := CloseFromMeans(s[1..], 1, open, close);
      assert s == [open] + s[1..];
    }
  }

  lemma FindCloseAfter(body: string, rest: string, open: char, close: char)
    requires open != close && Balanced(body, open, close)
    ensures FindClose([open] + (body + ([close] + rest)), open, close) == Some([close] + rest)
  {
    var s := [open] + (body + ([close] + rest));
    assert s[1..] == body + ([close] + rest);
    CloseFromSkips(body, [close] + rest, 1, open, close);
  }
}
