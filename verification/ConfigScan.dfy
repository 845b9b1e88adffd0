/** The two string scanners of the configuration loader: one looks a key up, the other rules unknown keys out. */
module ConfigScan {
  import opened Status
  import opened CText
  import opened JsonText

  const PATTERN_BUFFER := 64

  predicate KeyAllowed(key: string) {
    key in {"temperature_limit", "oil_pressure_limit", "persistence_ticks", "physics", "target_rpm",
            "target_temperature", "target_oil_pressure", "rpm_ramp_rate", "temp_ramp_rate", "oil_decay_rate",
            "combined_warning_persistence_ticks"}
  }

  predicate IsJsonSpace(c: char) { c == ' ' || c == '\t' || c == '\n' || c == '\r' }

  function SkipJsonSpace(s: string): (r: string)
    ensures |r| <= |s|
  {
    if s != "" && IsJsonSpace(s[0]) then SkipJsonSpace(s[1..]) else s
  }

  /** The text starts, after white space, with the colon that makes the string before it a key. */
  predicate ColonFollows(s: string) {
    var after := SkipJsonSpace(s);
    after != "" && after[0] == ':'
  }

  /** The quoted key, cut off where the pattern buffer ends. */
  function Pattern(key: string): (p: string)
    ensures p != "" && |p| < PATTERN_BUFFER
  {
    if |key| + 2 < PATTERN_BUFFER then Quoted(key) else Quoted(key)[..PATTERN_BUFFER - 1]
  }

  /** find_json_key, outside of any string and inside of one. */
  function FindOutside(s: string, key: string): Option<string>
    decreases |s|
  {
    if s == "" then None
    else if s[0] != '"' then FindOutside(s[1..], key)
    else if Pattern(key) <= s && ColonFollows(s[|Pattern(key)|..]) then Some(SkipJsonSpace(s[|Pattern(key)|..]))
    else FindInside(s[1..], key)
  }

  function FindInside(s: string, key: string): Option<string>
    decreases |s|
  {
    if s == "" then None
    else if s[0] == '\\' && |s| > 1 then FindInside(s[2..], key)
    else if s[0] == '"' then FindOutside(s[1..], key)
    else FindInside(s[1..], key)
  }

  /** validate_only_known_keys: quotes are paired up as they come. */
  predicate OnlyKnownKeys(s: string)
    decreases |s|
  {
    match Strchr(s, '"')
    case None => true
    case Some(open) =>
      match Strchr(open[1..], '"')
      case None => false
      case Some(close) =>
        var length := |open| - 1 - |close|;
        && length < PATTERN_BUFFER
        && !(!KeyAllowed(open[1..][..length]) && ColonFollows(close[1..]))
        && OnlyKnownKeys(close[1..])
  }

  // --- the scanners as they run ------------------------------------------------------------

  method SkipBlanks(start: string) returns (after: string)
    ensures after == SkipJsonSpace(start)
  {
    after := start;
    while after != "" && IsJsonSpace(after[0])
      invariant SkipJsonSpace(after) == SkipJsonSpace(start)
      decreases |after|
    {
      after := after[1..];
    }
  }

  method FindJsonKey(buffer: string, key: string) returns (colon: Option<string>)
    ensures colon == FindOutside(buffer, key)
  {
    hide Quoted, Pattern, ColonFollows, SkipJsonSpace;
    var pattern := Pattern(key);
    var inString := false;
    var cursor := buffer;
    while cursor != ""
      invariant FindOutside(buffer, key) == if inString then FindInside(cursor, key) else FindOutside(cursor, key)
      decreases |cursor|
    {
      if inString {
        if cursor[0] == '\\' && |cursor| > 1 {
          cursor := cursor[1..];
        } else if cursor[0] == '"' {
          inString := false;
        }
        cursor := cursor[1..];
        continue;
      }
      if cursor[0] == '"' {
        if pattern <= cursor {
          var after := SkipBlanks(cursor[|pattern|..]);
          ColonFollowsIs(cursor[|pattern|..]);
          if after != "" && after[0] == ':' {
            return Some(after);
          }
        }
        inString := true;
      }
      cursor := cursor[1..];
    }
    return None;
  }

  lemma ColonFollowsIs(s: string)
    ensures ColonFollows(s) <==> SkipJsonSpace(s) != "" && SkipJsonSpace(s)[0] == ':'
  {
  }

  method ValidateOnlyKnownKeys(buffer: string) returns (valid: bool)
    ensures valid <==> OnlyKnownKeys(buffer)
  {
    hide KeyAllowed, ColonFollows, SkipJsonSpace;
    var cursor := Strchr(buffer, '"');
    ghost var from := buffer;
    while cursor.Some?
      invariant OnlyKnownKeys(buffer) == OnlyKnownKeys(from) && cursor == Strchr(from, '"')
      decreases if cursor.Some? then |cursor.value| else 0
    {
      var open := cursor.value;
      var endQuote := Strchr(open[1..], '"');
      if endQuote.None? {
        return false;
      }
      var close := endQuote.value;
      var length := |open| - 1 - |close|;
      if length >= PATTERN_BUFFER {
        return false;
      }
      if !KeyAllowed(open[1..][..length]) {
        var after := SkipBlanks(close[1..]);
        ColonFollowsIs(close[1..]);
        if after != "" && after[0] == ':' {
          return false;
        }
      }
      from := close[1..];
      cursor := Strchr(close[1..], '"');
    }
    return true;
  }

  // --- JSON strings, as section 7 of RFC 8259 delimits them ------------------------------------

  /** What may stand between the quotes of a string: characters other than quote and backslash, and escaped characters. */
  predicate StringBody(b: string)
    decreases |b|
  {
    b == "" || (if b[0] == '\\' then |b| > 1 && StringBody(b[2..]) else b[0] != '"' && StringBody(b[1..]))
  }

  /** A string with the text before it. */
  datatype Token = Token(gap: string, body: string)

  /** What is left after the last complete string: no quote, or the beginning of a string that never ends. */
  ghost predicate Leftover(s: string) {
    QuoteFree(s) || exists gap, start :: QuoteFree(gap) && s == gap + ("\"" + start) && Endless(start)
  }

  /** No way to end the string that starts here. */
  ghost predicate Endless(s: string) {
    forall b, rest :: StringBody(b) ==> s != b + ("\"" + rest)
  }

  function TextOf(tokens: seq<Token>, tail: string): string {
    if tokens == [] then tail
    else tokens[0].gap + (Quoted(tokens[0].body) + TextOf(tokens[1..], tail))
  }

  /** The text is these strings, with these gaps between them. */
  ghost predicate Lexes(s: string, tokens: seq<Token>, tail: string) {
    && s == TextOf(tokens, tail) && Leftover(tail)
    && forall i :: 0 <= i < |tokens| ==> QuoteFree(tokens[i].gap) && StringBody(tokens[i].body)
  }

  /** Token i is the key: it reads like it, and a colon follows. */
  predicate KeyAt(tokens: seq<Token>, tail: string, i: nat, key: string)
    requires i < |tokens|
  {
    tokens[i].body == key && ColonFollows(TextOf(tokens[i + 1..], tail))
  }

  /** A key as it would be written between quotes, short enough for the pattern buffer. */
  predicate Searchable(key: string) {
    |key| <= 61 && StringBody(key)
  }

  lemma {:induction false} OutsideSkips(x: string, rest: string, key: string)
    requires QuoteFree(x)
    ensures FindOutside(x + rest, key) == FindOutside(rest, key)
  {
    hide Pattern, ColonFollows;
    if x == "" {
      assert x + rest == rest;
    } else {
      assert (x + rest)[0] == x[0] && (x + rest)[1..] == x[1..] + rest;
      OutsideSkips(x[1..], rest, key);
    }
  }

  lemma {:induction false} InsideSkips(b: string, rest: string, key: string)
    requires StringBody(b)
    ensures FindInside(b + ("\"" + rest), key) == FindOutside(rest, key)
    decreases |b|
  {
    hide Pattern, ColonFollows, FindOutside;
    var s := b + ("\"" + rest);
    if b == "" {
      assert s == "\"" + rest && s[1..] == rest;
    } else if b[0] == '\\' {
      assert s[0] == b[0] && s[2..] == b[2..] + ("\"" + rest);
      InsideSkips(b[2..], rest, key);
    } else {
      assert s[0] == b[0] && s[1..] == b[1..] + ("\"" + rest);
      InsideSkips(b[1..], rest, key);
    }
  }

  /** A string has only one end. */
  lemma {:induction false} BodyEndsOnce(a: string, b: string, x: string, y: string)
    requires StringBody(a) && StringBody(b) && a + ("\"" + x) == b + ("\"" + y)
    ensures a == b && x == y
    decreases |a|
  {
    var s, t := a + ("\"" + x), b + ("\"" + y);
    assert s[0] == (if a == "" then '"' else a[0]) && t[0] == (if b == "" then '"' else b[0]);
    if a == "" {
      assert s[1..] == x && t[1..] == y;
    } else {
      var n := if a[0] == '\\' then 2 else 1;
      assert s[n..] == a[n..] + ("\"" + x) && t[n..] == b[n..] + ("\"" + y);
      BodyEndsOnce(a[n..], b[n..], x, y);
      assert a[..n] == s[..n] == t[..n] == b[..n];
      assert a == a[..n] + a[n..] && b == b[..n] + b[n..];
    }
  }

  lemma OpenQuoted(key: string, start: string) returns (other: string)
    requires Quoted(key) <= "\"" + start
    ensures start == key + ("\"" + other)
  {
    var s := "\"" + start;
    other := s[|Quoted(key)|..];
    assert s == Quoted(key) + other;
    assert s[1..] == start && (Quoted(key) + other)[1..] == key + ("\"" + other);
  }

  /** A key in quotes starts the text exactly when the string that starts there is the key. */
  lemma PatternMatchesIff(body: string, rest: string, key: string)
    requires StringBody(body) && Searchable(key)
    ensures Quoted(key) <= Quoted(body) + rest <==> body == key
    ensures (Quoted(body) + rest)[|Quoted(body)|..] == rest
  {
    hide StringBody;
    assert Quoted(body) + rest == "\"" + (body + ("\"" + rest));
    if Quoted(key) <= Quoted(body) + rest {
      var other := OpenQuoted(key, body + ("\"" + rest));
      BodyEndsOnce(key, body, other, rest);
    }
  }

  /** The lookup at a string: either this is the key, or the search goes on behind it. */
  lemma AtString(gap: string, body: string, rest: string, key: string)
    requires QuoteFree(gap) && StringBody(body) && Searchable(key)
    ensures FindOutside(gap + (Quoted(body) + rest), key) ==
            if body == key && ColonFollows(rest) then Some(SkipJsonSpace(rest)) else FindOutside(rest, key)
  {
    hide Pattern, ColonFollows, FindInside, SkipJsonSpace;
    var s := Quoted(body) + rest;
    OutsideSkips(gap, s, key);
    PatternMatchesIff(body, rest, key);
    assert s[0] == '"' && s[1..] == body + ("\"" + rest);
    InsideSkips(body, rest, key);
    PatternOfKey(key);
  }

  lemma PatternOfKey(key: string)
    requires Searchable(key)
    ensures Pattern(key) == Quoted(key)
  {
  }

  lemma EndlessHasNoQuoteFirst(start: string)
    requires Endless(start) && start != ""
    ensures start[0] != '"'
  {
    assert StringBody("");
    assert start != "" + ("\"" + start[1..]);
    assert start == [start[0]] + start[1..];
  }

  lemma {:induction false} NothingInEndless(start: string, key: string)
    requires Endless(start)
    ensures FindInside(start, key) == None
    decreases |start|
  {
    hide FindOutside, Endless;
    if start == "" {
    } else {
      EndlessHasNoQuoteFirst(start);
      if start[0] == '\\' && |start| > 1 {
        TailIsEndless(start, 2);
        NothingInEndless(start[2..], key);
      } else if |start| > 1 {
        TailIsEndless(start, 1);
        NothingInEndless(start[1..], key);
      }
    }
  }

  lemma TailIsEndless(start: string, n: nat)
    requires Endless(start) && 1 <= n <= |start|
    requires if start[0] == '\\' then n == 2 else n == 1 && start[0] != '"'
    ensures Endless(start[n..])
  {
    forall b, rest | StringBody(b) ensures start[n..] != b + ("\"" + rest) {
      var longer := start[..n] + b;
      assert longer[n..] == b && StringBody(longer);
      assert start == start[..n] + start[n..];
      assert start[..n] + (b + ("\"" + rest)) == longer + ("\"" + rest);
    }
  }

  lemma NothingInLeftover(tail: string, key: string)
    requires Leftover(tail) && Searchable(key)
    ensures FindOutside(tail, key) == None
  {
    hide FindInside, ColonFollows, Pattern, Searchable, Quoted, StringBody;
    if QuoteFree(tail) {
      assert tail + "" == tail;
      OutsideSkips(tail, "", key);
    } else {
      var gap, start :| QuoteFree(gap) && tail == gap + ("\"" + start) && Endless(start);
      OutsideSkips(gap, "\"" + start, key);
      NothingInEndless(start, key);
      NoMatchInEndless(start, key);
      PatternOfKey(key);
      assert ("\"" + start)[1..] == start;
    }
  }

  lemma NoMatchInEndless(start: string, key: string)
    requires Endless(start) && Searchable(key)
    ensures !(Quoted(key) <= "\"" + start)
  {
    hide StringBody, Quoted;
    if Quoted(key) <= "\"" + start {
      var other := OpenQuoted(key, start);
    }
  }

  /**
   * find_json_key on a text with these strings: it returns the colon behind the first string that reads like the key
   * and has a colon after it, and nothing when there is none. Here n is that string, or the number of strings.
   */
  lemma {:induction false} LookupFindsFirstKey(tokens: seq<Token>, tail: string, key: string, n: nat)
    requires Lexes(TextOf(tokens, tail), tokens, tail) && Searchable(key)
    requires n <= |tokens| && (forall i :: 0 <= i < n ==> !KeyAt(tokens, tail, i, key))
    requires n < |tokens| ==> KeyAt(tokens, tail, n, key)
    ensures FindOutside(TextOf(tokens, tail), key) ==
            if n < |tokens| then Some(SkipJsonSpace(TextOf(tokens[n + 1..], tail))) else None
    decreases |tokens|
  {
    hide FindOutside, ColonFollows, SkipJsonSpace, Leftover, StringBody, Searchable, QuoteFree;
    if tokens == [] {
      NothingInLeftover(tail, key);
    } else {
      var rest := TextOf(tokens[1..], tail);
      AtString(tokens[0].gap, tokens[0].body, rest, key);
      if n > 0 {
        assert !KeyAt(tokens, tail, 0, key);
        forall i | 0 <= i < |tokens| - 1
          ensures KeyAt(tokens[1..], tail, i, key) <==> KeyAt(tokens, tail, i + 1, key)
        {
          assert tokens[1..][i + 1..] == tokens[i + 2..];
        }
        LookupFindsFirstKey(tokens[1..], tail, key, n - 1);
        assert n < |tokens| ==> tokens[1..][n..] == tokens[n + 1..];
      }
    }
  }

  lemma ClosedString(start: string) returns (b: string, rest: string)
    requires !Endless(start)
    ensures StringBody(b) && start == b + ("\"" + rest)
  {
    b, rest :| StringBody(b) && start == b + ("\"" + rest);
  }

  lemma LexesOneMore(gap: string, b: string, rest: string, tokens: seq<Token>, tail: string)
    requires QuoteFree(gap) && StringBody(b) && Lexes(rest, tokens, tail)
    ensures Lexes(gap + (Quoted(b) + rest), [Token(gap, b)] + tokens, tail)
  {
    hide StringBody, Quoted, Leftover;
    assert ([Token(gap, b)] + tokens)[1..] == tokens;
  }

  /** Every text is a row of strings with gaps between them and a leftover. */
  lemma {:induction false} EveryTextLexes(s: string) returns (tokens: seq<Token>, tail: string)
    ensures Lexes(s, tokens, tail)
    decreases |s|
  {
    hide StringBody, Quoted, Endless;
    StrchrSplits(s, '"');
    match Strchr(s, '"')
    case None =>
      tokens, tail := [], s;
    case Some(open) =>
      var gap, start := s[..|s| - |open|], open[1..];
      assert open == "\"" + start;
      if Endless(start) {
        tokens, tail := [], s;
        assert QuoteFree(gap) && s == gap + ("\"" + start);
        assert Leftover(s);
      } else {
        hide Lexes;
        var b, rest := ClosedString(start);
        assert |rest| < |s|;
        tokens, tail := EveryTextLexes(rest);
        LexesOneMore(gap, b, rest, tokens, tail);
        QuotedThen(b, rest);
        tokens := [Token(gap, b)] + tokens;
      }
  }

  lemma QuotedThen(b: string, rest: string)
    ensures "\"" + (b + ("\"" + rest)) == Quoted(b) + rest
  {
  }

  // --- the strings the validation pairs up ---------------------------------------------------------

  /** What validate_only_known_keys takes for the strings of a text: quotes paired up as they come. */
  function PairedStrings(s: string): seq<string>
    decreases |s|
  {
    match Strchr(s, '"')
    case None => []
    case Some(open) =>
      match Strchr(open[1..], '"')
      case None => []
      case Some(close) => [open[1..][..|open| - 1 - |close|]] + PairedStrings(close[1..])
  }

  function Bodies(tokens: seq<Token>): seq<string> {
    if tokens == [] then [] else [tokens[0].body] + Bodies(tokens[1..])
  }

  /** No string of the text has a quote in it, which in a string can only be an escaped one. */
  predicate NoEscapedQuotes(tokens: seq<Token>) {
    forall i :: 0 <= i < |tokens| ==> QuoteFree(tokens[i].body)
  }

  /** The first pair of quotes, when the first string has no quote in it. */
  lemma FirstPair(gap: string, body: string, rest: string)
    requires QuoteFree(gap) && QuoteFree(body)
    ensures var open := Strchr(gap + (Quoted(body) + rest), '"');
            && open.Some?
            && var close := Strchr(open.value[1..], '"');
               && close.Some? && close.value[1..] == rest
               && open.value[1..][..|open.value| - 1 - |close.value|] == body
  {
    QuotedThen(body, rest);
    var open := "\"" + (body + ("\"" + rest));
    StrchrAt(gap, open, '"');
    assert open[1..] == body + ("\"" + rest);
    StrchrAt(body, "\"" + rest, '"');
    assert ("\"" + rest)[1..] == rest && open[1..][..|body|] == body;
  }

  /** When it has one, the first pair ends there, before the string does. */
  lemma FirstPairIsShort(gap: string, body: string, rest: string)
    requires QuoteFree(gap) && !QuoteFree(body)
    ensures var pairs := PairedStrings(gap + (Quoted(body) + rest)); pairs != [] && |pairs[0]| < |body|
  {
    hide PairedStrings;
    QuotedThen(body, rest);
    StrchrSplits(body, '"');
    var inner := Strchr(body, '"').value;
    var before := body[..|body| - |inner|];
    assert Quoted(body) + rest == Quoted(before) + (inner[1..] + ("\"" + rest)) by {
      assert inner == "\"" + inner[1..];
      assert body == before + ("\"" + inner[1..]);
    }
    FirstPair(gap, before, inner[1..] + ("\"" + rest));
    PairsStep(gap + (Quoted(body) + rest));
  }

  lemma PairsStep(s: string)
    requires var open := Strchr(s, '"'); open.Some? && Strchr(open.value[1..], '"').Some?
    ensures var open := Strchr(s, '"').value;
            var close := Strchr(open[1..], '"').value;
            PairedStrings(s) == [open[1..][..|open| - 1 - |close|]] + PairedStrings(close[1..])
  {
  }

  /** At most one quote: the one that opens a string that never ends, or none. */
  predicate AtMostOneQuote(s: string) {
    forall i, j :: 0 <= i < j < |s| ==> s[i] != '"' || s[j] != '"'
  }

  lemma NoPairIff(s: string)
    ensures PairedStrings(s) == [] <==> AtMostOneQuote(s)
  {
    StrchrSplits(s, '"');
    if Strchr(s, '"').None? {
      NoPairs(s);
    } else {
      var open := Strchr(s, '"').value;
      var at := |s| - |open|;
      assert s[at] == open[0] == '"' && s[at + 1..] == open[1..];
      StrchrSplits(open[1..], '"');
      if Strchr(open[1..], '"').Some? {
        PairsStep(s);
        var close := Strchr(open[1..], '"').value;
        var end := |s| - |close|;
        assert s[end..] == close && s[end] == '"';
      } else {
        forall i, j | 0 <= i < j < |s| ensures s[i] != '"' || s[j] != '"' {
          assert i < at ==> s[i] == s[..at][i];
          assert j > at ==> s[j] == open[1..][j - at - 1];
        }
      }
    }
  }

  /**
   * The validation sees the strings of a text as they are exactly when none of them has an escaped quote, and the rest
   * of the text after them, in which a string may begin and not end, has at most one quote.
   */
  lemma {:induction false} PairsAreStringsIff(tokens: seq<Token>, tail: string)
    requires Lexes(TextOf(tokens, tail), tokens, tail)
    ensures PairedStrings(TextOf(tokens, tail)) == Bodies(tokens) <==> NoEscapedQuotes(tokens) && AtMostOneQuote(tail)
    decreases |tokens|
  {
    hide PairedStrings, StringBody, Quoted, Leftover, AtMostOneQuote;
    if tokens == [] {
      NoPairIff(tail);
    } else {
      var first, rest := tokens[0], TextOf(tokens[1..], tail);
      PairsAreStringsIff(tokens[1..], tail);
      NoEscapedQuotesFirst(tokens);
      if QuoteFree(first.body) {
        FirstPair(first.gap, first.body, rest);
        PairsStep(first.gap + (Quoted(first.body) + rest));
        assert PairedStrings(TextOf(tokens, tail)) == [first.body] + PairedStrings(rest);
        assert PairedStrings(TextOf(tokens, tail))[1..] == PairedStrings(rest) && Bodies(tokens)[1..] == Bodies(tokens[1..]);
      } else {
        FirstPairIsShort(first.gap, first.body, rest);
        assert Bodies(tokens)[0] == first.body;
      }
    }
  }

  /** The text of a quote, a backslash and a quote: it has no complete string, and the validation sees one. */
  lemma UnfinishedStringIsPairedUp()
    ensures Lexes("\"\\\"", [], "\"\\\"") && NoEscapedQuotes([]) && PairedStrings("\"\\\"") != Bodies([])
  {
    var s, start := "\"\\\"", "\\\"";
    forall b, rest | StringBody(b) ensures start != b + ("\"" + rest) {
      var other := b + ("\"" + rest);
      assert other[0] == if b == "" then '"' else b[0];
      assert |b| == 1 && b[0] == '\\' ==> !StringBody(b);
    }
    assert Endless(start) && QuoteFree("") && s == "" + ("\"" + start);
    assert s[0] == s[2] == '"';
    NoPairIff(s);
  }

  lemma NoPairs(s: string)
    requires Strchr(s, '"') == None
    ensures PairedStrings(s) == []
  {
  }

  lemma NoEscapedQuotesFirst(tokens: seq<Token>)
    requires tokens != []
    ensures NoEscapedQuotes(tokens) <==> QuoteFree(tokens[0].body) && NoEscapedQuotes(tokens[1..])
  {
    assert tokens == [tokens[0]] + tokens[1..];
  }

  // --- the two scanners agree on text without escaped quotes ----------------------------------------

  /** One string, as the validation pairs it up. */
  lemma PairedUp(gap: string, body: string, rest: string)
    requires QuoteFree(gap) && QuoteFree(body)
    ensures OnlyKnownKeys(gap + (Quoted(body) + rest)) <==>
              |body| < 64 && !(!KeyAllowed(body) && ColonFollows(rest)) && OnlyKnownKeys(rest)
  {
    hide KeyAllowed, ColonFollows;
    FirstPair(gap, body, rest);
  }

  /** On accepted text without escaped quotes the lookup finds no key outside the allowed list. */
  lemma {:induction false} AcceptedTextHasKnownKeysOnly(tokens: seq<Token>, tail: string, key: string)
    requires Lexes(TextOf(tokens, tail), tokens, tail) && NoEscapedQuotes(tokens)
    requires OnlyKnownKeys(TextOf(tokens, tail))
    requires Searchable(key) && !KeyAllowed(key)
    ensures FindOutside(TextOf(tokens, tail), key) == None
    decreases |tokens|
  {
    hide FindOutside, OnlyKnownKeys, ColonFollows, SkipJsonSpace, Leftover, StringBody, Searchable, KeyAllowed, Quoted;
    if tokens == [] {
      NothingInLeftover(tail, key);
    } else {
      var rest := TextOf(tokens[1..], tail);
      AtString(tokens[0].gap, tokens[0].body, rest, key);
      PairedUp(tokens[0].gap, tokens[0].body, rest);
      AcceptedTextHasKnownKeysOnly(tokens[1..], tail, key);
    }
  }

  predicate ShortStrings(tokens: seq<Token>) {
    forall i :: 0 <= i < |tokens| ==> |tokens[i].body| <= 61
  }

  /** A text the validation refuses has an unknown key that the lookup finds. */
  lemma {:induction false} RefusedTextHasUnknownKey(tokens: seq<Token>, tail: string) returns (key: string)
    requires Lexes(TextOf(tokens, tail), tokens, tail) && QuoteFree(tail)
    requires NoEscapedQuotes(tokens) && ShortStrings(tokens) && !OnlyKnownKeys(TextOf(tokens, tail))
    ensures Searchable(key) && !KeyAllowed(key) && FindOutside(TextOf(tokens, tail), key).Some?
    decreases |tokens|
  {
    hide FindOutside, OnlyKnownKeys, ColonFollows, SkipJsonSpace, Leftover, StringBody, KeyAllowed, Quoted;
    if tokens == [] {
      StrchrSplits(tail, '"');
      QuoteFreeIsAccepted(tail);
      assert false;
    } else {
      var first, rest := tokens[0], TextOf(tokens[1..], tail);
      PairedUp(first.gap, first.body, rest);
      if !KeyAllowed(first.body) && ColonFollows(rest) {
        key := first.body;
      } else {
        key := RefusedTextHasUnknownKey(tokens[1..], tail);
      }
      AtString(first.gap, first.body, rest, key);
    }
  }

  lemma QuoteFreeIsAccepted(s: string)
    requires Strchr(s, '"') == None
    ensures OnlyKnownKeys(s)
  {
  }

  /**
   * The two scanners agree: a text whose strings are closed, not overlong and free of escaped quotes is accepted
   * exactly when no unknown key can be looked up in it.
   */
  lemma ScannersAgree(tokens: seq<Token>, tail: string)
    requires Lexes(TextOf(tokens, tail), tokens, tail) && QuoteFree(tail)
    requires NoEscapedQuotes(tokens) && ShortStrings(tokens)
    ensures OnlyKnownKeys(TextOf(tokens, tail)) <==>
              forall key :: Searchable(key) && !KeyAllowed(key) ==> FindOutside(TextOf(tokens, tail), key) == None
  {
    hide OnlyKnownKeys, FindOutside, Searchable, KeyAllowed, Lexes;
    var s := TextOf(tokens, tail);
    if OnlyKnownKeys(s) {
      forall key | Searchable(key) && !KeyAllowed(key) ensures FindOutside(s, key) == None {
        AcceptedTextHasKnownKeysOnly(tokens, tail, key);
      }
    } else {
      var key := RefusedTextHasUnknownKey(tokens, tail);
    }
  }

  /** A text can be taken apart into strings in one way only, so the conditions above are about the text itself. */
  lemma {:induction false} TextLexesOnce(a: seq<Token>, x: string, b: seq<Token>, y: string)
    requires TextOf(a, x) == TextOf(b, y)
    requires Lexes(TextOf(a, x), a, x) && Lexes(TextOf(b, y), b, y)
    ensures a == b && x == y
    decreases |a|
  {
    hide Leftover, StringBody, Quoted;
    if a == [] && b == [] {
    } else if a == [] {
      NotLeftover(b[0].gap, b[0].body, TextOf(b[1..], y));
    } else if b == [] {
      NotLeftover(a[0].gap, a[0].body, TextOf(a[1..], x));
    } else {
      var s, t := TextOf(a[1..], x), TextOf(b[1..], y);
      QuotedThen(a[0].body, s);
      QuotedThen(b[0].body, t);
      SameFirstQuote(a[0].gap, a[0].body + ("\"" + s), b[0].gap, b[0].body + ("\"" + t));
      BodyEndsOnce(a[0].body, b[0].body, s, t);
      TextLexesOnce(a[1..], x, b[1..], y);
      assert a == [Token(a[0].gap, a[0].body)] + a[1..] && b == [Token(b[0].gap, b[0].body)] + b[1..];
    }
  }

  lemma SameFirstQuote(gap: string, start: string, gap': string, start': string)
    requires QuoteFree(gap) && QuoteFree(gap') && gap + ("\"" + start) == gap' + ("\"" + start')
    ensures gap == gap' && start == start'
  {
    StrchrAt(gap, "\"" + start, '"');
    StrchrAt(gap', "\"" + start', '"');
    assert ("\"" + start)[1..] == start && ("\"" + start')[1..] == start';
    var s := gap + ("\"" + start);
    assert gap == s[..|s| - 1 - |start|] && gap' == s[..|s| - 1 - |start'|];
  }

  lemma NotLeftover(gap: string, body: string, rest: string)
    requires QuoteFree(gap) && StringBody(body)
    ensures !Leftover(gap + (Quoted(body) + rest))
  {
    hide StringBody;
    QuotedThen(body, rest);
    var s := gap + ("\"" + (body + ("\"" + rest)));
    assert s[|gap|] == '"';
    forall g, start | QuoteFree(g) && s == g + ("\"" + start) ensures !Endless(start) {
      SameFirstQuote(gap, body + ("\"" + rest), g, start);
    }
  }

  /** A text with escaped quotes: two strings that consist of one, and the unknown key x between them. */
  const ESCAPED := Quoted("\\\"") + (" " + (Quoted("x") + (":" + Quoted("\\\""))))

  /** With an escaped quote the scanners part ways: the text is accepted, and the lookup finds the unknown key in it. */
  lemma EscapedQuoteDividesScanners()
    ensures OnlyKnownKeys(ESCAPED) && FindOutside(ESCAPED, "x").Some? && Searchable("x") && !KeyAllowed("x")
  {
    hide FindOutside, OnlyKnownKeys, KeyAllowed, ColonFollows;
    var value := ":" + Quoted("\\\"");
    AtString("", "\\\"", " " + (Quoted("x") + value), "x");
    assert "" + ESCAPED == ESCAPED;
    AtString(" ", "x", value, "x");
    ColonFirst(Quoted("\\\""));
    XIsUnknown();

    var third, second := "\\" + (Quoted("") + ""), "x" + (Quoted(":") + ("\\" + (Quoted("") + "")));
    assert ESCAPED == "" + (Quoted("\\") + ("" + (Quoted(" ") + second)));
    PairedUp("", "\\", "" + (Quoted(" ") + second));
    PairedUp("", " ", second);
    PairedUp("x", ":", third);
    PairedUp("\\", "", "");
    NoColon("" + (Quoted(" ") + second));
    NoColon(second);
    NoColon(third);
    NothingIsKnown();
  }

  lemma ColonFirst(rest: string)
    ensures ColonFollows(":" + rest)
  {
  }

  lemma NoColon(s: string)
    requires s != "" && !IsJsonSpace(s[0]) && s[0] != ':'
    ensures !ColonFollows(s)
  {
  }

  /** A colon follows exactly when there is one after nothing but blanks, tabs and line ends. */
  lemma {:induction false} ColonFollowsIff(s: string)
    ensures ColonFollows(s) <==>
              exists n :: 0 <= n < |s| && s[n] == ':' && forall i :: 0 <= i < n ==> s[i] in " \t\n\r"
  {
    if s == "" {
    } else if IsJsonSpace(s[0]) {
      ColonFollowsIff(s[1..]);
      if ColonFollows(s) {
        var n :| 0 <= n < |s[1..]| && s[1..][n] == ':' && forall i :: 0 <= i < n ==> s[1..][i] in " \t\n\r";
        assert s[n + 1] == ':' && forall i :: 0 <= i < n + 1 ==> s[i] == if i == 0 then s[0] else s[1..][i - 1];
      }
      if n :| 0 <= n < |s| && s[n] == ':' && forall i :: 0 <= i < n ==> s[i] in " \t\n\r" {
        assert s[1..][n - 1] == ':' && forall i :: 0 <= i < n - 1 ==> s[1..][i] == s[i + 1];
      }
    } else if s[0] == ':' {
      assert s[0] == ':';
    } else {
      assert forall n :: 0 <= n < |s| && s[n] == ':' ==> n > 0 && s[0] !in " \t\n\r";
    }
  }

  /** A text whose last quote opens a string that is never closed is refused. */
  lemma UnclosedIsRefused(gap: string, start: string)
    requires QuoteFree(gap) && QuoteFree(start)
    ensures !OnlyKnownKeys(gap + ("\"" + start))
  {
    StrchrAt(gap, "\"" + start, '"');
    assert ("\"" + start)[1..] == start;
    StrchrSplits(start, '"');
  }

  /** A text with one key is accepted exactly when the key is one of the eleven that the two loaders look up. */
  lemma OneKeyIsAcceptedIff(key: string, value: string)
    requires QuoteFree(key) && QuoteFree(value) && |key| < 64
    ensures OnlyKnownKeys("{" + (Quoted(key) + (":" + value))) <==>
              || key == "temperature_limit" || key == "oil_pressure_limit" || key == "persistence_ticks"
              || key == "combined_warning_persistence_ticks" || key == "physics"
              || key == "target_rpm" || key == "target_temperature" || key == "target_oil_pressure"
              || key == "rpm_ramp_rate" || key == "temp_ramp_rate" || key == "oil_decay_rate"
  {
    PairedUp("{", key, ":" + value);
    ColonFirst(value);
    StrchrSplits(":" + value, '"');
    QuoteFreeIsAccepted(":" + value);
  }

  /** A key inside an inner object: the lookup does not mind the braces around it. */
  const NESTED := "{" + (Quoted("a") + (": {" + (Quoted("x") + ": 1}}")))

  lemma NestedKeyIsFound()
    ensures FindOutside(NESTED, "x") == Some(": 1}}")
  {
    hide FindOutside;
    AtString("{", "a", ": {" + (Quoted("x") + ": 1}}"), "x");
    AtString(": {", "x", ": 1}}", "x");
  }

  lemma NothingIsKnown()
    ensures OnlyKnownKeys("") && !ColonFollows("")
  {
  }

  lemma XIsUnknown()
    ensures Searchable("x") && !KeyAllowed("x")
  {
  }
}
