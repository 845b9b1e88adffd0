/** JSON text as a list of pieces: quoted words and the text between them. */
module JsonText {
  import opened Status
  import opened CText

  datatype Piece = Word(word: string) | Text(text: string)

  function Quoted(word: string): string { "\"" + (word + "\"") }

  function RenderPiece(p: Piece): string {
    match p
    case Word(w) => Quoted(w)
    case Text(t) => t
  }

  function Render(ps: seq<Piece>): string {
    if ps == [] then "" else RenderPiece(ps[0]) + Render(ps[1..])
  }

  lemma {:induction false} RenderAppends(a: seq<Piece>, b: seq<Piece>)
    ensures Render(a + b) == Render(a) + Render(b)
  {
    if a == [] {
      assert a + b == b;
    } else {
      assert (a + b)[1..] == a[1..] + b;
      RenderAppends(a[1..], b);
    }
  }

  lemma RenderFrom(ps: seq<Piece>, j: nat)
    requires j < |ps|
    ensures Render(ps[j..]) == RenderPiece(ps[j]) + Render(ps[j + 1..])
  {
    assert ps[j..][1..] == ps[j + 1..];
  }

  predicate Delimiter(c: char) { c == ':' || c == ',' || c == '}' || c == '\n' }

  predicate QuoteFree(s: string) { '"' !in s }

  ghost predicate TidyAt(ps: seq<Piece>, i: nat)
    requires i < |ps|
  {
    match ps[i]
    case Text(t) => QuoteFree(t)
    case Word(w) =>
      && QuoteFree(w)
      && i + 1 < |ps| && ps[i + 1].Text? && ps[i + 1].text != "" && Delimiter(ps[i + 1].text[0])
  }

  /** No stray quotes, and every word is followed by text that cannot be taken for the start of a word. */
  ghost predicate Tidy(ps: seq<Piece>) {
    forall i :: 0 <= i < |ps| ==> TidyAt(ps, i)
  }

  lemma TidyAppends(a: seq<Piece>, b: seq<Piece>)
    requires Tidy(a) && Tidy(b)
    ensures Tidy(a + b)
  {
    var ps := a + b;
    forall i | 0 <= i < |ps| ensures TidyAt(ps, i) {
      if i < |a| {
        assert TidyAt(a, i);
        assert i + 1 < |a| ==> ps[i + 1] == a[i + 1];
      } else {
        assert TidyAt(b, i - |a|);
        assert i + 1 < |ps| ==> ps[i + 1] == b[i + 1 - |a|];
      }
    }
  }

  lemma TidyTail(ps: seq<Piece>, j: nat)
    requires Tidy(ps) && j <= |ps|
    ensures Tidy(ps[j..])
  {
    forall i | 0 <= i < |ps| - j ensures TidyAt(ps[j..], i) {
      assert TidyAt(ps, i + j);
    }
  }

  // --- where a quoted word is found ------------------------------------------------------

  predicate KeyLike(k: string) { k != "" && QuoteFree(k) && !Delimiter(k[0]) }

  /** Words end at their closing quote: a quoted word that starts another one is the same word. */
  lemma WordsMatchWhole(w: string, rest: string, k: string)
    requires QuoteFree(w) && QuoteFree(k) && k + "\"" <= w + ("\"" + rest)
    ensures w == k
  {
    var text := w + ("\"" + rest);
    assert forall i :: 0 <= i < |w| ==> text[i] == w[i] != '"';
    assert forall i :: 0 <= i < |k| ==> text[i] == (k + "\"")[i] == k[i] != '"';
    assert text[|w|] == '"' && text[|k|] == (k + "\"")[|k|] == '"';
    assert |k| == |w|;
  }

  lemma WordMismatch(w: string, rest: string, k: string)
    requires QuoteFree(w) && QuoteFree(k) && w != k
    ensures !(Quoted(k) <= Quoted(w) + rest)
  {
    assert (Quoted(w) + rest)[1..] == w + ("\"" + rest);
    assert Quoted(k)[1..] == k + "\"";
    if k + "\"" <= w + ("\"" + rest) {
      WordsMatchWhole(w, rest, k);
    } else if Quoted(k) <= Quoted(w) + rest {
      PrefixTail(Quoted(k), Quoted(w) + rest);
    }
  }

  lemma PrefixTail(a: string, b: string)
    requires a != "" && a <= b
    ensures a[1..] <= b[1..]
  {
  }

  lemma SkipWord(w: string, rest: string, k: string)
    requires QuoteFree(w) && KeyLike(k) && w != k
    requires rest != "" && Delimiter(rest[0])
    ensures Strstr(Quoted(w) + rest, Quoted(k)) == Strstr(rest, Quoted(k))
  {
    WordMismatch(w, rest, k);
    var text := Quoted(w) + rest;
    assert text[1..] == w + ("\"" + rest);
    StrstrSkips(w, "\"" + rest, Quoted(k));
    assert Quoted(k)[1] == k[0] && ("\"" + rest)[1] == rest[0];
    assert ("\"" + rest)[1..] == rest;
  }

  /** strstr for a quoted key passes over pieces that are not this very word. */
  lemma {:induction false} SkipOtherPieces(ps: seq<Piece>, k: string, j: nat)
    requires Tidy(ps) && KeyLike(k)
    requires j <= |ps| && forall i :: 0 <= i < j ==> ps[i] != Word(k)
    ensures Strstr(Render(ps), Quoted(k)) == Strstr(Render(ps[j..]), Quoted(k))
    decreases j
  {
    if j == 0 {
      assert ps[0..] == ps;
    } else {
      var rest := Render(ps[1..]);
      TidyTail(ps, 1);
      SkipOtherPieces(ps[1..], k, j - 1);
      assert ps[1..][j - 1..] == ps[j..];
      assert TidyAt(ps, 0);
      match ps[0]
      case Text(t) =>
        StrstrSkips(t, rest, Quoted(k));
      case Word(w) =>
        RenderFrom(ps, 1);
        assert rest[0] == ps[1].text[0];
        SkipWord(w, rest, k);
    }
  }

  /** strstr for a quoted key finds the first piece that is this very word. */
  lemma FindWord(ps: seq<Piece>, k: string, j: nat)
    requires Tidy(ps) && KeyLike(k)
    requires j < |ps| && ps[j] == Word(k) && forall i :: 0 <= i < j ==> ps[i] != Word(k)
    ensures Strstr(Render(ps), Quoted(k)) == Some(Render(ps[j..]))
  {
    SkipOtherPieces(ps, k, j);
    RenderFrom(ps, j);
    assert Quoted(k) <= Quoted(k) + Render(ps[j + 1..]);
  }

  /** strchr passes over pieces that do not contain the character. */
  lemma {:induction false} SkipPieces(ps: seq<Piece>, c: char, j: nat)
    requires j <= |ps| && forall i :: 0 <= i < j ==> c !in RenderPiece(ps[i])
    ensures Strchr(Render(ps), c) == Strchr(Render(ps[j..]), c)
    decreases j
  {
    if j == 0 {
      assert ps[0..] == ps;
    } else {
      StrchrSkips(RenderPiece(ps[0]), Render(ps[1..]), c);
      SkipPieces(ps[1..], c, j - 1);
      assert ps[1..][j - 1..] == ps[j..];
    }
  }

  /** find_value_start after find_key: what follows the first colon from the key on. */
  function ValueOf(s: string, key: string): (r: Option<string>)
    ensures r.Some? ==> |r.value| <= |s|
  {
    match Strstr(s, Quoted(key))
    case None => None
    case Some(found) =>
      match Strchr(found, ':')
      case None => None
      case Some(colon) => Some(SkipSpace(colon[1..]))
  }

  /** Piece j is the first that is the key, piece m the first text with a colon from there on, and the colon leads it. */
  ghost predicate KeyThenColon(ps: seq<Piece>, k: string, j: nat, m: nat) {
    && Tidy(ps) && KeyLike(k)
    && j < m < |ps| && ps[j] == Word(k) && (forall i :: 0 <= i < j ==> ps[i] != Word(k))
    && (forall i :: j <= i < m ==> ':' !in RenderPiece(ps[i]))
    && ps[m].Text? && ps[m].text != "" && ps[m].text[0] == ':'
  }

  lemma ColonAfterKey(ps: seq<Piece>, k: string, j: nat, m: nat)
    requires KeyThenColon(ps, k, j, m)
    ensures Strstr(Render(ps), Quoted(k)) == Some(Render(ps[j..]))
    ensures Strchr(Render(ps[j..]), ':') == Some(Render(ps[m..]))
  {
    FindWord(ps, k, j);
    var from := ps[j..];
    forall i | 0 <= i < m - j ensures ':' !in RenderPiece(from[i]) {
      assert from[i] == ps[i + j];
    }
    SkipPieces(from, ':', m - j);
    assert from[m - j..] == ps[m..];
    RenderFrom(ps, m);
  }

  lemma AfterColon(ps: seq<Piece>, m: nat, value: string, rest: string)
    requires m < |ps| && ps[m] == Text(": " + value) && Render(ps[m + 1..]) == rest
    requires value + rest != "" && !IsSpace((value + rest)[0])
    ensures Render(ps[m..]) != "" && SkipSpace(Render(ps[m..])[1..]) == value + rest
  {
    RenderFrom(ps, m);
    var after := value + rest;
    assert Render(ps[m..]) == ":" + (" " + after);
    assert (":" + (" " + after))[1..] == " " + after;
    SkipSpaceStops(after);
  }

  /** Then the value of the key starts behind that colon. */
  lemma ValueAt(ps: seq<Piece>, k: string, j: nat, m: nat, value: string, rest: string)
    requires m < |ps| && KeyThenColon(ps, k, j, m)
    requires ps[m] == Text(": " + value) && Render(ps[m + 1..]) == rest
    requires value + rest != "" && !IsSpace((value + rest)[0])
    ensures ValueOf(Render(ps), k) == Some(value + rest)
  {
    hide Render, Strstr, Strchr, SkipSpace, KeyThenColon;
    ColonAfterKey(ps, k, j, m);
    AfterColon(ps, m, value, rest);
  }

  /** parse_quoted_value: the text up to the next quote, if it fits the caller's buffer. */
  function QuotedValue(s: string, key: string, size: nat): Option<string> {
    match ValueOf(s, key)
    case None => None
    case Some(value) =>
      if value == "" || value[0] != '"' then None else
      match Strchr(value[1..], '"')
      case None => None
      case Some(end) =>
        var length := |value| - 1 - |end|;
        if length >= size then None else Some(value[1..][..length])
  }

  lemma QuotedText(w: string, rest: string)
    requires QuoteFree(w)
    ensures var value := Quoted(w) + rest;
            && value != "" && value[0] == '"' && Strchr(value[1..], '"') == Some("\"" + rest)
            && |value| - 1 - |"\"" + rest| == |w| && value[1..][..|w|] == w
  {
    var value := Quoted(w) + rest;
    assert value[1..] == w + ("\"" + rest);
    StrchrAt(w, "\"" + rest, '"');
  }

  lemma WordIsQuoteFree(ps: seq<Piece>, k: string, j: nat, m: nat, w: string)
    requires m + 1 < |ps| && KeyThenColon(ps, k, j, m) && ps[m + 1] == Word(w)
    ensures QuoteFree(w)
  {
    assert TidyAt(ps, m + 1);
  }

  lemma QuotedValueAt(ps: seq<Piece>, k: string, j: nat, m: nat, w: string, size: nat)
    requires m + 1 < |ps| && KeyThenColon(ps, k, j, m)
    requires ps[m] == Text(": ") && ps[m + 1] == Word(w)
    ensures QuotedValue(Render(ps), k, size) == if |w| < size then Some(w) else None
  {
    hide Render, Strchr, ValueOf, Quoted, KeyThenColon;
    var rest := Render(ps[m + 2..]);
    RenderFrom(ps, m + 1);
    assert QuoteFree(w) by { WordIsQuoteFree(ps, k, j, m, w); }
    QuotedText(w, rest);
    var value := Quoted(w) + rest;
    assert "" + value == value && ": " + "" == ": ";
    ValueAt(ps, k, j, m, "", value);
  }

  // --- pieces and brackets -------------------------------------------------------------------

  ghost predicate Lacks(ps: seq<Piece>, c: char) {
    forall i :: 0 <= i < |ps| ==> c !in RenderPiece(ps[i])
  }

  lemma {:induction false} LackingPieces(ps: seq<Piece>, c: char)
    requires Lacks(ps, c)
    ensures c !in Render(ps)
  {
    if ps == [] {
    } else {
      LackingPieces(ps[1..], c);
    }
  }

  lemma {:induction false} SuffixIsShorter(ps: seq<Piece>, j: nat)
    requires j <= |ps|
    ensures |Render(ps[j..])| <= |Render(ps)|
    decreases j
  {
    if j == 0 {
      assert ps[0..] == ps;
    } else {
      SuffixIsShorter(ps[1..], j - 1);
      assert ps[1..][j - 1..] == ps[j..];
    }
  }
}
