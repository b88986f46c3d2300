// Notification templates: finding `{{name}}` in a text, substituting parameters in one pass,
// and escaping what is substituted. A char is a Unicode scalar, so lengths count a character
// outside the basic plane once, where the code's UTF-16 units count it twice.
module Templates {
  import opened Prelude

  const MAX_PARAM_VALUE_LENGTH := 1000

  // ------------------------------------------------------------------------ scanning

  /** What \w matches. */
  predicate IsWord(c: char) {
    'A' <= c <= 'Z' || 'a' <= c <= 'z' || '0' <= c <= '9' || c == '_'
  }

  /** By the codes of the characters: letters, digits and the underscore of ASCII. */
  lemma WordsExactly(c: char)
    ensures IsWord(c) <==>
      65 <= c as int <= 90 || 97 <= c as int <= 122 || 48 <= c as int <= 57 || c as int == 95
  {}

  predicate IsName(n: string) {
    n != "" && forall k :: 0 <= k < |n| ==> IsWord(n[k])
  }

  function Token(n: string): string {
    "{{" + n + "}}"
  }

  /** The end of the run of word characters that starts at i. */
  function WordEnd(s: string, i: nat): (j: nat)
    requires i <= |s|
    ensures i <= j <= |s|
    decreases |s| - i
  {
    if i < |s| && IsWord(s[i]) then WordEnd(s, i + 1) else i
  }

  /** Where the name ends when /\{\{(\w+)\}\}/ matches at i. */
  function MatchAt(s: string, i: nat): (r: Option<nat>)
    requires i <= |s|
    ensures r.Some? ==> i + 2 < r.value && r.value + 2 <= |s|
  {
    if i + 2 <= |s| && s[i] == '{' && s[i + 1] == '{' then
      var j := WordEnd(s, i + 2);
      if j > i + 2 && j + 2 <= |s| && s[j] == '}' && s[j + 1] == '}' then Some(j) else None
    else None
  }

  datatype Piece = Literal(c: char) | Placeholder(name: string)

  /** The piece at a position, and the position after it. */
  function PieceAt(s: string, i: nat): Piece
    requires i < |s|
  {
    var m := MatchAt(s, i);
    if m.Some? then Placeholder(s[i + 2..m.value]) else Literal(s[i])
  }

  function NextAt(s: string, i: nat): (j: nat)
    requires i < |s|
    ensures i < j <= |s|
  {
    var m := MatchAt(s, i);
    if m.Some? then m.value + 2 else i + 1
  }

  /** The pieces of the text from position i on. */
  function Scan(s: string, i: nat): seq<Piece>
    requires i <= |s|
    decreases |s| - i
  {
    if i == |s| then [] else [PieceAt(s, i)] + Scan(s, NextAt(s, i))
  }

  function Pieces(s: string): seq<Piece> {
    Scan(s, 0)
  }

  function Source(p: Piece): string {
    match p
    case Literal(c) => [c]
    case Placeholder(n) => Token(n)
  }

  function Flatten(ps: seq<Piece>): string {
    if ps == [] then "" else Source(ps[0]) + Flatten(ps[1..])
  }

  lemma {:induction false} WordEndIs(s: string, i: nat, j: nat)
    requires i <= j < |s| && !IsWord(s[j]) && forall k :: i <= k < j ==> IsWord(s[k])
    ensures WordEnd(s, i) == j
    decreases j - i
  {
    if i < j { WordEndIs(s, i + 1, j); }
  }

  lemma {:induction false} WordEndIsWord(s: string, i: nat)
    requires i <= |s|
    ensures forall k :: i <= k < WordEnd(s, i) ==> IsWord(s[k])
    decreases |s| - i
  {
    if i < |s| && IsWord(s[i]) { WordEndIsWord(s, i + 1); }
  }

  /** The match at a position is that of the one name whose token starts there, if there is one. */
  lemma MatchAtExactly(s: string, i: nat, n: string)
    requires i <= |s| && IsName(n)
    ensures Token(n) <= s[i..] <==> MatchAt(s, i).Some? && s[i + 2..MatchAt(s, i).value] == n
  {
    if Token(n) <= s[i..] {
      var j := i + 2 + |n|;
      assert s[i..][..|n| + 4] == Token(n);
      assert forall k :: 0 <= k < |n| + 4 ==> s[i + k] == Token(n)[k];
      assert s[j] == Token(n)[|n| + 2] && s[j + 1] == Token(n)[|n| + 3];
      assert forall k :: i + 2 <= k < j ==> s[k] == Token(n)[k - i];
      WordEndIs(s, i + 2, j);
      assert s[i + 2..j] == n;
    }
    if MatchAt(s, i).Some? {
      var j := MatchAt(s, i).value;
      MatchedNameIsName(s, i);
      assert s[i..][..j + 2 - i] == s[i..j + 2];
    }
  }

  lemma MatchedNameIsName(s: string, i: nat)
    requires i <= |s| && MatchAt(s, i).Some?
    ensures var n := s[i + 2..MatchAt(s, i).value]; IsName(n) && s[i..MatchAt(s, i).value + 2] == Token(n)
  {
    WordEndIsWord(s, i + 2);
  }

  /** A reading of s from i on: literals where no token starts, and tokens of names, in order. */
  predicate Reads(s: string, i: nat, ps: seq<Piece>)
    decreases |ps|
  {
    if ps == [] then i == |s|
    else
      i < |s| && match ps[0]
      case Literal(c) =>
        s[i] == c && MatchAt(s, i).None? && Reads(s, i + 1, ps[1..])
      case Placeholder(n) =>
        IsName(n) && Token(n) <= s[i..] && Reads(s, i + |n| + 4, ps[1..])
  }

  /** The only piece that can be read at a position is the scanned one. */
  lemma OnePieceFits(s: string, i: nat, p: Piece)
    requires i < |s|
    ensures (match p
             case Literal(c) => s[i] == c && MatchAt(s, i).None?
             case Placeholder(n) => IsName(n) && Token(n) <= s[i..])
       <==> p == PieceAt(s, i)
    ensures p == PieceAt(s, i) && p.Placeholder? ==> NextAt(s, i) == i + |p.name| + 4
  {
    if MatchAt(s, i).Some? {
      MatchedNameIsName(s, i);
      MatchAtExactly(s, i, s[i + 2..MatchAt(s, i).value]);
    }
    if p.Placeholder? && IsName(p.name) { MatchAtExactly(s, i, p.name); }
  }

  lemma HeadAndTail(ps: seq<Piece>, head: Piece, tail: seq<Piece>)
    requires ps != []
    ensures ps == [head] + tail <==> ps[0] == head && ps[1..] == tail
  {}

  /** One piece of a reading, and the rest of it. */
  lemma ReadsStep(s: string, i: nat, ps: seq<Piece>)
    requires i < |s| && ps != []
    ensures Reads(s, i, ps) <==> ps[0] == PieceAt(s, i) && Reads(s, NextAt(s, i), ps[1..])
  {
    OnePieceFits(s, i, ps[0]);
  }

  /** There is exactly one reading of a text, the scan; its pieces concatenate to the text. */
  lemma {:induction false} ScanIsTheReading(s: string, i: nat, ps: seq<Piece>)
    requires i <= |s|
    ensures Reads(s, i, ps) <==> ps == Scan(s, i)
    decreases |s| - i
  {
    if i < |s| {
      var scan := Scan(s, i);
      assert scan == [PieceAt(s, i)] + Scan(s, NextAt(s, i));
      if ps != [] {
        ReadsStep(s, i, ps);
        ScanIsTheReading(s, NextAt(s, i), ps[1..]);
        HeadAndTail(ps, PieceAt(s, i), Scan(s, NextAt(s, i)));
      }
    }
  }

  lemma PieceSource(s: string, i: nat)
    requires i < |s|
    ensures Source(PieceAt(s, i)) == s[i..NextAt(s, i)]
  {
    if MatchAt(s, i).Some? { MatchedNameIsName(s, i); }
  }

  lemma FlattenCons(p: Piece, ps: seq<Piece>)
    ensures Flatten([p] + ps) == Source(p) + Flatten(ps)
  {
    assert ([p] + ps)[1..] == ps;
  }

  lemma {:induction false} ScanConcatenates(s: string, i: nat)
    requires i <= |s|
    ensures Flatten(Scan(s, i)) == s[i..]
    decreases |s| - i
  {
    if i < |s| {
      var j := NextAt(s, i);
      PieceSource(s, i);
      ScanConcatenates(s, j);
      FlattenCons(PieceAt(s, i), Scan(s, j));
      SplitSlice(s, i, j);
    } else {
      assert s[i..] == "";
    }
  }

  lemma SplitSlice(s: string, i: nat, j: nat)
    requires i <= j <= |s|
    ensures s[i..] == s[i..j] + s[j..]
  {}

  /** One step of a global match: the next piece and where the search resumes. */
  method NextPiece(s: string, i: nat) returns (piece: Piece, next: nat)
    requires i < |s|
    ensures i < next <= |s| && Source(piece) == s[i..next]
    ensures Scan(s, i) == [piece] + Scan(s, next)
  {
    PieceSource(s, i);
    return PieceAt(s, i), NextAt(s, i);
  }

  // ------------------------------------------------------------------------ escaping

  function ReplaceAll(s: string, c: char, with: string): string {
    if s == "" then "" else (if s[0] == c then with else [s[0]]) + ReplaceAll(s[1..], c, with)
  }

  /** Backslashes first, quotes second. */
  function EscapeFcmValue(value: string): string {
    ReplaceAll(ReplaceAll(value, '\\', "\\\\"), '"', "\\\"")
  }

  function EscapeChar(c: char): string {
    if c == '\\' then "\\\\" else if c == '"' then "\\\"" else [c]
  }

  function EscapeChars(s: string): string {
    if s == "" then "" else EscapeChar(s[0]) + EscapeChars(s[1..])
  }

  /** Reads a backslash as quoting the next character. */
  function Unescape(s: string): string {
    if s == "" then ""
    else if s[0] == '\\' && |s| > 1 then [s[1]] + Unescape(s[2..])
    else [s[0]] + Unescape(s[1..])
  }

  /** No quote is left without its own backslash, and no backslash quotes nothing. */
  predicate QuotesEscaped(s: string) {
    s == "" ||
    if s[0] == '\\' then |s| > 1 && QuotesEscaped(s[2..]) else s[0] != '"' && QuotesEscaped(s[1..])
  }

  lemma {:induction false} ReplaceAllConcat(s: string, t: string, c: char, with: string)
    ensures ReplaceAll(s + t, c, with) == ReplaceAll(s, c, with) + ReplaceAll(t, c, with)
  {
    if s == "" {
      assert s + t == t;
    } else {
      assert (s + t)[1..] == s[1..] + t;
      ReplaceAllConcat(s[1..], t, c, with);
    }
  }

  /** The two passes are one map of the characters. */
  lemma {:induction false} EscapeIsOnePass(s: string)
    ensures EscapeFcmValue(s) == EscapeChars(s)
  {
    if s != "" {
      var first := if s[0] == '\\' then "\\\\" else [s[0]];
      ReplaceAllConcat(first, ReplaceAll(s[1..], '\\', "\\\\"), '"', "\\\"");
      EscapeIsOnePass(s[1..]);
      assert [s[0]][1..] == "" && "\\\\"[1..] == "\\" && "\\"[1..] == "";
      assert ReplaceAll("\\", '"', "\\\"") == "\\";
      assert ReplaceAll(first, '"', "\\\"") == EscapeChar(s[0]);
    }
  }

  lemma {:induction false} EscapeCharsFacts(s: string)
    ensures Unescape(EscapeChars(s)) == s && QuotesEscaped(EscapeChars(s)) && |EscapeChars(s)| <= 2 * |s|
  {
    if s != "" {
      EscapeCharsFacts(s[1..]);
      var e, rest := EscapeChars(s), EscapeChars(s[1..]);
      assert e[|EscapeChar(s[0])|..] == rest;
    }
  }

  /** Character by character: a backslash and a quote get a backslash before them, and nothing
      else is touched. */
  lemma EscapeExactly(c: char, s: string, t: string)
    ensures EscapeFcmValue(s + t) == EscapeFcmValue(s) + EscapeFcmValue(t)
    ensures EscapeFcmValue([c]) == if c == '\\' || c == '"' then ['\\', c] else [c]
  {
    ReplaceAllConcat(s, t, '\\', "\\\\");
    ReplaceAllConcat(ReplaceAll(s, '\\', "\\\\"), ReplaceAll(t, '\\', "\\\\"), '"', "\\\"");
    EscapeIsOnePass([c]);
    assert [c][1..] == "";
  }

  /** Escaping loses nothing, leaves no bare quote, and at most doubles the length. */
  lemma EscapeFacts(value: string)
    ensures Unescape(EscapeFcmValue(value)) == value
    ensures QuotesEscaped(EscapeFcmValue(value))
    ensures |EscapeFcmValue(value)| <= 2 * |value|
  {
    EscapeIsOnePass(value);
    EscapeCharsFacts(value);
  }

  // --------------------------------------------------------------------- substitution

  function Truncate(value: string): (t: string)
    ensures t <= value && |t| == if |value| > 1000 then 1000 else |value|
  {
    if |value| > MAX_PARAM_VALUE_LENGTH then value[..MAX_PARAM_VALUE_LENGTH] else value
  }

  /** A piece of the template in the message: literals as they are, known parameters inserted
      as plain text, unknown placeholders untouched. */
  function Render(p: Piece, params: map<string, string>): string {
    match p
    case Literal(c) => [c]
    case Placeholder(n) => if n in params then EscapeFcmValue(Truncate(params[n])) else Token(n)
  }

  function RenderAll(ps: seq<Piece>, params: map<string, string>): string {
    if ps == [] then "" else Render(ps[0], params) + RenderAll(ps[1..], params)
  }

  function Names(ps: seq<Piece>): set<string> {
    if ps == [] then {}
    else Names(ps[..|ps| - 1]) + if ps[|ps| - 1].Placeholder? then {ps[|ps| - 1].name} else {}
  }

  /** They are the names of the placeholders among the pieces. */
  lemma {:induction false} NamesExactly(ps: seq<Piece>, n: string)
    ensures n in Names(ps) <==> Placeholder(n) in ps
  {
    if ps != [] {
      NamesExactly(ps[..|ps| - 1], n);
      assert ps == ps[..|ps| - 1] + [ps[|ps| - 1]];
    }
  }

  function Placeholders(ps: seq<Piece>): nat {
    if ps == [] then 0 else (if ps[0].Placeholder? then 1 else 0) + Placeholders(ps[1..])
  }

  lemma RenderedPiece(p: Piece, params: map<string, string>)
    ensures |Render(p, params)| <= |Source(p)| + if p.Placeholder? then 2000 else 0
  {
    if p.Placeholder? && p.name in params { EscapeFacts(Truncate(params[p.name])); }
  }

  /** A message outgrows its template by at most 2000 characters per placeholder. */
  lemma {:induction false} RenderBound(ps: seq<Piece>, params: map<string, string>)
    ensures |RenderAll(ps, params)| <= |Flatten(ps)| + 2000 * Placeholders(ps)
  {
    if ps != [] {
      RenderBound(ps[1..], params);
      RenderedPiece(ps[0], params);
    }
  }

  /** Substituting on a text. */
  lemma ResolvedLength(text: string, params: map<string, string>)
    ensures |RenderAll(Pieces(text), params)| <= |text| + 2000 * Placeholders(Pieces(text))
  {
    RenderBound(Pieces(text), params);
    ScanConcatenates(text, 0);
    assert text[0..] == text;
  }

  lemma {:induction false} RenderSplit(ps: seq<Piece>, qs: seq<Piece>, params: map<string, string>)
    ensures RenderAll(ps + qs, params) == RenderAll(ps, params) + RenderAll(qs, params)
  {
    if ps == [] {
      assert ps + qs == qs;
    } else {
      assert (ps + qs)[1..] == ps[1..] + qs;
      RenderSplit(ps[1..], qs, params);
    }
  }

  /** A known parameter appears in the message as its own value, truncated and escaped, whatever
      that value looks like, between what comes before and what comes after it. */
  lemma InsertedVerbatim(text: string, params: map<string, string>, k: nat)
    requires k < |Pieces(text)| && Pieces(text)[k].Placeholder? && Pieces(text)[k].name in params
    ensures var ps := Pieces(text);
      RenderAll(ps, params)
      == RenderAll(ps[..k], params) + EscapeFcmValue(Truncate(params[ps[k].name])) + RenderAll(ps[k + 1..], params)
  {
    var ps := Pieces(text);
    assert ps == ps[..k] + ([ps[k]] + ps[k + 1..]);
    RenderSplit(ps[..k], [ps[k]] + ps[k + 1..], params);
    assert ([ps[k]] + ps[k + 1..])[1..] == ps[k + 1..];
  }

  /** A literal appears as its own character between what comes before and after it. */
  lemma LiteralVerbatim(text: string, params: map<string, string>, k: nat)
    requires k < |Pieces(text)| && Pieces(text)[k].Literal?
    ensures var ps := Pieces(text);
      RenderAll(ps, params) == RenderAll(ps[..k], params) + [ps[k].c] + RenderAll(ps[k + 1..], params)
  {
    var ps := Pieces(text);
    assert ps == ps[..k] + ([ps[k]] + ps[k + 1..]);
    RenderSplit(ps[..k], [ps[k]] + ps[k + 1..], params);
    assert ([ps[k]] + ps[k + 1..])[1..] == ps[k + 1..];
  }

  /** A placeholder without a parameter stays as it was written. */
  lemma UnknownVerbatim(text: string, params: map<string, string>, k: nat)
    requires k < |Pieces(text)| && Pieces(text)[k].Placeholder? && Pieces(text)[k].name !in params
    ensures var ps := Pieces(text);
      RenderAll(ps, params)
      == RenderAll(ps[..k], params) + ("{{" + ps[k].name + "}}") + RenderAll(ps[k + 1..], params)
  {
    var ps := Pieces(text);
    assert ps == ps[..k] + ([ps[k]] + ps[k + 1..]);
    RenderSplit(ps[..k], [ps[k]] + ps[k + 1..], params);
    assert ([ps[k]] + ps[k + 1..])[1..] == ps[k + 1..];
  }

  lemma {:induction false} RenderIsSource(ps: seq<Piece>, params: map<string, string>)
    requires forall i :: 0 <= i < |ps| && ps[i].Placeholder? ==> ps[i].name !in params
    ensures RenderAll(ps, params) == Flatten(ps)
  {
    if ps != [] { RenderIsSource(ps[1..], params); }
  }

  /** A text none of whose names is given resolves to itself. */
  lemma NothingGivenNothingChanges(text: string, params: map<string, string>)
    requires forall n :: n in Names(Pieces(text)) ==> n !in params
    ensures RenderAll(Pieces(text), params) == text
  {
    var ps := Pieces(text);
    forall i | 0 <= i < |ps| && ps[i].Placeholder? ensures ps[i].name !in params { NameOfPiece(ps, i); }
    RenderIsSource(ps, params);
    ScanConcatenates(text, 0);
    assert text[0..] == text;
  }

  lemma {:induction false} NameOfPiece(ps: seq<Piece>, i: nat)
    requires i < |ps| && ps[i].Placeholder?
    ensures ps[i].name in Names(ps)
    decreases |ps|
  {
    if i < |ps| - 1 { NameOfPiece(ps[..|ps| - 1], i); }
  }

  lemma {:induction false} RenderDependsOnNames(
    ps: seq<Piece>, params: map<string, string>, others: map<string, string>
  )
    requires forall i :: 0 <= i < |ps| && ps[i].Placeholder? ==> Render(ps[i], params) == Render(ps[i], others)
    ensures RenderAll(ps, params) == RenderAll(ps, others)
  {
    if ps != [] { RenderDependsOnNames(ps[1..], params, others); }
  }

  /** No inserted text is scanned again: names that only occur inside values have no effect. */
  lemma OnlyOwnNamesMatter(text: string, params: map<string, string>, others: map<string, string>)
    requires forall n :: n in Names(Pieces(text)) ==>
      (n in params <==> n in others) && (n in params ==> params[n] == others[n])
    ensures RenderAll(Pieces(text), params) == RenderAll(Pieces(text), others)
  {
    var ps := Pieces(text);
    forall i | 0 <= i < |ps| && ps[i].Placeholder? ensures Render(ps[i], params) == Render(ps[i], others) {
      NameOfPiece(ps, i);
    }
    RenderDependsOnNames(ps, params, others);
  }

  /** A value that itself looks like a placeholder is inserted, not resolved again. */
  lemma InsertedTextIsNotRescanned(n: string, m: string, params: map<string, string>)
    requires IsName(n) && IsName(m) && |m| <= MAX_PARAM_VALUE_LENGTH - 4 && n in params && params[n] == Token(m)
    ensures RenderAll(Pieces(Token(n)), params) == Token(m)
  {
    var s := Token(n);
    assert s[0..] == s;
    MatchAtExactly(s, 0, n);
    assert Scan(s, |s|) == [];
    assert Pieces(s) == [Placeholder(n)];
    assert [Placeholder(n)][1..] == [];
    assert RenderAll(Pieces(s), params) == EscapeFcmValue(Token(m)) + "";
    EscapeIsOnePass(Token(m));
    NothingToEscape(Token(m));
  }

  lemma {:induction false} NothingToEscape(s: string)
    requires forall k :: 0 <= k < |s| ==> s[k] != '\\' && s[k] != '"'
    ensures EscapeChars(s) == s
  {
    if s != "" {
      NothingToEscape(s[1..]);
      assert s == [s[0]] + s[1..];
    }
  }

  lemma RenderSnoc(ps: seq<Piece>, params: map<string, string>, p: Piece)
    ensures RenderAll(ps + [p], params) == RenderAll(ps, params) + Render(p, params)
  {
    if ps == [] {
      assert [p][1..] == [];
    } else {
      assert (ps + [p])[1..] == ps[1..] + [p];
      RenderSnoc(ps[1..], params, p);
    }
  }

  predicate NoRepeats(ns: seq<string>) {
    forall j, k :: 0 <= j < k < |ns| ==> ns[j] != ns[k]
  }

  /** Adding to a JavaScript Set: the first occurrence stays where it is. */
  function AddOnce(ns: seq<string>, n: string): (r: seq<string>)
    ensures forall x :: x in r <==> x in ns || x == n
    ensures NoRepeats(ns) ==> NoRepeats(r)
  {
    if n in ns then ns else ns + [n]
  }

  /** The replacement callback for one match. */
  method Replacement(token: string, key: string, params: map<string, string>, unresolved: seq<string>)
    returns (replacement: string, reported: seq<string>)
    requires token == Token(key)
    ensures replacement == Render(Placeholder(key), params)
    ensures reported == if key in params then unresolved else AddOnce(unresolved, key)
  {
    if key !in params {
      return token, AddOnce(unresolved, key);
    }
    return EscapeFcmValue(Truncate(params[key])), unresolved;
  }

  /** The names without a parameter, each once, in the order they first occur. */
  function Unknown(ps: seq<Piece>, params: map<string, string>): seq<string> {
    if ps == [] then []
    else
      var p, before := ps[|ps| - 1], Unknown(ps[..|ps| - 1], params);
      if p.Placeholder? && p.name !in params then AddOnce(before, p.name) else before
  }

  lemma {:induction false} UnknownFacts(ps: seq<Piece>, params: map<string, string>)
    ensures NoRepeats(Unknown(ps, params))
    ensures forall n :: n in Unknown(ps, params) <==> n in Names(ps) && n !in params
  {
    if ps != [] { UnknownFacts(ps[..|ps| - 1], params); }
  }

  /** What is reported for the beginning of a text is the beginning of what is reported for it. */
  lemma {:induction false} UnknownInOrder(ps: seq<Piece>, params: map<string, string>, k: nat)
    requires k <= |ps|
    ensures Unknown(ps[..k], params) <= Unknown(ps, params)
  {
    if k == |ps| {
      assert ps[..k] == ps;
    } else {
      UnknownInOrder(ps[..|ps| - 1], params, k);
      assert ps[..|ps| - 1][..k] == ps[..k];
    }
  }

  lemma UnknownSnoc(ps: seq<Piece>, params: map<string, string>, p: Piece)
    ensures Unknown(ps + [p], params)
         == if p.Placeholder? && p.name !in params then AddOnce(Unknown(ps, params), p.name) else Unknown(ps, params)
  {
    assert (ps + [p])[..|ps|] == ps;
  }

  /** s.replace(regex, callback): one pass from the left, never looking at inserted text. */
  method ResolvePlaceholders(text: string, params: map<string, string>)
    returns (resolved: string, unresolved: seq<string>)
    ensures resolved == RenderAll(Pieces(text), params)
    ensures unresolved == Unknown(Pieces(text), params)
  {
    resolved, unresolved := "", [];
    var i := 0;
    ghost var done: seq<Piece> := [];
    while i < |text|
      invariant 0 <= i <= |text|
      invariant done + Scan(text, i) == Pieces(text)
      invariant resolved == RenderAll(done, params)
      invariant unresolved == Unknown(done, params)
    {
      var piece, next := NextPiece(text, i);
      Regroup(done, piece, Scan(text, next));
      RenderSnoc(done, params, piece);
      UnknownSnoc(done, params, piece);
      match piece {
        case Literal(c) =>
          resolved := resolved + [c];
        case Placeholder(key) =>
          var replacement;
          replacement, unresolved := Replacement(text[i..next], key, params, unresolved);
          resolved := resolved + replacement;
      }
      i := next;
      done := done + [piece];
    }
    assert done == Pieces(text);
  }

  lemma NamesSnoc(ps: seq<Piece>, p: Piece)
    ensures Names(ps + [p]) == Names(ps) + if p.Placeholder? then {p.name} else {}
  {}

  lemma Regroup(done: seq<Piece>, p: Piece, rest: seq<Piece>)
    ensures done + ([p] + rest) == (done + [p]) + rest
  {}

  // ------------------------------------------------------------------------ extraction

  /** Code-unit order of strings, what Array.prototype.sort uses. */
  predicate Before(a: string, b: string) {
    b != "" && (a == "" || a[0] < b[0] || (a[0] == b[0] && Before(a[1..], b[1..])))
  }

  /** At the first place where they differ the smaller character decides; a beginning comes first. */
  predicate DiffersAt(a: string, b: string, k: int) {
    0 <= k <= |a| && k < |b| && a[..k] == b[..k] && (k == |a| || a[k] < b[k])
  }

  lemma {:induction false} BeforeExactly(a: string, b: string)
    ensures Before(a, b) <==> exists k :: DiffersAt(a, b, k)
  {
    if a == "" {
      assert b != "" ==> DiffersAt(a, b, 0);
    } else if b != "" {
      BeforeExactly(a[1..], b[1..]);
      if a[0] < b[0] { assert DiffersAt(a, b, 0); }
      if k :| DiffersAt(a[1..], b[1..], k) && a[0] == b[0] {
        assert a[..k + 1] == [a[0]] + a[1..][..k] && b[..k + 1] == [b[0]] + b[1..][..k];
        assert DiffersAt(a, b, k + 1);
      }
      if k :| DiffersAt(a, b, k) && k > 0 {
        assert a[..k][0] == b[..k][0];
        assert a[1..][..k - 1] == a[..k][1..] && b[1..][..k - 1] == b[..k][1..];
        assert DiffersAt(a[1..], b[1..], k - 1);
      }
    }
  }

  lemma {:induction false} BeforeTotal(a: string, b: string)
    ensures a == b || Before(a, b) || Before(b, a)
    ensures !(Before(a, b) && Before(b, a)) && !Before(a, a)
  {
    if a != "" { BeforeTotal(a[1..], a[1..]); }
    if a != "" && b != "" {
      BeforeTotal(a[1..], b[1..]);
      if a[0] == b[0] && a[1..] == b[1..] { assert a == [a[0]] + a[1..] == b; }
    }
  }

  lemma {:induction false} BeforeTransitive(a: string, b: string, c: string)
    requires Before(a, b) && Before(b, c)
    ensures Before(a, c)
  {
    if a != "" && a[0] == b[0] == c[0] { BeforeTransitive(a[1..], b[1..], c[1..]); }
  }

  predicate Ascending(ns: seq<string>) {
    forall j, k :: 0 <= j < k < |ns| ==> Before(ns[j], ns[k])
  }

  /** Puts a name into its place in an ascending list, once. */
  function AddName(ns: seq<string>, n: string): seq<string> {
    if ns == [] || Before(ns[|ns| - 1], n) then ns + [n]
    else if ns[|ns| - 1] == n then ns
    else AddName(ns[..|ns| - 1], n) + [ns[|ns| - 1]]
  }

  lemma {:induction false} AddNameFacts(ns: seq<string>, n: string)
    requires Ascending(ns)
    ensures Ascending(AddName(ns, n))
    ensures forall x :: x in AddName(ns, n) <==> x in ns || x == n
  {
    var m := |ns| - 1;
    if ns == [] || Before(ns[m], n) {
      forall j | 0 <= j < |ns| ensures Before(ns[j], n) {
        if j < m { BeforeTransitive(ns[j], ns[m], n); }
      }
    } else if ns[m] != n {
      BeforeTotal(ns[m], n);
      AddNameFacts(ns[..m], n);
      var r := AddName(ns[..m], n);
      assert ns == ns[..m] + [ns[m]];
      forall j | 0 <= j < |r| ensures Before(r[j], ns[m]) {
        assert r[j] in ns[..m] || r[j] == n;
        if r[j] != n { var k :| 0 <= k < m && ns[..m][k] == r[j]; }
      }
    }
  }

  /** All names of a template's fields; an absent or empty deep link has none. */
  function TemplateNames(title: string, body: string, deepLink: Option<string>): set<string> {
    Names(Pieces(title)) + Names(Pieces(body))
    + if deepLink.Some? && deepLink.value != "" then Names(Pieces(deepLink.value)) else {}
  }

  /** regex.exec in a loop: each match resumes the search where the last one ended. */
  method CollectNames(field: string, found: seq<string>) returns (names: seq<string>)
    requires Ascending(found)
    ensures Ascending(names)
    ensures forall n :: n in names <==> n in found || n in Names(Pieces(field))
  {
    names := found;
    var lastIndex := 0;
    ghost var done: seq<Piece> := [];
    while lastIndex < |field|
      invariant 0 <= lastIndex <= |field|
      invariant done + Scan(field, lastIndex) == Pieces(field)
      invariant Ascending(names)
      invariant forall n :: n in names <==> n in found || n in Names(done)
    {
      var piece, next := NextPiece(field, lastIndex);
      Regroup(done, piece, Scan(field, next));
      NamesSnoc(done, piece);
      if piece.Placeholder? {
        AddNameFacts(names, piece.name);
        names := AddName(names, piece.name);
      }
      lastIndex := next;
      done := done + [piece];
    }
    assert done == Pieces(field);
  }

  method ExtractPlaceholders(title: string, body: string, deepLink: Option<string>) returns (names: seq<string>)
    ensures Ascending(names)
    ensures (set n | n in names) == TemplateNames(title, body, deepLink)
  {
    names := CollectNames(title, []);
    names := CollectNames(body, names);
    if deepLink.Some? && deepLink.value != "" {
      names := CollectNames(deepLink.value, names);
    }
  }

  // ------------------------------------------------------------------------- sending

  const FCM_TITLE_MAX := 200
  const FCM_BODY_MAX := 4000
  const FCM_DATA_MAX_BYTES := 4096

  datatype Template = Template(
    title: string, body: string, deepLink: Option<string>, data: map<string, string>, isActive: bool)

  datatype SendError =
    | Unavailable | NotFound | Inactive | EmptyParams | TitleTooLong | BodyTooLong | DataTooLarge

  /** unresolved: the unknown names, each once; warned: how many the fields reported in all. */
  datatype Message = Message(
    title: string, body: string, deepLink: Option<string>, data: map<string, string>,
    unresolved: seq<string>, warned: nat)

  function Substituted(text: string, params: map<string, string>): string {
    RenderAll(Pieces(text), params)
  }

  function SubstitutedLink(t: Template, params: map<string, string>): Option<string> {
    if t.deepLink.Some? && t.deepLink.value != "" then Some(Substituted(t.deepLink.value, params)) else None
  }

  /** The template's data, overridden by the click action and by a non-empty link. */
  function MessageData(data: map<string, string>, link: Option<string>): map<string, string> {
    data + map["click_action" := "FLUTTER_NOTIFICATION_CLICK"]
    + if link.Some? && link.value != "" then map["deep_link" := link.value] else map[]
  }

  /** The first limit a message exceeds; bytes is the length of its data as JSON. */
  function LimitExceeded(title: string, body: string, bytes: nat): Option<SendError> {
    if |title| > FCM_TITLE_MAX then Some(TitleTooLong)
    else if |body| > FCM_BODY_MAX then Some(BodyTooLong)
    else if bytes > FCM_DATA_MAX_BYTES then Some(DataTooLarge)
    else None
  }

  /** Whether and why a message cannot be sent. */
  function Refusal(
    ready: bool, found: Option<Template>, params: map<string, string>, jsonBytes: map<string, string> -> nat
  ): (r: Option<SendError>)
    ensures r.None? ==> ready && found.Some?
  {
    if !ready then Some(Unavailable)
    else match found
      case None => Some(NotFound)
      case Some(t) =>
        if !t.isActive then Some(Inactive)
        else if params == map[] then Some(EmptyParams)
        else LimitExceeded(Substituted(t.title, params), Substituted(t.body, params),
                           jsonBytes(MessageData(t.data, SubstitutedLink(t, params))))
  }

  /** The names each field reports, one field after the other. */
  function AllUnknown(t: Template, params: map<string, string>): seq<string> {
    Unknown(Pieces(t.title), params) + Unknown(Pieces(t.body), params)
    + if t.deepLink.Some? && t.deepLink.value != "" then Unknown(Pieces(t.deepLink.value), params) else []
  }

  function Once(ns: seq<string>): seq<string> {
    if ns == [] then [] else AddOnce(Once(ns[..|ns| - 1]), ns[|ns| - 1])
  }

  lemma {:induction false} OnceFacts(ns: seq<string>)
    ensures NoRepeats(Once(ns)) && forall n :: n in Once(ns) <==> n in ns
  {
    if ns != [] {
      OnceFacts(ns[..|ns| - 1]);
      assert ns == ns[..|ns| - 1] + [ns[|ns| - 1]];
    }
  }

  /** The reported names are exactly those extracted from the fields minus the given parameters. */
  lemma UnknownAreExtractedMinusGiven(t: Template, params: map<string, string>)
    ensures (set n | n in Once(AllUnknown(t, params))) == TemplateNames(t.title, t.body, t.deepLink) - params.Keys
  {
    OnceFacts(AllUnknown(t, params));
    UnknownFacts(Pieces(t.title), params);
    UnknownFacts(Pieces(t.body), params);
    if t.deepLink.Some? { UnknownFacts(Pieces(t.deepLink.value), params); }
  }

  lemma {:induction false} OnceStartsWith(ns: seq<string>, more: seq<string>)
    requires NoRepeats(ns)
    ensures ns <= Once(ns + more)
  {
    if more != [] {
      OnceStartsWith(ns, more[..|more| - 1]);
      assert (ns + more)[..|ns + more| - 1] == ns + more[..|more| - 1];
    } else {
      assert ns + more == ns;
      OnceOfDistinct(ns);
    }
  }

  lemma {:induction false} OnceOfDistinct(ns: seq<string>)
    requires NoRepeats(ns)
    ensures Once(ns) == ns
  {
    if ns != [] {
      var n := |ns| - 1;
      OnceOfDistinct(ns[..n]);
      assert ns[n] !in ns[..n];
      assert ns == ns[..n] + [ns[n]];
    }
  }

  /** The title's unknown names are reported first, and each field counts its own. */
  lemma TitleIsReportedFirst(t: Template, params: map<string, string>)
    ensures Unknown(Pieces(t.title), params) <= Once(AllUnknown(t, params))
    ensures |AllUnknown(t, params)| == |Unknown(Pieces(t.title), params)| + |Unknown(Pieces(t.body), params)|
      + if t.deepLink.Some? && t.deepLink.value != "" then |Unknown(Pieces(t.deepLink.value), params)| else 0
  {
    var linked := t.deepLink.Some? && t.deepLink.value != "";
    var a, b := Unknown(Pieces(t.title), params), Unknown(Pieces(t.body), params);
    var c := if linked then Unknown(Pieces(t.deepLink.value), params) else [];
    UnknownFacts(Pieces(t.title), params);
    OnceStartsWith(a, b + c);
    Associates(a, b, c);
  }

  lemma Associates(a: seq<string>, b: seq<string>, c: seq<string>)
    ensures a + b + c == a + (b + c)
  {}

  /** When a message is refused, and why: the first of the reasons in the order of the code. */
  lemma RefusedExactly(
    ready: bool, found: Option<Template>, params: map<string, string>, jsonBytes: map<string, string> -> nat
  )
    ensures var r := Refusal(ready, found, params, jsonBytes);
      && (r == Some(Unavailable) <==> !ready)
      && (r == Some(NotFound) <==> ready && found.None?)
      && (r == Some(Inactive) <==> ready && found.Some? && !found.value.isActive)
      && (r == Some(EmptyParams) <==> ready && found.Some? && found.value.isActive && params == map[])
      && (ready && found.Some? && found.value.isActive && params != map[] ==>
            var title, body := Substituted(found.value.title, params), Substituted(found.value.body, params);
            var data := MessageData(found.value.data, SubstitutedLink(found.value, params));
            && (r == Some(TitleTooLong) <==> |title| > 200)
            && (r == Some(BodyTooLong) <==> |title| <= 200 && |body| > 4000)
            && (r == Some(DataTooLarge) <==> |title| <= 200 && |body| <= 4000 && jsonBytes(data) > 4096)
            && (r == None <==> |title| <= 200 && |body| <= 4000 && jsonBytes(data) <= 4096))
  {}

  /** The link of a message is that of its template, resolved; an empty one counts as none. */
  lemma LinkExactly(t: Template, params: map<string, string>)
    ensures t.deepLink == None || t.deepLink == Some("") ==> SubstitutedLink(t, params) == None
    ensures forall link :: t.deepLink == Some(link) && link != "" ==>
      SubstitutedLink(t, params) == Some(RenderAll(Pieces(link), params))
  {}

  /** The data of a message, key by key: the click action and a non-empty link win over the
      template's own. */
  lemma DataExactly(data: map<string, string>, link: Option<string>, key: string)
    ensures var linked := link.Some? && link.value != "";
      var r := MessageData(data, link);
      && (key in r <==> key in data || key == "click_action" || (key == "deep_link" && linked))
      && r["click_action"] == "FLUTTER_NOTIFICATION_CLICK"
      && (linked ==> "deep_link" in r && r["deep_link"] == link.value)
      && (key in data && key != "click_action" && !(key == "deep_link" && linked) ==> r[key] == data[key])
  {}

  method ResolveFields(t: Template, params: map<string, string>)
    returns (title: string, body: string, deepLink: Option<string>, allUnresolved: seq<string>)
    ensures title == Substituted(t.title, params) && body == Substituted(t.body, params)
    ensures deepLink == SubstitutedLink(t, params)
    ensures allUnresolved == AllUnknown(t, params)
  {
    var unresolvedTitle, unresolvedBody;
    title, unresolvedTitle := ResolvePlaceholders(t.title, params);
    body, unresolvedBody := ResolvePlaceholders(t.body, params);
    var unresolvedLink: seq<string> := [];
    deepLink := None;
    if t.deepLink.Some? && t.deepLink.value != "" {
      var link;
      link, unresolvedLink := ResolvePlaceholders(t.deepLink.value, params);
      deepLink := Some(link);
    }
    allUnresolved := unresolvedTitle + unresolvedBody + unresolvedLink;
  }

  method BuildData(data: map<string, string>, deepLink: Option<string>) returns (resolvedData: map<string, string>)
    ensures resolvedData == MessageData(data, deepLink)
  {
    resolvedData := data["click_action" := "FLUTTER_NOTIFICATION_CLICK"];
    if deepLink.Some? && deepLink.value != "" {
      resolvedData := resolvedData["deep_link" := deepLink.value];
    }
  }

  /** The message made from a template: the errors in their order, and otherwise the substituted
      fields, the data, and the names reported. */
  method SendFromTemplate(
    ready: bool, found: Option<Template>, params: map<string, string>, jsonBytes: map<string, string> -> nat
  ) returns (r: Result<Message, SendError>)
    ensures match Refusal(ready, found, params, jsonBytes)
      case Some(e) => r == Err(e)
      case None =>
        var t, link := found.value, SubstitutedLink(found.value, params);
        r == Ok(Message(Substituted(t.title, params), Substituted(t.body, params), link, MessageData(t.data, link),
                        Once(AllUnknown(t, params)), |AllUnknown(t, params)|))
  {
    if !ready {
      return Err(Unavailable);
    }
    if found.None? {
      return Err(NotFound);
    }
    var t := found.value;
    if !t.isActive {
      return Err(Inactive);
    }
    if params == map[] {
      return Err(EmptyParams);
    }
    var title, body, deepLink, allUnresolved := ResolveFields(t, params);
    if |title| > FCM_TITLE_MAX {
      return Err(TitleTooLong);
    }
    if |body| > FCM_BODY_MAX {
      return Err(BodyTooLong);
    }
    var resolvedData := BuildData(t.data, deepLink);
    if jsonBytes(resolvedData) > FCM_DATA_MAX_BYTES {
      return Err(DataTooLarge);
    }
    return Ok(Message(title, body, deepLink, resolvedData, Once(allUnresolved), |allUnresolved|));
  }
}
