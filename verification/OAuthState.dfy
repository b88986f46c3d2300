// The `state` parameter of the OAuth vinculation: printed when the flow starts, parsed
// when the provider calls back.
module OAuthState {
  import opened Prelude
  import Base64Url
  import Utf8

  datatype ParsedState = ParsedState(userId: string, commerceId: Option<string>, redirectUri: string)

  const LITERAL_REDIRECT := "https://menucom-api.onrender.com/payments/oauth/callback"

  /** The configured redirect used when the state carries none; empty settings count as unset. */
  function ConfiguredRedirect(mercadoPago: Option<string>, mp: Option<string>): (r: string)
    ensures r != ""
  {
    if mercadoPago.Some? && mercadoPago.value != "" then mercadoPago.value
    else if mp.Some? && mp.value != "" then mp.value
    else LITERAL_REDIRECT
  }

  function Decimal(n: nat): string {
    if n < 10 then [('0' as int + n) as char] else Decimal(n / 10) + [('0' as int + n % 10) as char]
  }

  // -------------------------------------------------------------------- printing

  /** An absent and an empty commerce id are both left out of the state. */
  function Truthy(id: Option<string>): Option<string> {
    if id == Some("") then None else id
  }

  function PrintCore(userId: string, commerceId: Option<string>, now: nat): string {
    match Truthy(commerceId)
    case Some(c) => "user_" + userId + "_commerce_" + c + "_" + Decimal(now)
    case None => "user_" + userId + "_" + Decimal(now)
  }

  function EncodeRedirect(redirectUri: string): string {
    Base64Url.Encode(Utf8.Encode(redirectUri))
  }

  function PrintState(userId: string, commerceId: Option<string>, now: nat, redirectUri: string): string {
    PrintCore(userId, commerceId, now) + "___" + EncodeRedirect(redirectUri)
  }

  // --------------------------------------------------------------------- parsing

  /** Splits at every `___`, leftmost first, never overlapping. */
  function SplitTriple(s: string): (parts: seq<string>)
    ensures |parts| >= 1
    decreases |s|, |s| + 1
  {
    SplitFrom(s, 0)
  }

  function SplitFrom(s: string, i: nat): (parts: seq<string>)
    requires i <= |s|
    ensures |parts| >= 1
    decreases |s|, |s| - i
  {
    if Base64Url.TripleAt(s, i) then [s[..i]] + SplitTriple(s[i + 3..])
    else if i == |s| then [s]
    else SplitFrom(s, i + 1)
  }

  /** The text after a fixed prefix, when s starts with it. */
  function After(prefix: string, s: string): Option<string> {
    if prefix <= s then Some(s[|prefix|..]) else None
  }

  /** Length of the longest prefix without underscore: what `[^_]+` takes before an underscore. */
  function RunLength(s: string): (n: nat)
    ensures n <= |s| && '_' !in s[..n]
    ensures n < |s| ==> s[n] == '_'
  {
    if s == "" || s[0] == '_' then 0
    else
      var n := 1 + RunLength(s[1..]);
      assert s[..n] == [s[0]] + s[1..][..n - 1];
      n
  }

  /** Matches `[^_]+` followed by a literal that starts with an underscore: (captured, rest). */
  function Segment(s: string, closing: string): Option<(string, string)>
    requires closing != "" && closing[0] == '_'
  {
    var n := RunLength(s);
    if n == 0 then None
    else match After(closing, s[n..])
      case Some(rest) => Some((s[..n], rest))
      case None => None
  }

  /** /^user_([^_]+)_commerce_([^_]+)_/ */
  function MatchWithCommerce(core: string): Option<(string, string)> {
    match After("user_", core)
    case None => None
    case Some(s) =>
      match Segment(s, "_commerce_")
      case None => None
      case Some((user, t)) =>
        match Segment(t, "_")
        case None => None
        case Some((commerce, _)) => Some((user, commerce))
  }

  /** /^user_([^_]+)_/ */
  function MatchUserOnly(core: string): Option<string> {
    match After("user_", core)
    case None => None
    case Some(s) =>
      match Segment(s, "_")
      case None => None
      case Some((user, _)) => Some(user)
  }

  function ParseState(state: string, configured: string): Result<ParsedState, string> {
    var parts := SplitTriple(state);
    var redirectUri :=
      if |parts| > 1 && parts[1] != "" then Utf8.Decode(Base64Url.Decode(parts[1])) else configured;
    match MatchWithCommerce(parts[0])
    case Some((user, commerce)) => Ok(ParsedState(user, Some(commerce), redirectUri))
    case None =>
      match MatchUserOnly(parts[0])
      case Some(user) => Ok(ParsedState(user, None, redirectUri))
      case None => Err("Invalid state format")
  }

  // ---------------------------------------------------------------------- proofs

  /** An id the state format can carry. */
  predicate Plain(id: string) {
    id != "" && '_' !in id
  }

  /** No two neighbouring underscores. */
  predicate Spaced(s: string) {
    forall i :: 0 <= i < |s| - 1 ==> !(s[i] == '_' && s[i + 1] == '_')
  }

  lemma {:induction false} DecimalDigits(n: nat)
    ensures Decimal(n) != "" && '_' !in Decimal(n)
  {
    if n >= 10 { DecimalDigits(n / 10); }
  }

  lemma SpacedConcat(s: string, t: string)
    requires Spaced(s) && Spaced(t)
    requires s == "" || t == "" || s[|s| - 1] != '_' || t[0] != '_'
    ensures Spaced(s + t)
  {}

  lemma CoreIsSpaced(userId: string, commerceId: Option<string>, now: nat)
    requires Plain(userId) && (Truthy(commerceId).Some? ==> Plain(commerceId.value))
    ensures var core := PrintCore(userId, commerceId, now); Spaced(core) && core != "" && core[|core| - 1] != '_'
  {
    DecimalDigits(now);
    var digits := Decimal(now);
    SpacedConcat("user_", userId);
    if Truthy(commerceId).Some? {
      var c := commerceId.value;
      SpacedConcat("user_" + userId, "_commerce_");
      SpacedConcat("user_" + userId + "_commerce_", c);
      SpacedConcat("user_" + userId + "_commerce_" + c, "_");
      SpacedConcat("user_" + userId + "_commerce_" + c + "_", digits);
    } else {
      SpacedConcat("user_" + userId, "_");
      SpacedConcat("user_" + userId + "_", digits);
    }
  }

  /** A text that never shows `___` is one single part. */
  lemma {:induction false} SplitWhole(s: string, i: nat)
    requires i <= |s| && forall j :: !Base64Url.TripleAt(s, j)
    ensures SplitFrom(s, i) == [s]
    decreases |s| - i
  {
    if i < |s| { SplitWhole(s, i + 1); }
  }

  lemma {:induction false} SplitAt(core: string, tail: string, i: nat)
    requires Spaced(core) && core != "" && core[|core| - 1] != '_' && i <= |core|
    requires forall j :: !Base64Url.TripleAt(tail, j)
    ensures SplitFrom(core + "___" + tail, i) == [core, tail]
    decreases |core| - i
  {
    var s := core + "___" + tail;
    if i < |core| {
      assert s[i] == core[i] && (i + 1 < |core| ==> s[i + 1] == core[i + 1]);
      assert !Base64Url.TripleAt(s, i);
      SplitAt(core, tail, i + 1);
    } else {
      assert s[i] == '_' && s[i + 1] == '_' && s[i + 2] == '_';
      assert s[..i] == core && s[i + 3..] == tail;
      SplitWhole(tail, 0);
    }
  }

  /** The encoding of a text never shows the separator: the reason the format is unambiguous. */
  lemma RedirectHasNoSeparator(redirectUri: string, i: int)
    ensures !Base64Url.TripleAt(EncodeRedirect(redirectUri), i)
  {
    if Base64Url.TripleAt(EncodeRedirect(redirectUri), i) {
      Base64Url.TripleNeedsFF(Utf8.Encode(redirectUri), i);
      Utf8.ForbiddenOctets(redirectUri);
    }
  }

  lemma SplitPrinted(userId: string, commerceId: Option<string>, now: nat, redirectUri: string)
    requires Plain(userId) && (Truthy(commerceId).Some? ==> Plain(commerceId.value))
    ensures SplitTriple(PrintState(userId, commerceId, now, redirectUri))
         == [PrintCore(userId, commerceId, now), EncodeRedirect(redirectUri)]
  {
    CoreIsSpaced(userId, commerceId, now);
    forall i ensures !Base64Url.TripleAt(EncodeRedirect(redirectUri), i) {
      RedirectHasNoSeparator(redirectUri, i);
    }
    SplitAt(PrintCore(userId, commerceId, now), EncodeRedirect(redirectUri), 0);
  }

  lemma RunLengthAt(s: string, n: nat)
    requires n <= |s| && '_' !in s[..n] && (n < |s| ==> s[n] == '_')
    ensures RunLength(s) == n
  {}

  lemma SegmentOf(id: string, closing: string, rest: string)
    requires Plain(id) && closing != "" && closing[0] == '_'
    ensures Segment(id + closing + rest, closing) == Some((id, rest))
  {
    var s := id + closing + rest;
    assert s[..|id|] == id;
    RunLengthAt(s, |id|);
    assert s[|id|..] == closing + rest;
    assert closing <= closing + rest && (closing + rest)[|closing|..] == rest;
  }

  lemma AfterPrefix(prefix: string, s: string)
    ensures After(prefix, prefix + s) == Some(s)
  {}

  lemma MatchWithCommercePrinted(userId: string, c: string, now: nat)
    requires Plain(userId) && Plain(c)
    ensures MatchWithCommerce("user_" + userId + "_commerce_" + c + "_" + Decimal(now)) == Some((userId, c))
  {
    var rest := c + "_" + Decimal(now);
    Regroup(userId, "_commerce_", c, "_" + Decimal(now));
    assert c + ("_" + Decimal(now)) == rest;
    assert "user_" + userId + "_commerce_" + c + "_" + Decimal(now)
        == "user_" + userId + "_commerce_" + c + ("_" + Decimal(now));
    AfterPrefix("user_", userId + "_commerce_" + rest);
    SegmentOf(userId, "_commerce_", rest);
    SegmentOf(c, "_", Decimal(now));
  }

  lemma Regroup(a: string, b: string, c: string, d: string)
    ensures "user_" + a + b + c + d == "user_" + (a + b + (c + d))
  {}

  lemma MatchUserOnlyPrinted(userId: string, now: nat)
    requires Plain(userId)
    ensures var core := "user_" + userId + "_" + Decimal(now);
            MatchWithCommerce(core) == None && MatchUserOnly(core) == Some(userId)
  {
    var digits := Decimal(now);
    var s := userId + "_" + digits;
    assert "user_" + userId + "_" + digits == "user_" + s;
    AfterPrefix("user_", s);
    SegmentOf(userId, "_", digits);
    FirstDigit(now);
    NoCommerce(userId, digits);
  }

  lemma NoCommerce(userId: string, digits: string)
    requires Plain(userId) && digits != "" && digits[0] != 'c'
    ensures Segment(userId + "_" + digits, "_commerce_") == None
  {
    var s := userId + "_" + digits;
    RunLengthAt(s, |userId|);
    var rest := s[|userId|..];
    assert rest[1] == digits[0];
    assert "_commerce_"[1] == 'c';
  }

  lemma {:induction false} FirstDigit(n: nat)
    ensures Decimal(n) != "" && '0' <= Decimal(n)[0] <= '9'
  {
    if n >= 10 { FirstDigit(n / 10); }
  }

  /** What the callback reads, for every redirect, once the ids carry no underscore. */
  lemma ParsePrinted(userId: string, commerceId: Option<string>, now: nat, redirectUri: string, configured: string)
    requires Plain(userId) && (Truthy(commerceId).Some? ==> Plain(commerceId.value))
    ensures ParseState(PrintState(userId, commerceId, now, redirectUri), configured)
         == Ok(ParsedState(userId, Truthy(commerceId), if redirectUri == "" then configured else redirectUri))
  {
    SplitPrinted(userId, commerceId, now, redirectUri);
    if Truthy(commerceId).Some? {
      MatchWithCommercePrinted(userId, commerceId.value, now);
    } else {
      MatchUserOnlyPrinted(userId, now);
    }
    Base64Url.RoundTrip(Utf8.Encode(redirectUri));
    Utf8.RoundTrip(redirectUri);
    if redirectUri != "" {
      assert EncodeRedirect(redirectUri) != "";
    }
  }

  /** The number a decimal text stands for. */
  function Number(s: string): int {
    if s == "" then 0 else 10 * Number(s[..|s| - 1]) + (s[|s| - 1] as int - 48)
  }

  lemma {:induction false} DecimalReads(n: nat)
    ensures Number(Decimal(n)) == n
  {
    var s := Decimal(n);
    if n >= 10 {
      DecimalReads(n / 10);
      assert s[..|s| - 1] == Decimal(n / 10);
    } else {
      assert s[..|s| - 1] == "" && Number("") == 0;
    }
  }

  /** The core of a state ends, behind an underscore, with the instant it was printed at. */
  lemma PrintedInstant(userId: string, commerceId: Option<string>, now: nat)
    ensures exists ids, digits :: PrintCore(userId, commerceId, now) == ids + "_" + digits && Number(digits) == now
  {
    DecimalReads(now);
    var user := "user_" + userId;
    var ids := if Truthy(commerceId).Some? then user + "_commerce_" + commerceId.value else user;
    assert PrintCore(userId, commerceId, now) == ids + "_" + Decimal(now);
  }

  /** A state of the older format, without redirect, gives the user and the configured redirect. */
  lemma LegacyState(userId: string, now: nat, configured: string)
    requires Plain(userId)
    ensures ParseState("user_" + userId + "_" + Decimal(now), configured)
         == Ok(ParsedState(userId, None, configured))
  {
    var core := "user_" + userId + "_" + Decimal(now);
    CoreIsSpaced(userId, None, now);
    MatchUserOnlyPrinted(userId, now);
    forall j ensures !Base64Url.TripleAt(core, j) { SpacedHasNoSeparator(core, j); }
    SplitWhole(core, 0);
  }

  lemma SpacedHasNoSeparator(s: string, j: int)
    requires Spaced(s)
    ensures !Base64Url.TripleAt(s, j)
  {}

  /** The first setting that is not empty, and the built-in address when there is none. */
  lemma ConfiguredExactly(first: Option<string>, second: Option<string>)
    ensures var r := ConfiguredRedirect(first, second);
      && (first.Some? && first.value != "" ==> r == first.value)
      && (!(first.Some? && first.value != "") && second.Some? && second.value != "" ==> r == second.value)
      && (!(first.Some? && first.value != "") && !(second.Some? && second.value != "") ==>
            r == "https://menucom-api.onrender.com/payments/oauth/callback")
  {}

  /** Whatever the state, the ids read from it are non-empty and free of underscores. */
  lemma ParsedIdsArePlain(state: string, configured: string)
    ensures var r := ParseState(state, configured);
            r.Ok? ==> Plain(r.value.userId) && (r.value.commerceId.Some? ==> Plain(r.value.commerceId.value))
  {}

  /** The exact inputs on which parsing inverts printing. */
  lemma RoundTripExactly(
    userId: string, commerceId: Option<string>, now: nat, redirectUri: string,
    mercadoPago: Option<string>, mp: Option<string>
  )
    ensures (ParseState(PrintState(userId, commerceId, now, redirectUri), ConfiguredRedirect(mercadoPago, mp))
             == Ok(ParsedState(userId, Truthy(commerceId), redirectUri)))
       <==> (userId != "" && '_' !in userId && (commerceId.Some? ==> '_' !in commerceId.value) && redirectUri != "")
  {
    var configured := ConfiguredRedirect(mercadoPago, mp);
    ParsedIdsArePlain(PrintState(userId, commerceId, now, redirectUri), configured);
    if Plain(userId) && (Truthy(commerceId).Some? ==> Plain(commerceId.value)) {
      ParsePrinted(userId, commerceId, now, redirectUri, configured);
    }
  }
}
