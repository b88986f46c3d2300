// Signed ticket codes: base64url of the JSON of the ticket data and an HMAC over it.
// The signing key and the JSON library are an arbitrary Codec; every result holds for
// each codec whose parser reads back what its printer wrote.
module SecureQr {
  import opened Prelude
  import Base64Url
  import Utf8

  datatype Payload = Payload(ticketId: nat, purchaseId: nat, ticketTypeId: nat, eventId: nat, timestamp: int)

  datatype QrData = QrData(payload: Payload, signature: string)

  /** toJson and fromJson print and parse; sign is the hexadecimal HMAC of the canonical
      payload; unhex the bytes a hexadecimal text denotes. */
  datatype Codec = Codec(
    toJson: QrData -> string,
    fromJson: string -> Option<QrData>,
    sign: Payload -> string,
    unhex: string -> seq<byte>)
  {
    ghost predicate Sound() {
      && (forall d: QrData :: fromJson(toJson(d)) == Some(d))
      && (forall p: Payload :: sign(p) != "")
    }
  }

  const EXPIRATION_MS := 7 * 24 * 60 * 60 * 1000

  function Generate(c: Codec, p: Payload): string {
    Base64Url.Encode(Utf8.Encode(c.toJson(QrData(p, c.sign(p)))))
  }

  function Read(c: Codec, code: string): Option<QrData> {
    c.fromJson(Utf8.Decode(Base64Url.Decode(code)))
  }

  function Validate(c: Codec, code: string, now: int): Option<QrData> {
    match Read(c, code)
    case None => None
    case Some(d) =>
      if d.signature == "" then None
      else if now - d.payload.timestamp > EXPIRATION_MS then None
      else if c.unhex(d.signature) != c.unhex(c.sign(d.payload)) then None
      else Some(d)
  }

  lemma ReadGenerated(c: Codec, p: Payload)
    requires c.Sound()
    ensures Read(c, Generate(c, p)) == Some(QrData(p, c.sign(p)))
  {
    var json := c.toJson(QrData(p, c.sign(p)));
    Base64Url.RoundTrip(Utf8.Encode(json));
    Utf8.RoundTrip(json);
  }

  /** An issued code validates, to its own data, exactly during seven days. */
  lemma ValidateGenerated(c: Codec, p: Payload, now: int)
    requires c.Sound()
    ensures Validate(c, Generate(c, p), now)
         == if now - p.timestamp <= 604800000 then Some(QrData(p, c.sign(p))) else None
  {
    ReadGenerated(c, p);
  }

  /** What validates: a text that reads as data with a signature, at most seven days old, whose
      signature is the one of its own payload. */
  lemma ValidatesExactly(c: Codec, code: string, d: QrData, now: int)
    ensures Validate(c, code, now) == Some(d) <==>
      && c.fromJson(Utf8.Decode(Base64Url.Decode(code))) == Some(d)
      && d.signature != "" && now - d.payload.timestamp <= 604800000
      && c.unhex(d.signature) == c.unhex(c.sign(d.payload))
  {}

  /** A code whose payload was exchanged under the signature of another one is refused, unless the
      two have the same signature. */
  lemma TamperedIsRefused(c: Codec, signed: Payload, shown: Payload, now: int)
    requires c.Sound() && c.unhex(c.sign(signed)) != c.unhex(c.sign(shown))
    ensures Validate(c, Base64Url.Encode(Utf8.Encode(c.toJson(QrData(shown, c.sign(signed))))), now) == None
  {
    var json := c.toJson(QrData(shown, c.sign(signed)));
    Base64Url.RoundTrip(Utf8.Encode(json));
    Utf8.RoundTrip(json);
  }

  /** Codes of different payloads never coincide. */
  lemma GenerateInjective(c: Codec, p: Payload, q: Payload)
    requires c.Sound() && Generate(c, p) == Generate(c, q)
    ensures p == q
  {
    ReadGenerated(c, p);
    ReadGenerated(c, q);
  }
}
