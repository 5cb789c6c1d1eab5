/** Signed webhooks: the signer's headers, the strict header parser, the canonical message and the verifier. */
module WebhookSecurity {
  import opened Common
  import opened DecimalText

  /** A byte is the character of the same code, below 256. */
  type Bytes = string

  const MAX_BODY: nat := 16 * 1024
  const WINDOW: nat := 300

  const EVENT_ID_HEADER := "x-qa-webhook-event-id"
  const TIMESTAMP_HEADER := "x-qa-webhook-timestamp"
  const SIGNATURE_HEADER := "x-qa-webhook-signature"

  datatype Error = BodyTooLarge | HeaderInvalid | OutOfWindow | SignatureInvalid | BadInput

  predicate IsBytes(b: Bytes) {
    forall i | 0 <= i < |b| :: b[i] as int < 256
  }

  /** SHA-256 and HMAC-SHA-256 of RFC 2104 section 2, left uninterpreted but for the length of their digests. */
  datatype Hashes = Hashes(sha256: Bytes -> Bytes, hmac: (Bytes, Bytes) -> Bytes) {
    ghost predicate Sound() {
      && (forall b :: |sha256(b)| == 32 && IsBytes(sha256(b)))
      && (forall k, m :: |hmac(k, m)| == 32 && IsBytes(hmac(k, m)))
    }
  }

  // ---------------------------------------------------------------------
  // Hexadecimal text
  // ---------------------------------------------------------------------

  predicate IsHexDigit(c: char) {
    IsDigit(c) || 'a' <= c <= 'f'
  }

  function HexDigit(n: nat): (c: char)
    requires n < 16
    ensures IsHexDigit(c) && HexValue(c) == n
  {
    if n < 10 then '0' + n as char else 'a' + (n - 10) as char
  }

  function HexValue(c: char): (n: nat)
    requires IsHexDigit(c)
    ensures n < 16
  {
    if IsDigit(c) then (c - '0') as nat else (c - 'a') as nat + 10
  }

  lemma HexDigitOfValue(c: char)
    requires IsHexDigit(c)
    ensures HexDigit(HexValue(c)) == c
  {
  }

  predicate IsHex(text: string) {
    forall i | 0 <= i < |text| :: IsHexDigit(text[i])
  }

  function Hex(b: Bytes): (text: string)
    requires IsBytes(b)
    ensures |text| == 2 * |b| && IsHex(text)
  {
    if b == [] then []
    else [HexDigit(b[0] as nat / 16), HexDigit(b[0] as nat % 16)] + Hex(b[1..])
  }

  function FromHex(text: string): (b: Bytes)
    requires IsHex(text) && |text| % 2 == 0
    ensures 2 * |b| == |text| && IsBytes(b)
  {
    if text == [] then []
    else [(16 * HexValue(text[0]) + HexValue(text[1])) as char] + FromHex(text[2..])
  }

  lemma {:induction false} FromHexOfHex(b: Bytes)
    requires IsBytes(b)
    ensures FromHex(Hex(b)) == b
  {
    if b != [] {
      FromHexOfHex(b[1..]);
      assert Hex(b)[2..] == Hex(b[1..]);
      assert b == [b[0]] + b[1..];
    }
  }

  lemma {:induction false} HexOfFromHex(text: string)
    requires IsHex(text) && |text| % 2 == 0
    ensures Hex(FromHex(text)) == text
  {
    if text != [] {
      var b := FromHex(text);
      HexOfFromHex(text[2..]);
      HexByte(text[0], text[1]);
      hide HexDigit, HexValue;
      assert b[1..] == FromHex(text[2..]);
      assert text == [text[0], text[1]] + text[2..];
    }
  }

  /** Two digits come back from the byte they make. */
  lemma HexByte(c: char, d: char)
    requires IsHexDigit(c) && IsHexDigit(d)
    ensures var n := 16 * HexValue(c) + HexValue(d);
            n < 256 && HexDigit(n / 16) == c && HexDigit(n % 16) == d
  {
    HexDigitOfValue(c);
    HexDigitOfValue(d);
    hide HexDigit, HexValue;
    var n := 16 * HexValue(c) + HexValue(d);
    assert n / 16 == HexValue(c) && n % 16 == HexValue(d);
  }

  // ---------------------------------------------------------------------
  // Formats
  // ---------------------------------------------------------------------

  predicate ValidEventId(text: string) {
    SafeText(text, "._:-")
  }

  /** Ten digits without a leading zero. */
  predicate ValidTimestamp(text: string) {
    |text| == 10 && text[0] != '0' && forall i | 0 <= i < 10 :: IsDigit(text[i])
  }

  predicate ValidSignature(text: string) {
    |text| == 67 && text[..3] == "v1=" && IsHex(text[3..])
  }

  predicate IsAscii(b: Bytes) {
    forall i | 0 <= i < |b| :: b[i] as int < 128
  }

  /** The verifier's check of the decimal text and the signer's check of the number accept the same timestamps. */
  lemma TimestampChecksAgree(n: int)
    ensures ValidTimestamp(Text(n)) <==> 1_000_000_000 <= n <= 9_999_999_999
  {
    if n >= 1 {
      NumberOfDecimal(n);
      DecimalLength(n, 10);
      TenDigits();
    }
  }

  lemma TenDigits()
    ensures Power10(9) == 1_000_000_000 && Power10(10) == 10_000_000_000
  {
    assert Power10(3) == 1000;
    assert Power10(6) == 1_000_000;
    assert Power10(9) == 1_000_000_000;
  }

  // ---------------------------------------------------------------------
  // Bodies
  // ---------------------------------------------------------------------

  function Joined(parts: seq<Bytes>): Bytes {
    if parts == [] then [] else Joined(parts[..|parts| - 1]) + parts[|parts| - 1]
  }

  /** Collects streamed chunks without ever holding more than its limit. */
  class RawBodyBuffer {
    const maxBytes: nat
    var parts: seq<Bytes>
    var size: nat

    ghost predicate Valid()
      reads this
    {
      1 <= maxBytes <= MAX_BODY && size == |Joined(parts)| <= maxBytes && forall p | p in parts :: p != []
    }

    constructor (maxBytes: nat)
      requires 1 <= maxBytes <= MAX_BODY
      ensures Valid() && this.maxBytes == maxBytes && Joined(parts) == []
    {
      this.maxBytes, parts, size := maxBytes, [], 0;
    }

    method Append(chunk: Bytes) returns (error: Option<Error>)
      requires Valid()
      modifies this`parts, this`size
      ensures Valid()
      ensures error.Some? <==> |old(Joined(parts))| + |chunk| > maxBytes
      ensures error.Some? ==> error.value.BodyTooLarge? && Joined(parts) == old(Joined(parts))
      ensures error.None? ==> Joined(parts) == old(Joined(parts)) + chunk
    {
      if |chunk| > maxBytes - size {
        return Some(BodyTooLarge);
      }
      if chunk != [] {
        assert (parts + [chunk])[..|parts|] == parts;
        parts := parts + [chunk];
        size := size + |chunk|;
      }
      error := None;
    }

    method Finish() returns (body: Bytes)
      requires Valid()
      ensures body == Joined(parts) && |body| <= maxBytes
    {
      body := [];
      for i := 0 to |parts|
        invariant body == Joined(parts[..i])
      {
        assert parts[..i + 1][..i] == parts[..i];
        body := body + parts[i];
      }
      assert parts[..|parts|] == parts;
    }
  }

  lemma {:induction false} PrefixIsShorter(chunks: seq<Bytes>, i: nat)
    requires i <= |chunks|
    ensures |Joined(chunks[..i])| <= |Joined(chunks)|
    decreases |chunks|
  {
    if i < |chunks| {
      PrefixIsShorter(chunks[..|chunks| - 1], i);
      assert chunks[..|chunks| - 1][..i] == chunks[..i];
    } else {
      assert chunks[..i] == chunks;
    }
  }

  /** `collect_bounded_body`: joins the chunks, or raises exactly if they are too long together. */
  method CollectBody(chunks: seq<Bytes>, maxBytes: nat) returns (result: Result<Bytes, Error>)
    requires 1 <= maxBytes <= MAX_BODY
    ensures result == if |Joined(chunks)| <= maxBytes then Ok(Joined(chunks)) else Err(BodyTooLarge)
  {
    var buffer := new RawBodyBuffer(maxBytes);
    for i := 0 to |chunks|
      invariant fresh(buffer) && buffer.Valid() && buffer.maxBytes == maxBytes
      invariant Joined(buffer.parts) == Joined(chunks[..i])
    {
      assert chunks[..i + 1][..i] == chunks[..i];
      PrefixIsShorter(chunks, i + 1);
      var error := buffer.Append(chunks[i]);
      if error.Some? {
        return Err(error.value);
      }
    }
    assert chunks[..|chunks|] == chunks;
    var body := buffer.Finish();
    result := Ok(body);
  }

  // ---------------------------------------------------------------------
  // Signing
  // ---------------------------------------------------------------------

  /** The four lines that are signed. */
  function Message(h: Hashes, timestamp: string, eventId: string, body: Bytes): Bytes
    requires IsBytes(h.sha256(body))
  {
    "v1\n" + timestamp + "\n" + eventId + "\n" + Hex(h.sha256(body))
  }

  predicate ValidSecret(secret: Bytes) {
    32 <= |secret| <= 512
  }

  /** `sign_webhook`, the verifier's own signer. */
  function SignWebhook(h: Hashes, secret: Bytes, timestamp: int, eventId: string, body: Bytes): Result<string, Error>
    requires IsBytes(h.sha256(body)) && forall m :: IsBytes(h.hmac(secret, m))
  {
    if !ValidSecret(secret) then Err(BadInput)
    else if !ValidEventId(eventId) || !ValidTimestamp(Text(timestamp)) then Err(HeaderInvalid)
    else if |body| > MAX_BODY then Err(BodyTooLarge)
    else Ok("v1=" + Hex(h.hmac(secret, Message(h, Text(timestamp), eventId, body))))
  }

  /** `sign_delivery`, the worker's signer, written independently. */
  function SignDelivery(h: Hashes, secret: Bytes, timestamp: int, eventId: string, body: Bytes): Result<string, Error>
    requires IsBytes(h.sha256(body)) && forall m :: IsBytes(h.hmac(secret, m))
  {
    if !(32 <= |secret| <= 512) then Err(BadInput)
    else if !ValidEventId(eventId) then Err(BadInput)
    else if !(1_000_000_000 <= timestamp <= 9_999_999_999) then Err(BadInput)
    else
      var digest := Hex(h.sha256(body));
      var canonical := "v1\n" + Text(timestamp) + "\n" + eventId + "\n" + digest;
      Ok("v1=" + Hex(h.hmac(secret, canonical)))
  }

  /** The two signers agree: same domain up to the body limit, same signature on it. */
  lemma SignersAgree(h: Hashes, secret: Bytes, timestamp: int, eventId: string, body: Bytes)
    requires h.Sound()
    ensures SignWebhook(h, secret, timestamp, eventId, body).Ok? <==>
            SignDelivery(h, secret, timestamp, eventId, body).Ok? && |body| <= 16_384
    ensures SignWebhook(h, secret, timestamp, eventId, body).Ok? ==>
            SignWebhook(h, secret, timestamp, eventId, body) == SignDelivery(h, secret, timestamp, eventId, body)
  {
    TimestampChecksAgree(timestamp);
  }

  /** Different signed content means a different message: no two triples share one. */
  lemma MessageIsInjective(h: Hashes, t: string, id: string, body: Bytes, t': string, id': string, body': Bytes)
    requires h.Sound() && (forall a, b | h.sha256(a) == h.sha256(b) :: a == b)
    requires ValidTimestamp(t) && ValidTimestamp(t') && ValidEventId(id) && ValidEventId(id')
    requires Message(h, t, id, body) == Message(h, t', id', body')
    ensures t == t' && id == id' && body == body'
  {
    MessageParts(h, t, id, body);
    MessageParts(h, t', id', body');
    hide Message, Hex, FromHex, ValidTimestamp, ValidEventId;
    FromHexOfHex(h.sha256(body));
    FromHexOfHex(h.sha256(body'));
  }

  /** Timestamp and digest have fixed lengths, so every part of a message has a fixed place. */
  lemma MessageParts(h: Hashes, t: string, id: string, body: Bytes)
    requires h.Sound() && ValidTimestamp(t)
    ensures var m := Message(h, t, id, body);
            && |m| == 79 + |id| && m[3..13] == t && m[14..|m| - 65] == id && m[|m| - 64..] == Hex(h.sha256(body))
  {
    var m, x := Message(h, t, id, body), Hex(h.sha256(body));
    assert |x| == 64 && |t| == 10;
    assert m == "v1\n" + t + ("\n" + id + "\n" + x);
  }

  // ---------------------------------------------------------------------
  // Headers
  // ---------------------------------------------------------------------

  type Header = (Bytes, Bytes)

  function LowerChar(c: char): char {
    if 'A' <= c <= 'Z' then c - 'A' + 'a' else c
  }

  function Lower(b: Bytes): (l: Bytes)
    ensures |l| == |b|
  {
    seq(|b|, i requires 0 <= i < |b| => LowerChar(b[i]))
  }

  datatype Parsed = Parsed(eventId: string, timestamp: nat, signature: Bytes)

  const REQUIRED := {EVENT_ID_HEADER, TIMESTAMP_HEADER, SIGNATURE_HEADER}

  predicate At(headers: seq<Header>, i: int, name: string) {
    0 <= i < |headers| && Lower(headers[i].0) == name
  }

  /** The header occurs exactly once, in any letter case, with this value. */
  ghost predicate Once(headers: seq<Header>, name: string, value: Bytes) {
    exists i :: At(headers, i, name) && headers[i].1 == value && forall j :: At(headers, j, name) ==> j == i
  }

  ghost predicate Repeated(headers: seq<Header>, name: string) {
    exists i, j :: i != j && At(headers, i, name) && At(headers, j, name)
  }

  /** What the collected values must look like. */
  function Interpreted(eventId: Bytes, timestamp: Bytes, signature: Bytes): Result<Parsed, Error> {
    if !IsAscii(eventId) || !ValidEventId(eventId) then Err(HeaderInvalid)
    else if !IsAscii(timestamp) || !ValidTimestamp(timestamp) then Err(HeaderInvalid)
    else if !IsAscii(signature) || !ValidSignature(signature) then Err(HeaderInvalid)
    else Ok(Parsed(eventId, Number(timestamp), FromHex(signature[3..])))
  }

  /** What the loop has collected: exactly the security headers so far, none of them twice. */
  ghost predicate Collected(headers: seq<Header>, selected: map<string, Bytes>) {
    && selected.Keys <= REQUIRED
    && (forall name | name in selected :: Once(headers, name, selected[name]))
    && (forall i | 0 <= i < |headers| && Lower(headers[i].0) in REQUIRED :: Lower(headers[i].0) in selected)
  }

  lemma CollectOne(headers: seq<Header>, i: nat, selected: map<string, Bytes>)
    requires i < |headers| && Collected(headers[..i], selected)
    ensures Lower(headers[i].0) !in REQUIRED ==> Collected(headers[..i + 1], selected)
    ensures Lower(headers[i].0) in REQUIRED && Lower(headers[i].0) !in selected ==>
              Collected(headers[..i + 1], selected[Lower(headers[i].0) := headers[i].1])
    ensures Lower(headers[i].0) in selected ==> Repeated(headers, Lower(headers[i].0))
  {
    hide Lower;
    var name := Lower(headers[i].0);
    var longer := headers[..i + 1];
    if name in selected {
      var k :| At(headers[..i], k, name);
      assert At(headers, k, name) && At(headers, i, name);
    } else {
      forall other | other in selected
        ensures Once(longer, other, selected[other])
      {
        OnceLonger(headers, i, other, selected[other]);
      }
      assert forall j | 0 <= j < i :: longer[j] == headers[..i][j];
      assert name in REQUIRED ==> forall j | At(longer, j, name) :: j == i;
      assert At(longer, i, name);
    }
  }

  lemma OnceLonger(headers: seq<Header>, i: nat, name: string, value: Bytes)
    requires i < |headers| && Once(headers[..i], name, value) && Lower(headers[i].0) != name
    ensures Once(headers[..i + 1], name, value)
  {
    hide Lower;
    var k :| At(headers[..i], k, name) && headers[..i][k].1 == value
    && forall j :: At(headers[..i], j, name) ==> j == k;
    var longer := headers[..i + 1];
    assert At(longer, k, name);
    forall j | At(longer, j, name)
      ensures j == k
    {
      assert At(headers[..i], j, name);
    }
  }

  /** `parse_webhook_headers`: succeeds exactly if each security header occurs once and is well formed. */
  method ParseHeaders(headers: seq<Header>) returns (result: Result<Parsed, Error>)
    ensures forall id, t, s | Once(headers, EVENT_ID_HEADER, id) && Once(headers, TIMESTAMP_HEADER, t)
                              && Once(headers, SIGNATURE_HEADER, s) ::
              result == Interpreted(id, t, s)
    ensures result.Ok? ==> exists id, t, s ::
              && Once(headers, EVENT_ID_HEADER, id) && Once(headers, TIMESTAMP_HEADER, t)
              && Once(headers, SIGNATURE_HEADER, s)
              && result == Interpreted(id, t, s)
    ensures result.Err? ==> result.error.HeaderInvalid?
  {
    hide Lower, Interpreted, Collected, Repeated, Once;
    var selected: map<string, Bytes> := map[];
    NothingCollected(headers);
    for i := 0 to |headers|
      invariant Collected(headers[..i], selected)
    {
      CollectOne(headers, i, selected);
      var name := Lower(headers[i].0);
      if name in REQUIRED {
        if name in selected {
          RepeatedIsNotOnce(headers, name);
          RequiredName(name);
          return Err(HeaderInvalid);
        }
        selected := selected[name := headers[i].1];
      }
    }
    assert headers[..|headers|] == headers;
    CollectedMeans(headers, selected);
    if selected.Keys != REQUIRED {
      return Err(HeaderInvalid);
    }
    result := Interpret(selected[EVENT_ID_HEADER], selected[TIMESTAMP_HEADER], selected[SIGNATURE_HEADER]);
    InterpretedErrors(selected[EVENT_ID_HEADER], selected[TIMESTAMP_HEADER], selected[SIGNATURE_HEADER]);
  }

  /** `_parse_event_id`, `_parse_timestamp` and `_parse_signature`; bytes outside ASCII match none of their patterns. */
  method Interpret(eventId: Bytes, timestamp: Bytes, signature: Bytes) returns (result: Result<Parsed, Error>)
    ensures result == Interpreted(eventId, timestamp, signature)
  {
    hide FromHex, Number;
    if !SafeText(eventId, "._:-") {
      return Err(HeaderInvalid);
    }
    if |timestamp| != 10 || timestamp[0] < '1' || timestamp[0] > '9'
       || exists i | 1 <= i < 10 :: timestamp[i] < '0' || timestamp[i] > '9' {
      return Err(HeaderInvalid);
    }
    if |signature| != 67 || signature[0] != 'v' || signature[1] != '1' || signature[2] != '='
       || exists i | 3 <= i < 67 ::
            !('0' <= signature[i] <= '9') && !('a' <= signature[i] <= 'f') {
      return Err(HeaderInvalid);
    }
    assert signature[..3] == "v1=" && forall i | 3 <= i < 67 :: signature[i] == signature[3..][i - 3];
    result := Ok(Parsed(eventId, Number(timestamp), FromHex(signature[3..])));
  }

  lemma NothingCollected(headers: seq<Header>)
    ensures Collected(headers[..0], map[])
  {
  }

  lemma RequiredName(name: string)
    requires name in REQUIRED
    ensures name == EVENT_ID_HEADER || name == TIMESTAMP_HEADER || name == SIGNATURE_HEADER
  {
  }

  lemma RepeatedIsNotOnce(headers: seq<Header>, name: string)
    requires Repeated(headers, name)
    ensures forall value :: !Once(headers, name, value)
  {
    hide Lower;
  }

  lemma CollectedMeans(headers: seq<Header>, selected: map<string, Bytes>)
    requires Collected(headers, selected)
    ensures forall name, value | name in REQUIRED && Once(headers, name, value) ::
              name in selected && selected[name] == value
    ensures forall name | name in selected :: Once(headers, name, selected[name])
    ensures selected.Keys <= REQUIRED
  {
    hide Lower;
    forall name, value | name in REQUIRED && Once(headers, name, value)
      ensures name in selected && selected[name] == value
    {
      var i :| At(headers, i, name) && headers[i].1 == value && forall j :: At(headers, j, name) ==> j == i;
      assert Once(headers, name, selected[name]);
      var k :| At(headers, k, name) && headers[k].1 == selected[name];
    }
  }

  lemma InterpretedErrors(id: Bytes, t: Bytes, s: Bytes)
    ensures Interpreted(id, t, s).Err? ==> Interpreted(id, t, s).error.HeaderInvalid?
  {
  }

  // ---------------------------------------------------------------------
  // Verification
  // ---------------------------------------------------------------------

  datatype Verified = Verified(eventId: string, timestamp: nat, bodySha256: string)

  /** The part of `verify` after parsing. */
  function Judged(h: Hashes, secret: Bytes, body: Bytes, p: Parsed, now: int): Result<Verified, Error>
    requires IsBytes(h.sha256(body))
  {
    if now - p.timestamp > WINDOW || p.timestamp - now > WINDOW then Err(OutOfWindow)
    else if h.hmac(secret, Message(h, Text(p.timestamp), p.eventId, body)) != p.signature then Err(SignatureInvalid)
    else Ok(Verified(p.eventId, p.timestamp, Hex(h.sha256(body))))
  }

  class WebhookVerifier {
    const secret: Bytes
    const hashes: Hashes

    constructor (secret: Bytes, hashes: Hashes)
      requires ValidSecret(secret)
      ensures this.secret == secret && this.hashes == hashes
    {
      this.secret, this.hashes := secret, hashes;
    }

    /** `verify`: `now` is the clock in whole seconds. */
    method Verify(body: Bytes, headers: seq<Header>, now: int) returns (result: Result<Verified, Error>)
      requires hashes.Sound()
      ensures |body| > 16_384 ==> result == Err(BodyTooLarge)
      ensures |body| <= 16_384 ==>
                forall id, t, s | Once(headers, EVENT_ID_HEADER, id) && Once(headers, TIMESTAMP_HEADER,
                                                                             t) && Once(headers, SIGNATURE_HEADER, s) ::
                  result == (var p :- Interpreted(id, t, s); Judged(hashes, secret, body, p, now))
      ensures result.Ok? ==> exists id, t, s ::
                && Once(headers, EVENT_ID_HEADER, id) && Once(headers, TIMESTAMP_HEADER, t)
                && Once(headers, SIGNATURE_HEADER, s)
                && Interpreted(id, t, s).Ok? && result == Judged(hashes, secret, body, Interpreted(id, t, s).value, now)
    {
      hide Once, Interpreted, Judged;
      assert Joined([body]) == body by {
        assert [body][..0] == [];
      }
      var collected :- CollectBody([body], MAX_BODY);
      var p :- ParseHeaders(headers);
      result := Check(collected, p, now);
    }

    /** The time window and the signature. */
    method Check(body: Bytes, p: Parsed, now: int) returns (result: Result<Verified, Error>)
      requires hashes.Sound()
      ensures result == Judged(hashes, secret, body, p, now)
    {
      var apart := if now < p.timestamp then p.timestamp - now else now - p.timestamp;
      if apart > 300 {
        return Err(OutOfWindow);
      }
      var digest := Hex(hashes.sha256(body));
      var expected := hashes.hmac(secret, "v1\n" + Text(p.timestamp) + "\n" + p.eventId + "\n" + digest);
      if expected != p.signature {
        return Err(SignatureInvalid);
      }
      result := Ok(Verified(p.eventId, p.timestamp, digest));
    }
  }

  // ---------------------------------------------------------------------
  // The worker's headers and the verifier
  // ---------------------------------------------------------------------

  /** The headers the worker adds to its request, in its spelling. */
  function WorkerHeaders(eventId: string, timestamp: int, signature: string): seq<Header> {
    [("Content-Type", "application/json"),
     ("X-QA-Webhook-Event-ID", eventId),
     ("X-QA-Webhook-Timestamp", Text(timestamp)),
     ("X-QA-Webhook-Signature", signature)]
  }

  /** The request carries the worker's three security headers and any other headers before, between or after them. */
  ghost predicate Carries(headers: seq<Header>, eventId: string, timestamp: int, signature: string) {
    && Once(headers, EVENT_ID_HEADER, eventId)
    && Once(headers, TIMESTAMP_HEADER, Text(timestamp))
    && Once(headers, SIGNATURE_HEADER, signature)
  }

  lemma SpellingsMatch()
    ensures Lower("X-QA-Webhook-Event-ID") == EVENT_ID_HEADER
    ensures Lower("X-QA-Webhook-Timestamp") == TIMESTAMP_HEADER
    ensures Lower("X-QA-Webhook-Signature") == SIGNATURE_HEADER
    ensures |Lower("Content-Type")| == 12
  {
  }

  lemma WorkerHeadersCarry(eventId: string, timestamp: int, signature: string)
    ensures Carries(WorkerHeaders(eventId, timestamp, signature), eventId, timestamp, signature)
  {
    SpellingsMatch();
    var headers := WorkerHeaders(eventId, timestamp, signature);
    assert |EVENT_ID_HEADER| == 21 && |TIMESTAMP_HEADER| == 22 && |SIGNATURE_HEADER| == 22;
    assert TIMESTAMP_HEADER[13] == 't' && SIGNATURE_HEADER[13] == 's';
    hide Lower;
    assert At(headers, 1, EVENT_ID_HEADER) && At(headers, 2, TIMESTAMP_HEADER) && At(headers, 3, SIGNATURE_HEADER);
  }

  /** What the worker signs parses back to the same identifier, timestamp and digest. */
  lemma WorkerHeadersParse(h: Hashes, secret: Bytes, timestamp: int, eventId: string, body: Bytes)
    requires h.Sound() && SignDelivery(h, secret, timestamp, eventId, body).Ok?
    ensures Interpreted(eventId, Text(timestamp), SignDelivery(h, secret, timestamp, eventId, body).value)
         == Ok(Parsed(eventId, timestamp, h.hmac(secret, Message(h, Text(timestamp), eventId, body))))
  {
    hide Hex, FromHex, Decimal, Number;
    var mac := h.hmac(secret, Message(h, Text(timestamp), eventId, body));
    var signature := "v1=" + Hex(mac);
    assert SignDelivery(h, secret, timestamp, eventId, body).value == signature;
    FromHexOfHex(mac);
    TimestampChecksAgree(timestamp);
    NumberOfDecimal(timestamp);
    assert signature[..3] == "v1=" && signature[3..] == Hex(mac);
  }

  /** A signed request is accepted exactly while the two clocks differ by at most 300 seconds. */
  lemma SignedRequestsAreAccepted(h: Hashes, secret: Bytes, timestamp: int, eventId: string, body: Bytes, now: int)
    requires h.Sound() && SignDelivery(h, secret, timestamp, eventId, body).Ok?
    ensures var p := Interpreted(eventId, Text(timestamp), SignDelivery(h, secret, timestamp, eventId, body).value);
            p.Ok? && (Judged(h, secret, body, p.value, now).Ok? <==> timestamp - 300 <= now <= timestamp + 300)
  {
    hide SignDelivery, Interpreted, Message, Text;
    WorkerHeadersParse(h, secret, timestamp, eventId, body);
  }

  /**
    With injective hashes the verifier accepts a signature made for one request on no other: whatever it accepts
    with that signature has the same identifier, timestamp and body.
   */
  lemma SignaturesAreNotTransferable(h: Hashes, secret: Bytes, timestamp: int, eventId: string, body: Bytes,
                                     otherTimestamp: Bytes, otherId: Bytes, otherBody: Bytes, now: int)
    requires h.Sound() && SignDelivery(h, secret, timestamp, eventId, body).Ok?
    requires (forall a, b | h.sha256(a) == h.sha256(b) :: a == b)
             && (forall a, b | h.hmac(secret, a) == h.hmac(secret, b) :: a == b)
    ensures var p := Interpreted(otherId, otherTimestamp, SignDelivery(h, secret, timestamp, eventId, body).value);
            p.Ok? && Judged(h, secret, otherBody, p.value, now).Ok? ==>
            otherId == eventId && otherTimestamp == Text(timestamp) && otherBody == body
  {
    var signature := SignDelivery(h, secret, timestamp, eventId, body).value;
    var p := Interpreted(otherId, otherTimestamp, signature);
    WorkerHeadersParse(h, secret, timestamp, eventId, body);
    hide Hex, FromHex, Decimal, Number, SignDelivery, Message;
    if p.Ok? && Judged(h, secret, otherBody, p.value, now).Ok? {
      DecimalOfNumber(otherTimestamp);
      assert Text(p.value.timestamp) == otherTimestamp;
      SignedInputs(h, secret, timestamp, eventId, body);
      MessageIsInjective(h, Text(timestamp), eventId, body, otherTimestamp, otherId, otherBody);
    }
  }

  lemma SignedInputs(h: Hashes, secret: Bytes, timestamp: int, eventId: string, body: Bytes)
    requires h.Sound() && SignDelivery(h, secret, timestamp, eventId, body).Ok?
    ensures ValidTimestamp(Text(timestamp)) && ValidEventId(eventId)
  {
    TimestampChecksAgree(timestamp);
  }
}
