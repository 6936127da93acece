// internal/webhook/signer.go and sdks/php/src/Webhook.php: one signature header, its signer
// and its two readers.
module Webhook {
  import opened Wrappers
  import opened Text
  import opened Durations

  // HMAC-SHA256 in hexadecimal, of a secret and a message; left open.
  type Mac = (string, string) -> string

  predicate IsHexDigit(c: char) { IsDigit(c) || 'a' <= c <= 'f' }

  // All that is used of it: what it prints.
  ghost predicate PrintsHex(mac: Mac) {
    forall secret, message {:trigger mac(secret, message)} ::
      mac(secret, message) != "" && forall c :: c in mac(secret, message) ==> IsHexDigit(c)
  }

  // The bytes under the signature: "<unix>.<body>".
  function Message(unix: int, body: string): string { IntText(unix) + ['.'] + body }

  // Equal messages have equal times and equal bodies, dots in the body or not.
  lemma MessageInjective(t: int, a: string, u: int, b: string)
    requires Message(t, a) == Message(u, b)
    ensures t == u && a == b
  {
    NoSeparators(t);
    NoSeparators(u);
    CutAt(IntText(t), '.', a);
    CutAt(IntText(u), '.', b);
    IntTextInjective(t, u);
  }

  lemma NoSeparators(n: int)
    ensures '.' !in IntText(n) && ',' !in IntText(n) && '=' !in IntText(n)
    ensures !IsSpace(IntText(n)[0]) && !IsSpace(IntText(n)[|IntText(n)| - 1])
  {
  }

  function Sign(mac: Mac, secret: string, unix: int, body: string): string {
    "t=" + IntText(unix) + [','] + "v1=" + mac(secret, Message(unix, body))
  }

  // ---------- reading the header ----------

  datatype Fields = Fields(timestamp: Option<string>, signature: Option<string>)

  // One part between commas; a later value for a key replaces an earlier one.
  function Absorb(space: char -> bool, f: Fields, part: string): Fields {
    match Cut(TrimBy(space, part), '=')
    case None => f
    case Some((key, value)) =>
      if key == "t" then f.(timestamp := Some(value))
      else if key == "v1" then f.(signature := Some(value))
      else f
  }

  function Collect(space: char -> bool, parts: seq<string>): Fields {
    if parts == [] then Fields(None, None)
    else Absorb(space, Collect(space, parts[..|parts| - 1]), parts[|parts| - 1])
  }

  datatype VerifyError = Malformed | InvalidTimestamp | OutsideTolerance | Mismatch

  // What Verify reads from a header: its time and its signature.
  function GoParse(header: string): Result<(int, string), VerifyError> {
    var f := Collect(IsSpace, Split(header, ','));
    if f.timestamp in {None, Some("")} || f.signature in {None, Some("")} then Failure(Malformed)
    else match ParseInt64(f.timestamp.value)
      case None => Failure(InvalidTimestamp)
      case Some(unix) => Success((unix, f.signature.value))
  }

  // ---------- tolerance ----------

  // Seconds from year 1 to 1970, which time.Unix adds in 64-bit arithmetic.
  const UNIX_TO_INTERNAL: int := 62135596800

  // The instant time.Unix(unix, 0) denotes, in nanoseconds since 1970.
  function Instant(unix: int): int { (WrapInt64(unix + UNIX_TO_INTERNAL) - UNIX_TO_INTERNAL) * SECOND }

  // time.Since: the difference, saturated to the range of a Duration.
  function Age(now: int, unix: int): int {
    var gap := now - Instant(unix);
    if gap > INT64_MAX then INT64_MAX else if gap < INT64_MIN then INT64_MIN else gap
  }

  function Magnitude(age: int): int { if age < 0 then WrapInt64(-age) else age }

  predicate WithinTolerance(now: int, unix: int, tolerance: int) {
    tolerance <= 0 || Magnitude(Age(now, unix)) <= tolerance
  }

  // The check admits exactly the times within tolerance, and besides them those so far in
  // the future that the age saturates: negating the least Duration leaves it negative.
  lemma ToleranceIff(now: int, unix: int, tolerance: int)
    requires InInt64(tolerance)
    ensures WithinTolerance(now, unix, tolerance) <==>
              || tolerance <= 0
              || tolerance == INT64_MAX
              || -tolerance <= now - Instant(unix) <= tolerance
              || now - Instant(unix) <= INT64_MIN
  {
  }

  // The instant is the time in seconds until adding the offset wraps around, and then 2^64
  // seconds earlier.
  lemma InstantWraps(unix: int)
    requires InInt64(unix)
    ensures Instant(unix) == (if unix <= INT64_MAX - UNIX_TO_INTERNAL then unix
                              else unix - 0x1_0000_0000_0000_0000) * SECOND
  {
  }

  // For times a clock can be near, that is the distance in seconds.
  lemma ToleranceNearby(now: int, unix: int, tolerance: int)
    requires InInt64(tolerance) && InInt64(unix) && unix <= INT64_MAX - UNIX_TO_INTERNAL
    requires INT64_MIN < now - unix * SECOND < INT64_MAX
    ensures WithinTolerance(now, unix, tolerance) <==>
              (tolerance <= 0 || -tolerance <= now - unix * SECOND <= tolerance)
  {
  }

  // ---------- verification ----------

  function Verdict(mac: Mac, secret: string, header: string, body: string, tolerance: int, now: int)
    : Result<(), VerifyError>
  {
    match GoParse(header)
    case Failure(e) => Failure(e)
    case Success((unix, signature)) =>
      if !WithinTolerance(now, unix, tolerance) then Failure(OutsideTolerance)
      else if mac(secret, Message(unix, body)) != signature then Failure(Mismatch)
      else Success(())
  }

  method Verify(mac: Mac, secret: string, header: string, body: string, tolerance: int, now: int)
    returns (r: Result<(), VerifyError>)
    ensures r == Verdict(mac, secret, header, body, tolerance, now)
  {
    hide Split, ParseInt64, Message, TrimBy, Cut, WrapInt64, Age, IntText;
    var tsStr, sig := "", "";
    var parts := Split(header, ',');
    ghost var f := Fields(None, None);
    var i := 0;
    while i < |parts|
      invariant 0 <= i <= |parts|
      invariant f == Collect(IsSpace, parts[..i])
      invariant tsStr == (if f.timestamp.Some? then f.timestamp.value else "")
      invariant sig == (if f.signature.Some? then f.signature.value else "")
    {
      assert parts[..i + 1][..i] == parts[..i];
      f := Absorb(IsSpace, f, parts[i]);
      var pair := Cut(TrimSpace(parts[i]), '=');
      i := i + 1;
      if pair.None? {
        continue;
      }
      var (k, v) := pair.value;
      match k {
        case "t" => tsStr := v;
        case "v1" => sig := v;
        case _ =>
      }
    }
    assert parts[..i] == parts;
    if tsStr == "" || sig == "" {
      return Failure(Malformed);
    }
    var unix := ParseInt64(tsStr);
    if unix.None? {
      return Failure(InvalidTimestamp);
    }
    if tolerance > 0 {
      var age := Age(now, unix.value);
      if age < 0 {
        age := WrapInt64(-age);
      }
      if age > tolerance {
        return Failure(OutsideTolerance);
      }
    }
    var expected := mac(secret, Message(unix.value, body));
    if expected != sig {
      return Failure(Mismatch);
    }
    r := Success(());
  }

  // Any reader whose trimming spares digits and hex digits takes a signed header apart into
  // the time's text and the signature.
  lemma SignedHeaderFields(mac: Mac, secret: string, unix: int, body: string, space: char -> bool)
    requires PrintsHex(mac)
    requires forall c :: c == 't' || c == 'v' || c == '-' || IsHexDigit(c) ==> !space(c)
    ensures Collect(space, Split(Sign(mac, secret, unix, body), ','))
         == Fields(Some(IntText(unix)), Some(mac(secret, Message(unix, body))))
  {
    hide Split, Absorb, IntText, Message, Cut;
    var time, sig := IntText(unix), mac(secret, Message(unix, body));
    NoSeparators(unix);
    var first, second := "t" + ['='] + time, "v1" + ['='] + sig;
    assert Sign(mac, secret, unix, body) == first + [','] + second;
    SplitAt(first, ',', second);
    SplitNone(second, ',');
    var parts := [first] + [second];
    assert parts[..1] == [first] && [first][..0] == [];
    AbsorbPair(space, Fields(None, None), "t", time);
    AbsorbPair(space, Fields(Some(time), None), "v1", sig);
    assert Collect(space, [first]) == Fields(Some(time), None);
  }

  lemma AbsorbPair(space: char -> bool, f: Fields, key: string, value: string)
    requires key in {"t", "v1"} && value != ""
    requires !space(key[0]) && !space(value[|value| - 1])
    ensures Absorb(space, f, key + ['='] + value)
         == if key == "t" then f.(timestamp := Some(value)) else f.(signature := Some(value))
  {
    var part := key + ['='] + value;
    TrimKeeps(space, part);
    CutAt(key, '=', value);
  }

  lemma SignedHeaderParses(mac: Mac, secret: string, unix: int, body: string)
    requires PrintsHex(mac) && InInt64(unix)
    ensures GoParse(Sign(mac, secret, unix, body)) == Success((unix, mac(secret, Message(unix, body))))
  {
    hide Split, Collect, Sign;
    SignedHeaderFields(mac, secret, unix, body, IsSpace);
    ScanPrinted(unix);
  }

  // A header signed for one body with one secret is accepted for another body with another
  // secret exactly when its time is within tolerance and the two signatures coincide.
  lemma SignedHeaderVerdict(mac: Mac, secret: string, signer: string, unix: int, sent: string, body: string,
                            tolerance: int, now: int)
    requires PrintsHex(mac) && InInt64(unix)
    ensures Verdict(mac, secret, Sign(mac, signer, unix, sent), body, tolerance, now).Success? <==>
              && WithinTolerance(now, unix, tolerance)
              && mac(secret, Message(unix, body)) == mac(signer, Message(unix, sent))
  {
    hide GoParse, WithinTolerance;
    SignedHeaderParses(mac, signer, unix, sent);
  }

  // Unless the signatures of the two messages collide, an accepted delivery is the one signed.
  lemma AcceptedMeansUntampered(mac: Mac, secret: string, unix: int, sent: string, body: string,
                                tolerance: int, now: int)
    requires PrintsHex(mac) && InInt64(unix)
    requires mac(secret, Message(unix, body)) == mac(secret, Message(unix, sent)) ==>
               Message(unix, body) == Message(unix, sent)
    ensures Verdict(mac, secret, Sign(mac, secret, unix, sent), body, tolerance, now).Success? <==>
              WithinTolerance(now, unix, tolerance) && body == sent
  {
    hide Verdict, Sign, WithinTolerance, Message;
    SignedHeaderVerdict(mac, secret, secret, unix, sent, body, tolerance, now);
    if mac(secret, Message(unix, body)) == mac(secret, Message(unix, sent)) {
      MessageInjective(unix, body, unix, sent);
    }
  }

  // ---------- the PHP reader ----------

  // PHP's trim.
  predicate PhpSpace(c: char) { c in {' ', '\t', '\n', '\r', '\0', '\U{0B}'} }

  // ctype_digit.
  predicate CtypeDigit(s: string) { s != "" && AllDigits(s) }

  // (int) of a digit string, which stops at the largest integer.
  function PhpInt(s: string): int
    requires AllDigits(s)
  {
    if Nat(s) > INT64_MAX then INT64_MAX else Nat(s)
  }

  function PhpParse(header: string): Result<(int, string), VerifyError> {
    var f := Collect(PhpSpace, Split(header, ','));
    if f.timestamp.None? || !CtypeDigit(f.timestamp.value) || f.signature.None? then Failure(Malformed)
    else Success((PhpInt(f.timestamp.value), f.signature.value))
  }

  method ParseHeader(header: string) returns (r: Result<(int, string), VerifyError>)
    ensures r == PhpParse(header)
  {
    var timestamp: Option<string>, signature: Option<string> := None, None;
    var parts := Split(header, ',');
    for i := 0 to |parts|
      invariant Fields(timestamp, signature) == Collect(PhpSpace, parts[..i])
    {
      assert parts[..i + 1][..i] == parts[..i];
      var pair := Cut(TrimBy(PhpSpace, parts[i]), '=');
      if pair.None? {
        continue;
      }
      var (key, value) := pair.value;
      if key == "t" {
        timestamp := Some(value);
      } else if key == "v1" {
        signature := Some(value);
      }
    }
    assert parts[..|parts|] == parts;
    if timestamp.None? || !CtypeDigit(timestamp.value) || signature.None? {
      return Failure(Malformed);
    }
    r := Success((PhpInt(timestamp.value), signature.value));
  }

  // $timestamp . '.' . $payload.
  function PhpMessage(timestamp: int, payload: string): string { IntText(timestamp) + "." + payload }

  lemma SameMessage(unix: int, body: string)
    ensures PhpMessage(unix, body) == Message(unix, body)
  {
  }

  // verifySignature, with the clock in whole seconds.
  function PhpVerdict(mac: Mac, secret: string, header: string, body: string, tolerance: int, seconds: int)
    : Result<(), VerifyError>
  {
    match PhpParse(header)
    case Failure(e) => Failure(e)
    case Success((unix, signature)) =>
      if tolerance > 0 && (seconds - unix > tolerance || unix - seconds > tolerance) then Failure(OutsideTolerance)
      else if mac(secret, PhpMessage(unix, body)) != signature then Failure(Mismatch)
      else Success(())
  }

  method VerifySignature(mac: Mac, body: string, header: string, secret: string, tolerance: int, seconds: int)
    returns (r: Result<(), VerifyError>)
    ensures r == PhpVerdict(mac, secret, header, body, tolerance, seconds)
  {
    var parsed := ParseHeader(header);
    if parsed.Failure? {
      return Failure(parsed.error);
    }
    var (timestamp, signature) := parsed.value;
    var distance := if seconds >= timestamp then seconds - timestamp else timestamp - seconds;
    if tolerance > 0 && distance > tolerance {
      return Failure(OutsideTolerance);
    }
    if mac(secret, PhpMessage(timestamp, body)) != signature {
      return Failure(Mismatch);
    }
    r := Success(());
  }

  // A header without the rarer white space, which the two languages trim differently.
  ghost predicate PlainHeader(header: string) { forall c :: c in header ==> IsSpace(c) == PhpSpace(c) }

  // In ASCII they differ in the form feed, which only Go trims, and NUL, which only PHP does.
  lemma SpacesDiffer(c: char)
    requires c < '\U{80}'
    ensures IsSpace(c) == PhpSpace(c) <==> c != '\U{0C}' && c != '\0'
    ensures IsSpace('\U{0C}') && PhpSpace('\0')
  {
  }

  lemma {:induction false} CollectAgrees(parts: seq<string>)
    requires forall p :: p in parts ==> PlainHeader(p)
    ensures Collect(IsSpace, parts) == Collect(PhpSpace, parts)
  {
    if parts != [] {
      var n := |parts| - 1;
      assert parts[n] in parts;
      CollectAgrees(parts[..n]);
      TrimAgrees(IsSpace, PhpSpace, parts[n]);
    }
  }

  lemma FieldsAgree(header: string)
    requires PlainHeader(header)
    ensures Collect(IsSpace, Split(header, ',')) == Collect(PhpSpace, Split(header, ','))
  {
    CollectAgrees(Split(header, ','));
  }

  // What the Go reader takes from a plain header the PHP reader takes too, exactly when the
  // time is written without a sign; and what PHP takes Go takes, exactly when the signature
  // is not empty and the time fits 64 bits; PHP reads a longer time as the largest integer.
  lemma ReadersAgree(header: string)
    requires PlainHeader(header)
    ensures var f := Collect(IsSpace, Split(header, ','));
            && (GoParse(header).Success? || PhpParse(header).Success? ==> f.timestamp.Some?)
            && (GoParse(header).Success? ==>
                  (PhpParse(header) == GoParse(header) <==> AllDigits(f.timestamp.value)))
            && (PhpParse(header).Success? ==>
                  && AllDigits(f.timestamp.value)
                  && (var n := Nat(f.timestamp.value);
                      PhpParse(header).value.0 == if n <= INT64_MAX then n else INT64_MAX)
                  && (GoParse(header) == PhpParse(header) <==>
                        PhpParse(header).value.1 != "" && Nat(f.timestamp.value) <= INT64_MAX))
  {
    hide Collect, Split;
    FieldsAgree(header);
    var f := Collect(IsSpace, Split(header, ','));
    if f.timestamp.Some? && f.timestamp.value != "" {
      ScanDigits(f.timestamp.value);
    }
  }

  lemma ScanDigits(s: string)
    requires s != ""
    ensures AllDigits(s) ==> ScanInt(s) == Some(Nat(s))
  {
  }

  // On a signed header PHP reads the same time and signature as Go when the time is not
  // before 1970, and refuses the header otherwise.
  lemma PhpReadsSignedHeader(mac: Mac, secret: string, unix: int, body: string)
    requires PrintsHex(mac) && InInt64(unix)
    ensures var header := Sign(mac, secret, unix, body);
            PhpParse(header) == if unix >= 0 then GoParse(header) else Failure(Malformed)
  {
    hide Collect, Split, Sign;
    SignedHeaderFields(mac, secret, unix, body, PhpSpace);
    SignedHeaderParses(mac, secret, unix, body);
    var text := IntText(unix);
    if unix >= 0 {
      assert Nat(text) == unix;
    } else {
      assert !IsDigit(text[0]);
    }
  }

  // The PHP reader is never stricter than Go about a signed delivery, and more lenient by
  // less than a second, which its clock rounds away.
  lemma PhpLenientByUnderASecond(mac: Mac, secret: string, signer: string, unix: int, sent: string, body: string,
                                 tolerance: int, now: int)
    requires PrintsHex(mac) && 0 <= unix <= INT64_MAX - UNIX_TO_INTERNAL
    requires 0 <= tolerance && InInt64((tolerance + 1) * SECOND)
    requires INT64_MIN < now - unix * SECOND < INT64_MAX
    ensures var header := Sign(mac, signer, unix, sent);
            var php := PhpVerdict(mac, secret, header, body, tolerance, now / SECOND).Success?;
            && (Verdict(mac, secret, header, body, tolerance * SECOND, now).Success? ==> php)
            && (php ==> Verdict(mac, secret, header, body,
                                if tolerance == 0 then 0 else (tolerance + 1) * SECOND, now).Success?)
  {
    hide Sign, GoParse, PhpParse, WithinTolerance, Message, PhpMessage;
    SameMessage(unix, body);
    SignedHeaderParses(mac, signer, unix, sent);
    PhpReadsSignedHeader(mac, signer, unix, sent);
    ToleranceNearby(now, unix, tolerance * SECOND);
    ToleranceNearby(now, unix, if tolerance == 0 then 0 else (tolerance + 1) * SECOND);
  }
}
