// internal/money: exact amounts in an asset's smallest unit.
module Money {
  import opened Wrappers
  import opened Text

  datatype Asset = Asset(symbol: string, decimals: nat)

  // A quantity of an asset in smallest units.
  datatype Amount = Amount(asset: Asset, units: int) {
    predicate IsZero() { units == 0 }
  }

  const BTC := Asset("BTC", 8)
  const TBTC := Asset("tBTC", 8)

  // Sign of a - b; the assets are not looked at.
  function Cmp(a: Amount, b: Amount): (c: int)
    ensures c == -1 || c == 0 || c == 1
    ensures c < 0 <==> a.units < b.units
    ensures c == 0 <==> a.units == b.units
  {
    if a.units < b.units then -1 else if a.units == b.units then 0 else 1
  }

  datatype ParseError = EmptyAmount | TooManyPlaces | InvalidAmount

  // A decimal numeral taken apart: its sign and what stands around the first point.
  datatype Numeral = Numeral(negative: bool, whole: string, fraction: string)

  function TakeApart(s: string): Numeral
    requires s != ""
  {
    var negative := s[0] == '-';
    var body := if negative then s[1..] else s;
    match Cut(body, '.')
    case None => Numeral(negative, body, "")
    case Some((whole, fraction)) => Numeral(negative, whole, fraction)
  }

  // The text of a numeral, with a point only before a fraction.
  function NumeralText(n: Numeral): string {
    var body := if n.fraction == "" then n.whole else n.whole + ['.'] + n.fraction;
    if n.negative then ['-'] + body else body
  }

  function ParseDecimal(asset: Asset, text: string): Result<Amount, ParseError> {
    var s := TrimSpace(text);
    if s == "" then Failure(EmptyAmount)
    else
      ParseNumeral(asset, TakeApart(s))
  }

  function ParseNumeral(asset: Asset, n: Numeral): Result<Amount, ParseError> {
    if |n.fraction| > asset.decimals then Failure(TooManyPlaces)
    else
      var digits := ScaledDigits(n, asset.decimals);
      if digits == "" then Failure(InvalidAmount)
      else match ScanInt(digits)
        case None => Failure(InvalidAmount)
        case Some(units) => Success(Amount(asset, if n.negative then -units else units))
  }

  // The digits handed to the integer scanner: padded on the right to the asset's precision.
  function ScaledDigits(n: Numeral, decimals: nat): string
    requires |n.fraction| <= decimals
  {
    n.whole + n.fraction + Zeros(decimals - |n.fraction|)
  }

  // Amount.String.
  function AmountText(a: Amount): string {
    var magnitude := if a.units < 0 then -a.units else a.units;
    var unsigned := UnsignedText(magnitude, a.asset.decimals);
    if a.units < 0 then "-" + unsigned else unsigned
  }

  // The magnitude's digits, filled up on the left so that a whole digit is left over.
  function Padded(magnitude: nat, decimals: nat): (s: string)
    ensures AllDigits(s) && |s| > decimals && Nat(s) == magnitude
  {
    var s := Digits(magnitude);
    if |s| <= decimals then
      NatConcat(Zeros(decimals - |s| + 1), s);
      NatZeros(decimals - |s| + 1);
      Zeros(decimals - |s| + 1) + s
    else s
  }

  function UnsignedText(magnitude: nat, decimals: nat): string {
    if decimals == 0 then Digits(magnitude)
    else
      var s := Padded(magnitude, decimals);
      s[..|s| - decimals] + ['.'] + s[|s| - decimals..]
  }

  // ---------- what is printed ----------

  // The printed magnitude is digits, and for an asset with decimals a point and
  // exactly that many digits; read without the point they denote the magnitude.
  lemma UnsignedTextShape(magnitude: nat, decimals: nat) returns (whole: string, fraction: string)
    ensures AllDigits(whole) && AllDigits(fraction) && whole != "" && |fraction| == decimals
    ensures AllDigits(whole + fraction) && Nat(whole + fraction) == magnitude
    ensures UnsignedText(magnitude, decimals) == if decimals == 0 then whole else whole + ['.'] + fraction
  {
    var s := if decimals == 0 then Digits(magnitude) else Padded(magnitude, decimals);
    whole, fraction := s[..|s| - decimals], s[|s| - decimals..];
    assert whole + fraction == s;
    if decimals == 0 {
      assert whole == s;
    }
  }

  // ---------- what is accepted ----------

  // Taking apart loses only a point with nothing after it: the sign, the text up to the
  // first point and the text after it make up the whole.
  lemma TakeApartMeaning(s: string)
    requires s != ""
    ensures var n := TakeApart(s);
            && (n.negative <==> s[0] == '-') && '.' !in n.whole
            && (s == NumeralText(n) || (n.fraction == "" && s == NumeralText(n) + ['.']))
  {
    var body := if s[0] == '-' then s[1..] else s;
    assert s[0] == '-' ==> s == ['-'] + body;
    if '.' in body {
      var n := TakeApart(s);
      assert body == n.whole + ['.'] + n.fraction;
    }
  }

  // Digits on both sides of the point; either side, or both, may be empty.
  ghost predicate IsDecimal(n: Numeral) { AllDigits(n.whole) && AllDigits(n.fraction) }

  predicate IsSign(c: char) { c == '-' || c == '+' }

  // A sign where a decimal has none, before everything else that is written, then digits
  // only; at least one, counting those filled up to the asset's precision.
  predicate InnerSigned(n: Numeral, decimals: nat) {
    var written := n.whole + n.fraction;
    && written != "" && IsSign(written[0]) && AllDigits(written[1..])
    && (|written| > 1 || |n.fraction| < decimals)
  }

  // The texts that parse: a decimal with something to read, or one with an inner sign.
  ghost predicate Accepted(n: Numeral, decimals: nat) {
    && |n.fraction| <= decimals
    && (InnerSigned(n, decimals) || (IsDecimal(n) && (n.whole != "" || decimals > 0)))
  }

  lemma ScaledValue(n: Numeral, decimals: nat)
    requires IsDecimal(n) && |n.fraction| <= decimals
    ensures AllDigits(ScaledDigits(n, decimals)) && AllDigits(n.whole + n.fraction)
    ensures Nat(ScaledDigits(n, decimals)) == Nat(n.whole + n.fraction) * Pow10(decimals - |n.fraction|)
  {
    NatConcat(n.whole + n.fraction, Zeros(decimals - |n.fraction|));
    NatZeros(decimals - |n.fraction|);
  }

  // v * 10^pad, scaled by the places written, is v * 10^decimals.
  lemma ScaleUp(v: int, pad: nat, places: nat)
    ensures (v * Pow10(pad)) * Pow10(places) == v * Pow10(pad + places)
  {
    Pow10Add(pad, places);
    MulAssociative(v, Pow10(pad), Pow10(places));
  }

  lemma MulAssociative(x: int, y: int, z: int)
    ensures (x * y) * z == x * (y * z)
  {
  }

  // The written value of a decimal numeral, in units of its last written place.
  function Written(n: Numeral): int
    requires AllDigits(n.whole + n.fraction)
  {
    var magnitude: int := Nat(n.whole + n.fraction);
    if n.negative then -magnitude else magnitude
  }

  lemma ScanScaled(n: Numeral, decimals: nat)
    requires IsDecimal(n) && |n.fraction| <= decimals && (n.whole != "" || decimals > 0)
    ensures ScaledDigits(n, decimals) != ""
    ensures ScanInt(ScaledDigits(n, decimals)) == Some(Nat(n.whole + n.fraction) * Pow10(decimals - |n.fraction|))
  {
    ScaledValue(n, decimals);
    assert IsDigit(ScaledDigits(n, decimals)[0]);
  }

  lemma ScanRefuses(n: Numeral, decimals: nat)
    requires |n.fraction| <= decimals && !Accepted(n, decimals)
    ensures ScanInt(ScaledDigits(n, decimals)) == None
  {
    var written := n.whole + n.fraction;
    var digits := ScaledDigits(n, decimals);
    if IsDecimal(n) {
      assert digits == "";
    } else {
      assert AllDigits(written) ==> IsDecimal(n) by {
        assert forall j :: 0 <= j < |n.whole| ==> written[j] == n.whole[j];
        assert forall j :: 0 <= j < |n.fraction| ==> written[|n.whole| + j] == n.fraction[j];
      }
      assert forall j :: 0 <= j < |written| ==> digits[j] == written[j];
      assert forall j :: 0 <= j < |written[1..]| ==> digits[1..][j] == written[1..][j];
      assert AllDigits(digits[1..]) ==> AllDigits(written[1..]);
    }
  }

  // The inner sign counts; with the leading minus it cancels.
  lemma ScanInner(n: Numeral, decimals: nat)
    requires |n.fraction| <= decimals && InnerSigned(n, decimals)
    ensures ScaledDigits(n, decimals) != ""
    ensures ScanInt(ScaledDigits(n, decimals)) == Some(InnerWritten(n) * Pow10(decimals - |n.fraction|))
  {
    var written, zeros := n.whole + n.fraction, Zeros(decimals - |n.fraction|);
    var digits := ScaledDigits(n, decimals);
    assert digits[0] == written[0] && digits[1..] == written[1..] + zeros;
    NatConcat(written[1..], zeros);
    NatZeros(|zeros|);
    NegateProduct(Nat(written[1..]), Pow10(|zeros|));
  }

  function InnerWritten(n: Numeral): int
    requires var s := n.whole + n.fraction; s != "" && AllDigits(s[1..])
  {
    var s := n.whole + n.fraction;
    var magnitude: int := Nat(s[1..]);
    if s[0] == '-' then -magnitude else magnitude
  }

  // What parsing does with every numeral. It refuses too many places, and beyond that
  // accepts exactly digits[.digits] with something to read, and the numerals with an inner
  // sign. Without one the units are the written value times 10^decimals, exactly; with one
  // they are the digits after it, scaled by the places the fraction leaves, with both signs.
  lemma ParseNumeralExact(asset: Asset, n: Numeral)
    ensures var r := ParseNumeral(asset, n);
            && (r == Failure(TooManyPlaces) <==> |n.fraction| > asset.decimals)
            && (r == Failure(InvalidAmount) <==> |n.fraction| <= asset.decimals && !Accepted(n, asset.decimals))
            && (r.Success? <==> Accepted(n, asset.decimals))
            && (r.Success? && !IsDecimal(n) <==> |n.fraction| <= asset.decimals && InnerSigned(n, asset.decimals))
            && (r.Success? ==> r.value.asset == asset)
            && (r.Success? && IsDecimal(n) ==>
                  && AllDigits(n.whole + n.fraction)
                  && r.value.units * Pow10(|n.fraction|) == Written(n) * Pow10(asset.decimals))
            && (r.Success? && !IsDecimal(n) ==>
                  r.value.units == (if n.negative then -InnerWritten(n) else InnerWritten(n))
                                   * Pow10(asset.decimals - |n.fraction|))
  {
    hide ScanInt, ScaledDigits, Pow10, Nat, IsDecimal, Written, InnerWritten;
    if |n.fraction| <= asset.decimals {
      var pad := asset.decimals - |n.fraction|;
      InnerIsNoDecimal(n, asset.decimals);
      if !Accepted(n, asset.decimals) {
        ScanRefuses(n, asset.decimals);
      } else if InnerSigned(n, asset.decimals) {
        ScanInner(n, asset.decimals);
        NegateProduct(InnerWritten(n), Pow10(pad));
      } else {
        ParseNumeralUnits(asset, n);
        ScaleUp(Written(n), pad, |n.fraction|);
      }
    }
  }

  lemma InnerIsNoDecimal(n: Numeral, decimals: nat)
    ensures InnerSigned(n, decimals) ==> !IsDecimal(n)
  {
    var written := n.whole + n.fraction;
    assert written != "" ==> written[0] == if n.whole != "" then n.whole[0] else n.fraction[0];
  }

  lemma ParseNumeralUnits(asset: Asset, n: Numeral)
    requires IsDecimal(n) && |n.fraction| <= asset.decimals && (n.whole != "" || asset.decimals > 0)
    ensures AllDigits(n.whole + n.fraction)
    ensures ParseNumeral(asset, n) == Success(Amount(asset, Written(n) * Pow10(asset.decimals - |n.fraction|)))
  {
    hide ScanInt, ScaledDigits, Pow10, Nat;
    ScaledValue(n, asset.decimals);
    ScanScaled(n, asset.decimals);
    NegateProduct(Nat(n.whole + n.fraction), Pow10(asset.decimals - |n.fraction|));
  }

  lemma NegateProduct(x: int, y: int)
    ensures (-x) * y == -(x * y)
  {
  }

  ghost predicate Blank(s: string) { All(IsSpace, s) }

  // So a text with white space around it parses exactly when what is between is such a
  // numeral, TakeApartMeaning says of which; and every text is of that form.
  lemma ParseDecimalAccepts(asset: Asset, before: string, s: string, after: string)
    requires Blank(before) && Blank(after)
    requires s != "" ==> !IsSpace(s[0]) && !IsSpace(s[|s| - 1])
    ensures var r := ParseDecimal(asset, before + s + after);
            && (r == Failure(EmptyAmount) <==> s == "")
            && (s != "" ==> r == ParseNumeral(asset, TakeApart(s)))
            && (r.Success? <==> s != "" && Accepted(TakeApart(s), asset.decimals))
  {
    hide ParseNumeral, TakeApart, TrimBy;
    TrimBetween(IsSpace, before, s, after);
    if s != "" {
      ParseNumeralExact(asset, TakeApart(s));
    }
  }

  lemma EveryTextIsPadded(text: string) returns (before: string, s: string, after: string)
    ensures text == before + s + after && Blank(before) && Blank(after)
    ensures s != "" ==> !IsSpace(s[0]) && !IsSpace(s[|s| - 1])
  {
    hide TrimBy;
    var i, j := TrimTakesEnds(IsSpace, text);
    before, s, after := text[..i], text[i..j], text[j..];
    assert TrimSpace(text) == s;
  }

  // Texts a reader would refuse or read otherwise: two minus signs cancel, and a sign may
  // follow the point; a sign further in is refused.
  lemma InnerSignsParse()
    ensures ParseDecimal(BTC, "--5") == Success(Amount(BTC, 5 * Pow10(8)))
    ensures ParseDecimal(BTC, ".-5") == Success(Amount(BTC, -5 * Pow10(6)))
    ensures ParseDecimal(BTC, "1-2") == Failure(InvalidAmount)
  {
    hide ParseDecimal, ParseNumeral, Pow10, TrimBy, Cut;
    assert "-5"[1..] == "5" && "5"[..0] == "" && Nat("5") == 5;
    assert "--5"[1..] == "-5";
    CutAt("", '.', "-5");
    assert ".-5" == "" + ['.'] + "-5";
    InnerText("--5", Numeral(true, "-5", ""), -5);
    InnerText(".-5", Numeral(false, "", "-5"), -5);
    SignFurtherIn();
  }

  lemma SignFurtherIn()
    ensures ParseDecimal(BTC, "1-2") == Failure(InvalidAmount)
  {
    hide ParseNumeral, TrimBy, Cut;
    var n := Numeral(false, "1-2", "");
    TrimKeeps(IsSpace, "1-2");
    assert TakeApart("1-2") == n;
    assert n.whole[1] == '-';
    ParseNumeralExact(BTC, n);
  }

  // On either network a coin is 10^8 units.
  lemma CoinsAreHundredMillion(asset: Asset)
    requires asset == BTC || asset == TBTC
    ensures ParseDecimal(asset, "1") == Success(Amount(asset, 100_000_000))
  {
    hide ParseDecimal;
    var n := Numeral(false, "1", "");
    assert "" + NumeralText(n) + "" == "1" && n.whole + n.fraction == "1" && "1"[..0] == "";
    DecimalTextParses(asset, "", n, "");
    assert Pow10(4) == 10000;
    Pow10Add(4, 4);
  }

  // A lone sign, two of them, or a lone point is zero.
  lemma LoneMarksAreZero()
    ensures ParseDecimal(BTC, "--") == ParseDecimal(BTC, "+") == Success(Amount(BTC, 0))
    ensures ParseDecimal(BTC, ".") == ParseDecimal(BTC, "-") == Success(Amount(BTC, 0))
  {
    hide ParseDecimal, ParseNumeral, Pow10, TrimBy, Cut;
    assert "--"[1..] == "-" && "-"[1..] == "";
    CutAt("", '.', "");
    assert "." == "" + ['.'] + "";
    InnerText("--", Numeral(true, "-", ""), 0);
    InnerText("+", Numeral(false, "+", ""), 0);
    NothingWritten(".");
    NothingWritten("-");
  }

  lemma InnerText(text: string, n: Numeral, value: int)
    requires text != "" && !IsSpace(text[0]) && !IsSpace(text[|text| - 1]) && TakeApart(text) == n
    requires InnerSigned(n, 8) && |n.fraction| <= 8 && InnerWritten(n) == value
    ensures ParseDecimal(BTC, text)
         == Success(Amount(BTC, (if n.negative then -value else value) * Pow10(8 - |n.fraction|)))
  {
    hide ParseNumeral, TakeApart, TrimBy, Pow10, IsSpace, Nat;
    TrimKeeps(IsSpace, text);
    InnerIsNoDecimal(n, 8);
    ParseNumeralExact(BTC, n);
  }

  lemma NothingWritten(text: string)
    requires text != "" && !IsSpace(text[0]) && !IsSpace(text[|text| - 1])
    requires TakeApart(text).whole == TakeApart(text).fraction == ""
    ensures ParseDecimal(BTC, text) == Success(Amount(BTC, 0))
  {
    hide ParseNumeral, TakeApart, TrimBy, IsSpace, Pow10;
    TrimKeeps(IsSpace, text);
    ParseNumeralUnits(BTC, TakeApart(text));
  }

  // ---------- decimal text ----------

  // Trimming leaves such text alone, and taking it apart gives the numeral back.
  lemma TakeApartText(n: Numeral)
    requires IsDecimal(n) && n.whole != ""
    ensures TrimSpace(NumeralText(n)) == NumeralText(n) != ""
    ensures TakeApart(NumeralText(n)) == n
    ensures !IsSpace(NumeralText(n)[0]) && !IsSpace(NumeralText(n)[|NumeralText(n)| - 1])
  {
    hide Cut, TrimBy;
    var body := if n.fraction == "" then n.whole else n.whole + ['.'] + n.fraction;
    PrintedBody(n.whole, n.fraction);
    var text := NumeralText(n);
    assert n.negative ==> text[1..] == body;
    assert text[|text| - 1] == body[|body| - 1];
    TrimKeeps(IsSpace, text);
  }

  lemma PrintedBody(whole: string, fraction: string)
    requires AllDigits(whole) && AllDigits(fraction) && whole != ""
    ensures var body := if fraction == "" then whole else whole + ['.'] + fraction;
            && body != "" && IsDigit(body[0]) && IsDigit(body[|body| - 1])
            && Cut(body, '.') == if fraction == "" then None else Some((whole, fraction))
  {
    CutAt(whole, '.', fraction);
  }

  // On -?digits[.digits], white space around it or not, parsing gives the written value
  // times 10^decimals, exactly, or refuses the text for having too many places.
  lemma DecimalTextParses(asset: Asset, before: string, n: Numeral, after: string)
    requires Blank(before) && Blank(after)
    requires IsDecimal(n) && n.whole != ""
    ensures AllDigits(n.whole + n.fraction)
    ensures var r := ParseDecimal(asset, before + NumeralText(n) + after);
            if |n.fraction| > asset.decimals then r == Failure(TooManyPlaces)
            else
              && r.Success? && r.value.asset == asset
              && r.value.units * Pow10(|n.fraction|) == Written(n) * Pow10(asset.decimals)
  {
    hide ParseNumeral, NumeralText, TrimSpace, TakeApart, Written, InnerSigned;
    TakeApartText(n);
    ParseDecimalAccepts(asset, before, NumeralText(n), after);
    ParseNumeralExact(asset, n);
  }

  // ---------- round trip ----------

  // An amount prints as the text of a numeral with exactly the asset's decimals.
  lemma PrintsNumeral(a: Amount) returns (n: Numeral)
    ensures AmountText(a) == NumeralText(n)
    ensures IsDecimal(n) && n.whole != "" && |n.fraction| == a.asset.decimals
    ensures AllDigits(n.whole + n.fraction) && Written(n) == a.units
  {
    hide Nat, UnsignedText;
    var magnitude := if a.units < 0 then -a.units else a.units;
    var whole, fraction := UnsignedTextShape(magnitude, a.asset.decimals);
    n := Numeral(a.units < 0, whole, fraction);
  }

  // Printing then parsing gives back every amount, of either sign and any precision, also
  // when white space got around it.
  lemma RoundTrip(a: Amount, before: string, after: string)
    requires Blank(before) && Blank(after)
    ensures ParseDecimal(a.asset, before + AmountText(a) + after) == Success(a)
  {
    hide ParseNumeral, AmountText, NumeralText, TrimSpace, TakeApart, ParseDecimal;
    var n := PrintsNumeral(a);
    TakeApartText(n);
    ParseDecimalAccepts(a.asset, before, NumeralText(n), after);
    ParseNumeralUnits(a.asset, n);
  }

  lemma RoundTripPlain(a: Amount)
    ensures ParseDecimal(a.asset, AmountText(a)) == Success(a)
  {
    hide ParseDecimal, AmountText;
    RoundTrip(a, "", "");
    assert "" + AmountText(a) + "" == AmountText(a);
  }

  // Hence the printed form identifies the amount.
  lemma AmountTextInjective(a: Amount, b: Amount)
    requires a.asset == b.asset && AmountText(a) == AmountText(b)
    ensures a == b
  {
    RoundTripPlain(a);
    RoundTripPlain(b);
  }

  // ---------- payment URIs ----------

  // scheme:address?amount=value, the form of BIP 21, section "Transfer amount/size".
  function PaymentURI(scheme: string, address: string, amount: Amount): string {
    scheme + ":" + address + "?amount=" + AmountText(amount)
  }

  // A wallet reads the value after the key that follows the first question mark.
  function URIAmount(asset: Asset, uri: string): Option<Amount> {
    match Cut(uri, '?')
    case None => None
    case Some((_, query)) =>
      match Cut(query, '=')
      case None => None
      case Some((key, value)) =>
        if key != "amount" then None
        else match ParseDecimal(asset, value)
          case Failure(_) => None
          case Success(a) => Some(a)
  }

  // The address is what stands between the scheme and the question mark.
  function URIAddress(uri: string): Option<string> {
    match Cut(uri, ':')
    case None => None
    case Some((_, rest)) =>
      match Cut(rest, '?')
      case None => None
      case Some((address, _)) => Some(address)
  }

  // So a payment URI sends exactly the amount to exactly the address it was made from.
  lemma URICarriesAmount(scheme: string, address: string, amount: Amount)
    requires ':' !in scheme && '?' !in scheme && '?' !in address
    ensures URIAmount(amount.asset, PaymentURI(scheme, address, amount)) == Some(amount)
    ensures URIAddress(PaymentURI(scheme, address, amount)) == Some(address)
  {
    hide AmountText, ParseDecimal;
    var front := scheme + ":" + address;
    var query := "amount" + ['='] + AmountText(amount);
    var uri := PaymentURI(scheme, address, amount);
    assert uri == front + ['?'] + query;
    assert uri == scheme + [':'] + (address + ['?'] + query);
    CutAt(front, '?', query);
    CutAt("amount", '=', AmountText(amount));
    CutAt(scheme, ':', address + ['?'] + query);
    CutAt(address, '?', query);
    RoundTripPlain(amount);
  }
}
