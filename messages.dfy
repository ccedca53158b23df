/**
  The text the worker sends. A listing notification is the provider's
  property URL prefix followed by the identifier in decimal; the startup
  announcement is a fixed string.
*/
module Messages {
  import opened Wrappers

  /** One outbound bot message: the chat it goes to and its text. */
  datatype Outgoing = Outgoing(chatId: int, text: string)

  const PropertyUrlPrefix: string := "https://www.rightmove.co.uk/properties/"

  /** The announcement sent when the worker starts (spelling as in the program). */
  const StartupText: string := "Appliction started"

  predicate IsDigit(c: char) {
    '0' <= c <= '9'
  }

  predicate AllDigits(s: string) {
    forall i | 0 <= i < |s| :: IsDigit(s[i])
  }

  function DigitChar(d: nat): (c: char)
    requires d < 10
    ensures IsDigit(c) && (c as int) - ('0' as int) == d
  {
    (('0' as int) + d) as char
  }

  /** The decimal digits of `n`, most significant first, without leading zeros. */
  function NatDigits(n: nat): (s: string)
    ensures s != [] && AllDigits(s)
    ensures |s| > 1 ==> s[0] != '0'
  {
    if n < 10 then [DigitChar(n)] else NatDigits(n / 10) + [DigitChar(n % 10)]
  }

  /** An integer the way string interpolation renders it: a minus sign for negatives, then the digits. */
  function Decimal(n: int): (s: string)
    ensures s != []
  {
    if n < 0 then "-" + NatDigits(-n) else NatDigits(n)
  }

  /** The value of a string of decimal digits. */
  function DigitsValue(s: string): nat
    requires AllDigits(s)
  {
    if s == [] then 0
    else DigitsValue(s[..|s| - 1]) * 10 + ((s[|s| - 1] as int) - ('0' as int))
  }

  /** Reads back an optionally signed decimal integer; anything else is `None`. */
  function ParseDecimal(s: string): Option<int> {
    if |s| > 1 && s[0] == '-' && AllDigits(s[1..]) then Some(0 - DigitsValue(s[1..]) as int)
    else if s != [] && AllDigits(s) then Some(DigitsValue(s))
    else None
  }

  lemma {:induction false} NatDigitsRoundTrip(n: nat)
    ensures DigitsValue(NatDigits(n)) == n
    decreases n
  {
    if n >= 10 {
      var s := NatDigits(n);
      NatDigitsRoundTrip(n / 10);
      assert s[..|s| - 1] == NatDigits(n / 10);
    }
  }

  /** Rendering an integer in decimal loses nothing: parsing gives it back. */
  lemma DecimalRoundTrip(n: int)
    ensures ParseDecimal(Decimal(n)) == Some(n)
  {
    var s := Decimal(n);
    if n < 0 {
      NatDigitsRoundTrip(-n);
      assert s[1..] == NatDigits(-n);
    } else {
      NatDigitsRoundTrip(n);
      assert s[0] != '-';
    }
  }

  /** The notification text for listing `id`. */
  function ListingText(id: int): (t: string)
    ensures |t| > |PropertyUrlPrefix| && t[..|PropertyUrlPrefix|] == PropertyUrlPrefix
  {
    PropertyUrlPrefix + Decimal(id)
  }

  /** The identifier can be read back from the text after the URL prefix. */
  lemma ListingTextNamesListing(id: int)
    ensures ParseDecimal(ListingText(id)[|PropertyUrlPrefix|..]) == Some(id)
  {
    assert ListingText(id)[|PropertyUrlPrefix|..] == Decimal(id);
    DecimalRoundTrip(id);
  }

  /** Different listings are announced with different texts. */
  lemma ListingTextInjective(a: int, b: int)
    requires a != b
    ensures ListingText(a) != ListingText(b)
  {
    ListingTextNamesListing(a);
    ListingTextNamesListing(b);
  }
}
