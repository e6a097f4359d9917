/** Currencies as the API holds them, and the text column they are stored in. */
module Money {
  import opened Wrappers

  datatype Currency = Usdc | Fiat(code: string) {
    function AsStr(): string {
      match this
      case Usdc => "USDC"
      case Fiat(code) => code
    }
  }

  /** The number of bytes of one character in UTF-8, which is what Rust's `str::len` counts. */
  function Utf8Width(c: char): nat {
    var point := c as int;
    if point < 0x80 then 1 else if point < 0x800 then 2 else if point < 0x1_0000 then 3 else 4
  }

  function Utf8Len(text: string): nat {
    if text == "" then 0 else Utf8Width(text[0]) + Utf8Len(text[1..])
  }

  /** Reading a currency column back: `None` is the repository error that aborts the transaction. */
  function Parse(text: string): Option<Currency> {
    if text == "USDC" then Some(Usdc)
    else if Utf8Len(text) == 3 then Some(Fiat(text))
    else None
  }

  /** The currencies that come back from the column as they went in. */
  predicate Canonical(currency: Currency) {
    match currency
    case Usdc => true
    case Fiat(code) => Utf8Len(code) == 3
  }

  /** A stored currency reads back as itself exactly when it is canonical. The one value that
      parses but changes on the way is `Fiat("USDC")`. */
  lemma RoundTripIffCanonical(currency: Currency)
    ensures Parse(currency.AsStr()) == Some(currency) <==> Canonical(currency)
    ensures Parse(currency.AsStr()).Some? && !Canonical(currency) ==> currency == Fiat("USDC")
  {
    assert Utf8Len("USDC") == 4 by {
      assert "USDC"[1..] == "SDC" && "SDC"[1..] == "DC" && "DC"[1..] == "C" && "C"[1..] == "";
    }
  }

  /** Everything read from the column is canonical and keeps its text. */
  lemma ParsedIsCanonical(text: string)
    requires Parse(text).Some?
    ensures Canonical(Parse(text).value) && Parse(text).value.AsStr() == text
  {
  }

  lemma {:induction false} AsciiLen(text: string)
    requires forall i | 0 <= i < |text| :: text[i] as int < 0x80
    ensures Utf8Len(text) == |text|
  {
    if text != "" { AsciiLen(text[1..]); }
  }

  /** Of the ASCII texts exactly "USDC" and those of three characters are currencies. */
  lemma AsciiCurrencies(text: string)
    requires forall i | 0 <= i < |text| :: text[i] as int < 0x80
    ensures Parse(text) == if text == "USDC" then Some(Usdc) else if |text| == 3 then Some(Fiat(text)) else None
  {
    AsciiLen(text);
  }
}
