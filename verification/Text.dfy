/** The string operations the services share: trimming, optional text, ASCII case. */
module Text {
  import opened Wrappers

  /** Unicode's White_Space property, which Rust's `trim` goes by. */
  predicate IsWhitespace(c: char) {
    var p := c as int;
    || 0x09 <= p <= 0x0D || p == 0x20 || p == 0x85 || p == 0xA0 || p == 0x1680
    || 0x2000 <= p <= 0x200A || p == 0x2028 || p == 0x2029 || p == 0x202F || p == 0x205F || p == 0x3000
  }

  function TrimStart(text: string): (r: string)
    ensures |r| <= |text|
    ensures r == "" || !IsWhitespace(r[0])
  {
    if text == "" || !IsWhitespace(text[0]) then text else TrimStart(text[1..])
  }

  function TrimEnd(text: string): (r: string)
    ensures r <= text
    ensures r == "" || !IsWhitespace(r[|r| - 1])
  {
    if text == "" || !IsWhitespace(text[|text| - 1]) then text else TrimEnd(text[..|text| - 1])
  }

  function Trim(text: string): (r: string)
    ensures r == "" || (!IsWhitespace(r[0]) && !IsWhitespace(r[|r| - 1]))
  {
    TrimEnd(TrimStart(text))
  }

  /** `None` for missing or blank text, otherwise the trimmed text. */
  function SanitizeOptional(value: Option<string>): (r: Option<string>)
    ensures r.Some? ==> r.value != ""
  {
    if value.None? || Trim(value.value) == "" then None else Some(Trim(value.value))
  }

  function AsciiLower(c: char): char {
    if 'A' <= c <= 'Z' then (c as int + 32) as char else c
  }

  function ToAsciiLower(text: string): (r: string)
    ensures |r| == |text|
  {
    seq(|text|, i requires 0 <= i < |text| => AsciiLower(text[i]))
  }

  predicate OccursAt(text: string, part: string, i: nat) {
    i + |part| <= |text| && text[i..i + |part|] == part
  }

  /** Rust's `str::contains`. */
  predicate Contains(text: string, part: string) {
    exists i | 0 <= i <= |text| :: OccursAt(text, part, i)
  }

  // ---------------------------------------------------------------- what these operations do

  predicate Blank(text: string) {
    forall c | c in text :: IsWhitespace(c)
  }

  predicate CutsTo(text: string, before: string, middle: string, after: string) {
    text == before + middle + after && Blank(before) && Blank(after)
  }

  lemma NothingCut(text: string)
    ensures CutsTo(text, "", text, "")
  {
    assert "" + text + "" == text;
  }

  lemma CutsMoreBefore(text: string, before: string, middle: string)
    requires text != "" && IsWhitespace(text[0]) && CutsTo(text[1..], before, middle, "")
    ensures CutsTo(text, text[..1] + before, middle, "")
  {
    assert text == text[..1] + text[1..];
    assert text[..1] + (before + middle + "") == text[..1] + before + middle + "";
  }

  lemma CutsMoreAfter(text: string, middle: string, after: string)
    requires text != "" && IsWhitespace(text[|text| - 1]) && CutsTo(text[..|text| - 1], "", middle, after)
    ensures CutsTo(text, "", middle, after + text[|text| - 1..])
  {
    assert text == text[..|text| - 1] + text[|text| - 1..];
    assert "" + middle + after + text[|text| - 1..] == "" + middle + (after + text[|text| - 1..]);
  }

  lemma {:induction false} TrimStartCuts(text: string)
    ensures exists before :: CutsTo(text, before, TrimStart(text), "")
  {
    if text == "" || !IsWhitespace(text[0]) {
      NothingCut(text);
      assert CutsTo(text, "", TrimStart(text), "");
    } else {
      TrimStartCuts(text[1..]);
      var before :| CutsTo(text[1..], before, TrimStart(text[1..]), "");
      CutsMoreBefore(text, before, TrimStart(text));
    }
  }

  lemma {:induction false} TrimEndCuts(text: string)
    ensures exists after :: CutsTo(text, "", TrimEnd(text), after)
  {
    if text == "" || !IsWhitespace(text[|text| - 1]) {
      NothingCut(text);
      assert CutsTo(text, "", TrimEnd(text), "");
    } else {
      var shorter := text[..|text| - 1];
      TrimEndCuts(shorter);
      var after :| CutsTo(shorter, "", TrimEnd(shorter), after);
      CutsMoreAfter(text, TrimEnd(text), after);
    }
  }

  /** Trimming cuts white space off both ends, and nothing else: what is left begins and ends with
      another character. */
  lemma TrimCuts(text: string)
    ensures exists before, after :: CutsTo(text, before, Trim(text), after)
    ensures Trim(text) == "" || (!IsWhitespace(Trim(text)[0]) && !IsWhitespace(Trim(text)[|Trim(text)| - 1]))
  {
    var rest := TrimStart(text);
    TrimStartCuts(text);
    TrimEndCuts(rest);
    var before :| CutsTo(text, before, rest, "");
    var after :| CutsTo(rest, "", TrimEnd(rest), after);
    assert text == before + TrimEnd(rest) + after;
    assert CutsTo(text, before, Trim(text), after);
  }

  /** The capital of a small letter, or the character itself. */
  predicate SameLetter(c: char, small: char) {
    c == small || ('a' <= small <= 'z' && c as int == small as int - 0x20)
  }

  /** The text is that word, in whatever mixture of ASCII capitals and small letters. */
  predicate Spells(text: string, word: string) {
    |text| == |word| && forall i | 0 <= i < |word| :: SameLetter(text[i], word[i])
  }

  predicate NoCapitals(text: string) {
    forall c | c in text :: !('A' <= c <= 'Z')
  }

  predicate MentionsAt(text: string, word: string, i: nat) {
    i + |word| <= |text| && Spells(text[i..i + |word|], word)
  }

  predicate Mentions(text: string, word: string) {
    exists i | 0 <= i <= |text| :: MentionsAt(text, word, i)
  }

  lemma LowersIff(text: string, word: string)
    requires NoCapitals(word)
    ensures ToAsciiLower(text) == word <==> Spells(text, word)
  {
    forall i | 0 <= i < |text| && i < |word|
      ensures ToAsciiLower(text)[i] == word[i] <==> SameLetter(text[i], word[i])
    {
      assert word[i] in word;
    }
    if ToAsciiLower(text) == word {
      assert forall i | 0 <= i < |word| :: ToAsciiLower(text)[i] == word[i];
    }
  }

  /** Looking for a word in the lowered text is looking for it in any case. */
  lemma ContainsIff(text: string, word: string)
    requires NoCapitals(word)
    ensures Contains(ToAsciiLower(text), word) <==> Mentions(text, word)
  {
    forall i | 0 <= i <= |text|
      ensures OccursAt(ToAsciiLower(text), word, i) <==> MentionsAt(text, word, i)
    {
      if i + |word| <= |text| {
        assert ToAsciiLower(text)[i..i + |word|] == ToAsciiLower(text[i..i + |word|]);
        LowersIff(text[i..i + |word|], word);
      }
    }
  }
}
