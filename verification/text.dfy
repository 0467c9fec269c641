/** Numbers, lines and fields as the manifest writes and reads them. */
module Texts {
  import opened Octets
  import opened Bytes

  function Digit(d: nat): char
    requires d < 16
  {
    if d < 10 then ('0' as int + d) as char else ('a' as int + d - 10) as char
  }

  /** The value of a digit; 16 for anything else. */
  function ValueOf(c: char): nat {
    if '0' <= c <= '9' then c as int - '0' as int
    else if 'a' <= c <= 'f' then c as int - 'a' as int + 10
    else if 'A' <= c <= 'F' then c as int - 'A' as int + 10
    else 16
  }

  lemma DigitRoundTrip(d: nat)
    requires d < 16
    ensures ValueOf(Digit(d)) == d
  {}

  /** `n` in a base, most significant digit first; zero is one digit. */
  function Print(n: nat, radix: nat): (s: string)
    requires 2 <= radix <= 16
    ensures |s| > 0
  {
    if n < radix then [Digit(n)] else Print(n / radix, radix) + [Digit(n % radix)]
  }

  function Zeros(n: nat): (s: string)
    ensures |s| == n
  {
    seq(n, i => '0')
  }

  /** Padded with zeros to at least `width`. */
  function Padded(n: nat, radix: nat, width: nat): (s: string)
    requires 2 <= radix <= 16
    ensures |s| > 0
  {
    var s := Print(n, radix);
    if |s| < width then Zeros(width - |s|) + s else s
  }

  predicate AllDigits(s: string, radix: nat) {
    forall i :: 0 <= i < |s| ==> ValueOf(s[i]) < radix
  }

  function DigitsValue(s: string, radix: nat): nat {
    if |s| == 0 then 0 else DigitsValue(s[..|s| - 1], radix) * radix + ValueOf(s[|s| - 1])
  }

  /** Rust's integer parsing: an optional plus sign, then digits, within the type's range. */
  function ParseNumber(s: string, radix: nat, limit: nat): Option<nat> {
    var digits := if |s| > 0 && s[0] == '+' then s[1..] else s;
    if |digits| == 0 || !AllDigits(digits, radix) || DigitsValue(digits, radix) >= limit then None
    else Some(DigitsValue(digits, radix))
  }

  lemma AppendDigit(s: string, c: char, radix: nat)
    requires AllDigits(s, radix) && ValueOf(c) < radix
    ensures AllDigits(s + [c], radix) && DigitsValue(s + [c], radix) == DigitsValue(s, radix) * radix + ValueOf(c)
  {
    hide ValueOf;
    assert (s + [c])[..|s|] == s;
  }

  lemma QuotientAndRemainder(n: nat, radix: nat)
    requires radix > 0
    ensures n / radix * radix + n % radix == n && 0 <= n % radix < radix
  {}

  lemma {:induction false} PrintIsDigits(n: nat, radix: nat)
    requires 2 <= radix <= 16
    ensures AllDigits(Print(n, radix), radix) && DigitsValue(Print(n, radix), radix) == n
    decreases n
  {
    hide ValueOf, Digit, DigitsValue, AllDigits;
    if n < radix {
      DigitRoundTrip(n);
      NoDigits(radix);
      AppendDigit("", Digit(n), radix);
      assert "" + [Digit(n)] == [Digit(n)];
    } else {
      PrintIsDigits(n / radix, radix);
      QuotientAndRemainder(n, radix);
      DigitRoundTrip(n % radix);
      AppendDigit(Print(n / radix, radix), Digit(n % radix), radix);
    }
  }

  lemma NoDigits(radix: nat)
    ensures AllDigits("", radix) && DigitsValue("", radix) * radix == 0
  {}

  lemma {:induction false} LeadingZeros(zeros: nat, s: string, radix: nat)
    requires AllDigits(s, radix) && radix > 0
    ensures AllDigits(Zeros(zeros) + s, radix) && DigitsValue(Zeros(zeros) + s, radix) == DigitsValue(s, radix)
    decreases |s|, zeros
  {
    var z := Zeros(zeros) + s;
    if |s| > 0 {
      assert z[..|z| - 1] == Zeros(zeros) + s[..|s| - 1];
      LeadingZeros(zeros, s[..|s| - 1], radix);
    } else if zeros > 0 {
      assert z[..|z| - 1] == Zeros(zeros - 1) + s;
      LeadingZeros(zeros - 1, s, radix);
    }
  }

  lemma PaddedIsDigits(n: nat, radix: nat, width: nat)
    requires 2 <= radix <= 16
    ensures AllDigits(Padded(n, radix, width), radix) && DigitsValue(Padded(n, radix, width), radix) == n
  {
    PrintIsDigits(n, radix);
    var s := Print(n, radix);
    if |s| < width { LeadingZeros(width - |s|, s, radix); }
  }

  /** Every printed number parses back, padded or not. */
  lemma NumberRoundTrip(n: nat, radix: nat, width: nat, limit: nat)
    requires 2 <= radix <= 16 && n < limit
    ensures ParseNumber(Padded(n, radix, width), radix, limit) == Some(n)
  {
    PaddedIsDigits(n, radix, width);
    assert ValueOf('+') == 16;
  }

  lemma UnpaddedRoundTrip(n: nat, limit: nat)
    requires n < limit
    ensures ParseNumber(Print(n, 10), 10, limit) == Some(n)
  {
    PrintIsDigits(n, 10);
    assert ValueOf('+') == 16;
  }

  // ---------------------------------------------------------------------
  // Lines and fields
  // ---------------------------------------------------------------------

  predicate IsSpace(c: char) {
    c == ' ' || c == '\t' || c == '\n' || c == '\r' || c as int == 11 || c as int == 12
  }

  /** A run of characters that splitting at whitespace keeps whole. */
  predicate IsWord(s: string) {
    |s| > 0 && forall i :: 0 <= i < |s| ==> !IsSpace(s[i])
  }

  function Find(s: string, c: char): (i: nat)
    ensures i <= |s| && (i < |s| ==> s[i] == c) && forall j :: 0 <= j < i ==> s[j] != c
  {
    if |s| == 0 || s[0] == c then 0 else 1 + Find(s[1..], c)
  }

  function WithoutReturn(line: string): string {
    if |line| > 0 && line[|line| - 1] == '\r' then line[..|line| - 1] else line
  }

  /** Rust's `lines`: ends are newlines, with a carriage return before one dropped. */
  function Lines(s: string): seq<string>
    decreases |s|
  {
    if |s| == 0 then []
    else
      var end := Find(s, '\n');
      if end == |s| then [s] else [WithoutReturn(s[..end])] + Lines(s[end + 1..])
  }

  function WordLength(s: string): (n: nat)
    ensures n <= |s| && (n < |s| ==> IsSpace(s[n])) && forall j :: 0 <= j < n ==> !IsSpace(s[j])
  {
    if |s| == 0 || IsSpace(s[0]) then 0 else 1 + WordLength(s[1..])
  }

  /** Rust's `split_whitespace`. */
  function Fields(s: string): seq<string>
    decreases |s|
  {
    if |s| == 0 then []
    else if IsSpace(s[0]) then Fields(s[1..])
    else [s[..WordLength(s)]] + Fields(s[WordLength(s)..])
  }

  function Trim(s: string): string {
    TrimEnd(TrimStart(s))
  }

  function TrimStart(s: string): string {
    if |s| > 0 && IsSpace(s[0]) then TrimStart(s[1..]) else s
  }

  function TrimEnd(s: string): string {
    if |s| > 0 && IsSpace(s[|s| - 1]) then TrimEnd(s[..|s| - 1]) else s
  }

  predicate IsLine(s: string) {
    (forall i :: 0 <= i < |s| ==> s[i] != '\n') && (|s| > 0 ==> s[|s| - 1] != '\r')
  }

  lemma FirstLine(line: string, rest: string)
    requires IsLine(line)
    ensures Lines(line + "\n" + rest) == [line] + Lines(rest)
  {
    var s := line + "\n" + rest;
    assert s[|line|] == '\n';
    assert forall j :: 0 <= j < |line| ==> s[j] == line[j];
    assert Find(s, '\n') == |line|;
    assert s[..|line|] == line && s[|line| + 1..] == rest;
  }

  lemma FirstField(word: string, rest: string)
    requires IsWord(word)
    ensures Fields(word + " " + rest) == [word] + Fields(rest)
  {
    var s := word + " " + rest;
    assert s[|word|] == ' ';
    assert forall j :: 0 <= j < |word| ==> s[j] == word[j];
    assert WordLength(s) == |word|;
    assert s[..|word|] == word && s[|word|..] == " " + rest;
    assert (" " + rest)[1..] == rest;
  }

  lemma OnlyField(word: string)
    requires IsWord(word)
    ensures Fields(word) == [word]
  {
    assert WordLength(word) == |word|;
    assert word[..|word|] == word && Fields(word[|word|..]) == [];
  }

  /** Words joined by single spaces. */
  function Joined(words: seq<string>): string {
    if |words| == 0 then "" else if |words| == 1 then words[0] else words[0] + " " + Joined(words[1..])
  }

  lemma {:induction false} FieldsOfJoined(words: seq<string>)
    requires forall i :: 0 <= i < |words| ==> IsWord(words[i])
    ensures Fields(Joined(words)) == words
  {
    if |words| == 0 {
    } else if |words| == 1 {
      OnlyField(words[0]);
      assert words == [words[0]];
    } else {
      FieldsOfJoined(words[1..]);
      FirstField(words[0], Joined(words[1..]));
      assert words == [words[0]] + words[1..];
    }
  }

  lemma {:induction false} JoinedIsLine(words: seq<string>)
    requires forall i :: 0 <= i < |words| ==> IsWord(words[i])
    ensures IsLine(Joined(words))
  {
    if |words| > 1 {
      JoinedIsLine(words[1..]);
      JoinedNonEmpty(words[1..]);
    }
  }

  lemma JoinedNonEmpty(words: seq<string>)
    requires |words| > 0 && IsWord(words[0])
    ensures |Joined(words)| > 0
  {}

  lemma DigitsAreWord(s: string, radix: nat)
    requires |s| > 0 && AllDigits(s, radix) && radix <= 16
    ensures IsWord(s)
  {
    forall i | 0 <= i < |s| ensures !IsSpace(s[i]) { assert ValueOf(s[i]) < 16; }
  }
}
