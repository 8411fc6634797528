/**
 * EAN-13 barcodes for route cards: the GS1 mod-10 check digit (section 7.9.1
 * of the GS1 General Specifications: weights 1 and 3 alternating from the
 * left over the first twelve digits), codes built from a running sequence
 * number, the next free sequence number, and the search for a barcode no
 * card uses yet. The browser and the server carry the same algorithm; the
 * browser refuses a base that is not twelve digits, the server does not.
 */
module Ean13 {
  import opened Records
  import opened Decimal

  datatype Result<T> = Success(value: T) | Failure(error: string)

  /** The weight of the digit at (0-based) position `i`: 1, 3, 1, 3, ... */
  function Weight(i: nat): nat {
    if i % 2 == 1 then 3 else 1
  }

  /** The weighted digit sum of a digit string, weights counted from the left. */
  function WeightedSum(s: string): nat
    requires AllDigits(s)
  {
    if s == [] then 0 else WeightedSum(s[..|s| - 1]) + Weight(|s| - 1) * DigitValue(s[|s| - 1])
  }

  /** The check digit that makes the weighted sum of all thirteen digits a multiple of ten. */
  function CheckDigitOf(base: string): (d: nat)
    requires AllDigits(base)
    ensures d < 10
  {
    (10 - WeightedSum(base) % 10) % 10
  }

  /** A valid EAN-13 code: thirteen digits whose weighted sum is a multiple of ten. */
  predicate Ean13Valid(code: string) {
    |code| == 13 && AllDigits(code) && WeightedSum(code) % 10 == 0
  }

  lemma WeightedSumSnoc(base: string, c: char)
    requires AllDigits(base) && IsDigit(c)
    ensures AllDigits(base + [c])
    ensures WeightedSum(base + [c]) == WeightedSum(base) + Weight(|base|) * DigitValue(c)
  {
    var s := base + [c];
    assert s[..|s| - 1] == base;
  }

  /** The weighted sum over one more digit of a digit string. */
  lemma WeightedSumStep(s: string, i: nat)
    requires AllDigits(s) && i < |s|
    ensures AllDigits(s[..i]) && AllDigits(s[..i + 1])
    ensures WeightedSum(s[..i + 1]) == WeightedSum(s[..i]) + Weight(i) * DigitValue(s[i])
  {
    assert s[..i + 1][..i] == s[..i];
  }

  /** A digit added to `w` makes a multiple of ten exactly when it is ten's complement of `w`'s last digit. */
  lemma ModTenComplement(w: nat, d: nat)
    requires d < 10
    ensures (w + d) % 10 == 0 <==> d == (10 - w % 10) % 10
  {
    var q, r := w / 10, w % 10;
    if r + d < 10 {
      ModOfTen(w + d, q, r + d);
    } else {
      ModOfTen(w + d, q + 1, r + d - 10);
    }
  }

  lemma ModOfTen(x: int, k: int, b: int)
    requires x == k * 10 + b && 0 <= b < 10
    ensures x % 10 == b
  {
  }

  /** Appending the check digit to twelve digits gives a valid code, and no other digit does. */
  lemma CheckDigitValid(base: string, d: nat)
    requires |base| == 12 && AllDigits(base) && d < 10
    ensures Ean13Valid(base + [DigitChar(d)]) <==> d == CheckDigitOf(base)
  {
    WeightedSumSnoc(base, DigitChar(d));
    assert Weight(12) == 1;
    ModTenComplement(WeightedSum(base), d);
  }

  /**
   * `computeEAN13CheckDigit` in the browser: refuses a base that is not
   * exactly twelve digits; otherwise sums the odd and even positions.
   */
  method ComputeCheckDigit(base12: string) returns (r: Result<string>)
    ensures r.Failure? <==> !(|base12| == 12 && AllDigits(base12))
    ensures r.Success? ==> r.value == [DigitChar(CheckDigitOf(base12))]
  {
    if !(|base12| == 12 && AllDigits(base12)) {
      return Failure("Базовый код для EAN-13 должен содержать 12 цифр");
    }
    var sumEven := 0;
    var sumOdd := 0;
    for i := 0 to 12
      invariant sumOdd + 3 * sumEven == WeightedSum(base12[..i])
    {
      var digit := DigitValue(base12[i]);
      WeightedSumStep(base12, i);
      if (i + 1) % 2 == 0 {
        sumEven := sumEven + digit;
      } else {
        sumOdd := sumOdd + digit;
      }
    }
    assert base12[..12] == base12;
    var total := sumOdd + sumEven * 3;
    assert total == WeightedSum(base12);
    var check := (10 - total % 10) % 10;
    return Success([DigitChar(check)]);
  }

  /**
   * `computeEAN13CheckDigit` on the server: no guard. It reads the first
   * twelve characters; a missing or non-digit one makes the sum NaN, which
   * is written out as "NaN".
   */
  method ServerCheckDigit(base12: string) returns (r: string)
    ensures |base12| >= 12 && AllDigits(base12[..12]) ==> r == [DigitChar(CheckDigitOf(base12[..12]))]
    ensures !(|base12| >= 12 && AllDigits(base12[..12])) ==> r == "NaN"
  {
    var sumEven := 0;
    var sumOdd := 0;
    var isNaN := false;
    for i := 0 to 12
      invariant !isNaN ==> i <= |base12| && AllDigits(base12[..i]) && sumOdd + 3 * sumEven == WeightedSum(base12[..i])
      invariant isNaN <==> !(i <= |base12| && AllDigits(base12[..i]))
    {
      if !isNaN && i < |base12| && IsDigit(base12[i]) {
        var digit := DigitValue(base12[i]);
        assert base12[..i + 1][..i] == base12[..i];
        if (i + 1) % 2 == 0 {
          sumEven := sumEven + digit;
        } else {
          sumOdd := sumOdd + digit;
        }
      } else {
        if !isNaN && i < |base12| {
          assert !IsDigit(base12[..i + 1][i]);
        }
        isNaN := true;
      }
    }
    if isNaN {
      return "NaN";
    }
    var total := sumOdd + sumEven * 3;
    return [DigitChar((10 - total % 10) % 10)];
  }

  /** `String(Math.max(0, n)).padStart(12, '0')`. */
  function SequenceBase(n: int): (base: string)
    ensures AllDigits(base) && |base| >= 12
    ensures ValueOf(base) == if n < 0 then 0 else n
  {
    var m: nat := if n < 0 then 0 else n;
    PaddedValue(m, 12);
    PadStart(NatToString(m), 12, '0')
  }

  /** `buildEAN13FromSequence` on the server: the padded sequence number and its check digit. */
  function BuildEAN13FromSequence(n: int): (code: string)
  {
    var base := SequenceBase(n);
    base + [DigitChar(CheckDigitOf(base[..12]))]
  }

  /** `buildEAN13FromSequence` in the browser: fails once the number no longer fits in twelve digits. */
  function BuildEAN13FromSequenceChecked(n: int): (r: Result<string>)
    ensures r.Success? <==> n < Pow10(12)
    ensures r.Success? ==> r.value == BuildEAN13FromSequence(n)
  {
    var base := SequenceBase(n);
    if n >= Pow10(12) then
      ValueOfBound(base);
      assert |base| != 12;
      Failure("Базовый код для EAN-13 должен содержать 12 цифр")
    else
      SequenceFits(n);
      assert base[..12] == base;
      Success(base + [DigitChar(CheckDigitOf(base))])
  }

  lemma SequenceFits(n: int)
    requires n < Pow10(12)
    ensures |SequenceBase(n)| == 12
  {
    var m: nat := if n < 0 then 0 else n;
    NatToStringLength(m, 12);
  }

  /**
   * For `0 <= n < 10^12` the code is thirteen digits, valid, and its first
   * twelve read back as `n`; a negative number is treated as 0.
   */
  lemma BuildEAN13Facts(n: int)
    requires n < Pow10(12)
    ensures var code := BuildEAN13FromSequence(n);
      && |code| == 13 && Ean13Valid(code)
      && AllDigits(code[..12]) && ValueOf(code[..12]) == (if n < 0 then 0 else n)
    ensures n < 0 ==> BuildEAN13FromSequence(n) == BuildEAN13FromSequence(0)
  {
    SequenceFits(n);
    var base := SequenceBase(n);
    assert base[..12] == base;
    var code := BuildEAN13FromSequence(n);
    assert code[..12] == base;
    CheckDigitValid(base, CheckDigitOf(base));
  }

  /** Distinct sequence numbers below 10^12 give distinct codes. */
  lemma BuildEAN13Injective(a: nat, b: nat)
    requires a < Pow10(12) && b < Pow10(12) && a != b
    ensures BuildEAN13FromSequence(a) != BuildEAN13FromSequence(b)
  {
    BuildEAN13Facts(a);
    BuildEAN13Facts(b);
  }

  /** `/^\d{13}$/`. */
  predicate IsEanShaped(barcode: string) {
    |barcode| == 13 && AllDigits(barcode)
  }

  /** The sequence number in a well-formed barcode. */
  function PrefixValue(barcode: string): nat
    requires IsEanShaped(barcode)
  {
    ValueOf(barcode[..12])
  }

  /** The largest sequence number among the cards' well-formed barcodes, 0 if none. */
  function MaxSequence(cards: seq<Card>): (m: nat)
    ensures forall k :: 0 <= k < |cards| && IsEanShaped(cards[k].barcode) ==> PrefixValue(cards[k].barcode) <= m
    ensures m == 0 || exists k :: 0 <= k < |cards| && IsEanShaped(cards[k].barcode) && PrefixValue(cards[k].barcode) == m
  {
    if cards == [] then 0
    else
      var rest := MaxSequence(cards[..|cards| - 1]);
      var last := cards[|cards| - 1];
      assert forall k :: 0 <= k < |cards| - 1 ==> cards[k] == cards[..|cards| - 1][k];
      if IsEanShaped(last.barcode) && PrefixValue(last.barcode) > rest then PrefixValue(last.barcode) else rest
  }

  /** `getNextEANSequence`: one past the largest sequence number in use. */
  function NextEANSequence(cards: seq<Card>): (n: nat)
    ensures n >= 1
    ensures forall k :: 0 <= k < |cards| && IsEanShaped(cards[k].barcode) ==> PrefixValue(cards[k].barcode) < n
  {
    MaxSequence(cards) + 1
  }

  predicate BarcodeInUse(cards: seq<Card>, code: string) {
    exists k :: 0 <= k < |cards| && cards[k].barcode == code
  }

  /** The code tried at the given attempt: `attempt` past the next free sequence number. */
  function Candidate(cards: seq<Card>, attempt: nat): string {
    BuildEAN13FromSequence(NextEANSequence(cards) + attempt)
  }

  /**
   * `generateUniqueEAN13`: tries up to 1000 sequence numbers from the next
   * free one and returns the first code no card uses; after 1000 misses it
   * returns the next candidate unchecked.
   */
  method GenerateUniqueEAN13(cards: seq<Card>) returns (code: string)
    ensures exists attempt :: 0 <= attempt <= 1000 && code == Candidate(cards, attempt)
    ensures !BarcodeInUse(cards, code) || code == Candidate(cards, 1000)
    ensures NextEANSequence(cards) < Pow10(12) ==>
      code == Candidate(cards, 0) && !BarcodeInUse(cards, code) && Ean13Valid(code)
  {
    if NextEANSequence(cards) < Pow10(12) {
      NextCodeUnused(cards);
      BuildEAN13Facts(NextEANSequence(cards));
    }
    var attempt := 0;
    while attempt < 1000
      invariant 0 <= attempt <= 1000
      invariant NextEANSequence(cards) < Pow10(12) ==> attempt == 0
    {
      var candidate := Candidate(cards, attempt);
      if !BarcodeInUse(cards, candidate) {
        return candidate;
      }
      attempt := attempt + 1;
    }
    code := Candidate(cards, attempt);
  }

  /** No card's barcode equals the code of the next free sequence number. */
  lemma NextCodeUnused(cards: seq<Card>)
    requires NextEANSequence(cards) < Pow10(12)
    ensures !BarcodeInUse(cards, BuildEAN13FromSequence(NextEANSequence(cards)))
  {
    var n := NextEANSequence(cards);
    var code := BuildEAN13FromSequence(n);
    BuildEAN13Facts(n);
    if k :| 0 <= k < |cards| && cards[k].barcode == code {
      assert IsEanShaped(cards[k].barcode);
    }
  }

  /** The browser's build of the code tried at the given attempt. */
  function CandidateChecked(cards: seq<Card>, attempt: nat): (r: Result<string>)
    ensures r.Success? <==> NextEANSequence(cards) + attempt < Pow10(12)
    ensures r.Success? ==> r.value == Candidate(cards, attempt) && Ean13Valid(r.value)
  {
    var n := NextEANSequence(cards) + attempt;
    if n < Pow10(12) then BuildEAN13Facts(n); BuildEAN13FromSequenceChecked(n)
    else BuildEAN13FromSequenceChecked(n)
  }

  /**
   * `generateUniqueEAN13` in the browser: the same search, but building a
   * code from a number of thirteen or more digits throws, which aborts the
   * caller; that is `Failure`.
   */
  method GenerateUniqueEAN13App(cards: seq<Card>) returns (r: Result<string>)
    ensures r.Success? ==> Ean13Valid(r.value) && exists attempt :: 0 <= attempt <= 1000 && r.value == Candidate(cards, attempt)
    ensures r.Success? ==> !BarcodeInUse(cards, r.value) || r.value == Candidate(cards, 1000)
    ensures NextEANSequence(cards) < Pow10(12) ==> r == Success(Candidate(cards, 0)) && !BarcodeInUse(cards, r.value)
    ensures NextEANSequence(cards) >= Pow10(12) ==> r.Failure?
  {
    if NextEANSequence(cards) < Pow10(12) {
      NextCodeUnused(cards);
    }
    for attempt := 0 to 1000
      invariant NextEANSequence(cards) < Pow10(12) ==> attempt == 0
    {
      var built := CandidateChecked(cards, attempt);
      if built.Failure? {
        return built;
      }
      if !BarcodeInUse(cards, built.value) {
        return built;
      }
    }
    r := CandidateChecked(cards, 1000);
  }
}
