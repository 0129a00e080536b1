/** Suggested product codes of catalog_services.py: the next free SKU and EAN-13 barcode. */
module ProductCodes {
  import opened Wrappers
  import opened Decimal

  // ----- sequence numbers -----

  /** `CO-` followed by digits only: the sequence number it carries. */
  function SkuNumber(v: string): Option<nat> {
    if |v| > 3 && v[..3] == "CO-" && AllDigits(v[3..]) then Some(Parse(v[3..])) else None
  }

  /** `20`, ten digits and a check digit: the sequence number it carries. */
  function BarcodeNumber(v: string): Option<nat> {
    if |v| == 13 && v[..2] == "20" && AllDigits(v[2..]) then Some(Parse(v[2..12])) else None
  }

  /** The loop of _next_numeric_suffix: one more than the largest number found. */
  method NextNumericSuffix(values: seq<string>, number: string -> Option<nat>) returns (next: nat)
    ensures forall v :: v in values && number(v).Some? ==> number(v).value < next
    ensures next == 1 || exists v :: v in values && number(v) == Some(next - 1)
    ensures next >= 1
    ensures next == NextSuffix(values, number)
  {
    var largest := 0;
    for i := 0 to |values|
      invariant forall v :: v in values[..i] && number(v).Some? ==> number(v).value <= largest
      invariant largest == 0 || exists v :: v in values[..i] && number(v) == Some(largest)
      invariant largest + 1 == NextSuffix(values[..i], number)
    {
      assert values[..i + 1] == values[..i] + [values[i]];
      var found := number(values[i]);
      if found.Some? && found.value > largest {
        largest := found.value;
      }
    }
    assert values[..|values|] == values;
    next := largest + 1;
  }

  function NextSuffix(values: seq<string>, number: string -> Option<nat>): (next: nat)
    ensures next >= 1
    ensures forall v :: v in values && number(v).Some? ==> number(v).value < next
  {
    if values == [] then 1
    else
      var n := |values| - 1;
      var before, found := NextSuffix(values[..n], number), number(values[n]);
      assert values == values[..n] + [values[n]];
      if found.Some? && found.value >= before then found.value + 1 else before
  }

  function SuggestSku(values: seq<string>): string {
    "CO-" + Padded(NextSuffix(values, SkuNumber), 6)
  }

  /** A suggested SKU differs from every code in the catalog, padded, unpadded or foreign. */
  lemma SuggestedSkuIsNew(values: seq<string>)
    ensures SuggestSku(values) !in values
  {
    var next := NextSuffix(values, SkuNumber);
    var s := SuggestSku(values);
    assert s[..3] == "CO-" && s[3..] == Padded(next, 6);
    ParsePadded(next, 6);
    assert SkuNumber(s) == Some(next);
  }

  /** It carries the next sequence number, in at least six digits: one more than the largest number
      of any code of the form, or one if there is none. */
  lemma SuggestedSkuIsNext(values: seq<string>)
    ensures var s, next := SuggestSku(values), NextSuffix(values, SkuNumber);
      && |s| >= 9 && s[..3] == "CO-" && AllDigits(s[3..]) && Parse(s[3..]) == next
      && (forall v :: v in values && |v| > 3 && v[..3] == "CO-" && AllDigits(v[3..]) ==> Parse(v[3..]) < next)
      && (next > 1 ==> exists v :: v in values && |v| > 3 && v[..3] == "CO-" && AllDigits(v[3..]) && Parse(v[3..]) == next - 1)
  {
    var s, next := SuggestSku(values), NextSuffix(values, SkuNumber);
    assert s[..3] == "CO-" && s[3..] == Padded(next, 6);
    ParsePadded(next, 6);
    forall v | v in values && |v| > 3 && v[..3] == "CO-" && AllDigits(v[3..]) ensures Parse(v[3..]) < next {
      assert SkuNumber(v) == Some(Parse(v[3..]));
    }
    if next > 1 {
      var v := LargestIsFound(values, SkuNumber);
    }
  }

  /** A code printed with any padding counts with its number. */
  lemma PaddedSkuCounts(values: seq<string>, n: nat, width: nat)
    requires "CO-" + Padded(n, width) in values
    ensures n < NextSuffix(values, SkuNumber)
  {
    var v := "CO-" + Padded(n, width);
    assert v[..3] == "CO-" && v[3..] == Padded(n, width);
    ParsePadded(n, width);
  }

  lemma {:induction false} LargestIsFound(values: seq<string>, number: string -> Option<nat>) returns (v: string)
    requires NextSuffix(values, number) > 1
    ensures v in values && number(v) == Some(NextSuffix(values, number) - 1)
  {
    var n := |values| - 1;
    var found := number(values[n]);
    if found.Some? && found.value >= NextSuffix(values[..n], number) {
      v := values[n];
    } else {
      v := LargestIsFound(values[..n], number);
    }
  }

  // ----- check digits -----

  type Digit = d: nat | d < 10

  /** Digits weighted w, 4 - w, w, ... from the right. */
  function WeightedSum(ds: seq<Digit>, w: int): int {
    if ds == [] then 0 else WeightedSum(ds[..|ds| - 1], 4 - w) + ds[|ds| - 1] * w
  }

  /** The rule of section 7.9 of the GS1 General Specifications, at any length: from the right the
      weights are 1, 3, 1, 3, ... and the weighted sum is a multiple of 10. */
  predicate ValidCode(ds: seq<Digit>) {
    WeightedSum(ds, 1) % 10 == 0
  }

  function WeightAt(length: nat, i: nat, w: int): int
    requires i < length
  {
    if (length - 1 - i) % 2 == 0 then w else 4 - w
  }

  lemma {:induction false} WeightedSumPrepend(d: Digit, ds: seq<Digit>, w: int)
    ensures WeightedSum([d] + ds, w) == WeightedSum(ds, w) + d * WeightAt(|ds| + 1, 0, w)
  {
    var all := [d] + ds;
    if ds == [] {
      assert all[..0] == [];
    } else {
      assert all[..|all| - 1] == [d] + ds[..|ds| - 1];
      WeightedSumPrepend(d, ds[..|ds| - 1], 4 - w);
    }
  }

  /** Changing one digit moves the weighted sum by the difference times that digit's weight. */
  lemma {:induction false} WeightedSumUpdate(ds: seq<Digit>, i: nat, d: Digit, w: int)
    requires i < |ds| && (w == 1 || w == 3)
    ensures WeightedSum(ds[i := d], w) == WeightedSum(ds, w) + (d - ds[i]) * WeightAt(|ds|, i, w)
  {
    var n := |ds| - 1;
    if i == n {
      assert ds[i := d][..n] == ds[..n];
      if w == 1 {
        assert WeightAt(|ds|, i, w) == 1;
      } else {
        assert WeightAt(|ds|, i, w) == 3;
      }
    } else {
      assert WeightAt(n, i, 4 - w) == WeightAt(|ds|, i, w);
      assert ds[i := d][..n] == ds[..n][i := d];
      WeightedSumUpdate(ds[..n], i, d, 4 - w);
    }
  }

  function DigitsOf(s: string): (ds: seq<Digit>)
    requires AllDigits(s)
    ensures |ds| == |s|
    ensures forall i :: 0 <= i < |s| ==> ds[i] == DigitValue(s[i])
  {
    seq(|s|, i requires 0 <= i < |s| => DigitValue(s[i]))
  }

  /** The check digit of a body of any length. */
  function CheckDigit(ds: seq<Digit>): Digit {
    (10 - WeightedSum(ds, 3) % 10) % 10
  }

  /** Appending a digit gives a valid code exactly when it is the check digit. */
  lemma CheckDigitCompletes(ds: seq<Digit>, d: Digit)
    ensures ValidCode(ds + [d]) <==> d == CheckDigit(ds)
  {
    assert (ds + [d])[..|ds|] == ds;
  }

  /** No single-digit mistake goes unnoticed. */
  lemma SingleDigitErrorIsDetected(ds: seq<Digit>, i: nat, d: Digit)
    requires i < |ds| && ValidCode(ds) && d != ds[i]
    ensures !ValidCode(ds[i := d])
  {
    WeightedSumUpdate(ds, i, d, 1);
  }

  function Swapped(ds: seq<Digit>, i: nat): seq<Digit>
    requires i + 1 < |ds|
  {
    ds[i := ds[i + 1]][i + 1 := ds[i]]
  }

  lemma SwapMovesSumByTwice(ds: seq<Digit>, i: nat, first: seq<Digit>, swapped: seq<Digit>)
    requires i + 1 < |ds|
    requires first == ds[i := ds[i + 1]] && swapped == first[i + 1 := ds[i]]
    ensures var a: int, b: int := ds[i], ds[i + 1];
      var moved := WeightedSum(swapped, 1) - WeightedSum(ds, 1);
      moved == 2 * (a - b) || moved == 2 * (b - a)
  {
    var a: int, b: int, v: int, w: int := ds[i], ds[i + 1], WeightAt(|ds|, i, 1), WeightAt(|ds|, i + 1, 1);
    WeightedSumUpdate(ds, i, ds[i + 1], 1);
    WeightedSumUpdate(first, i + 1, ds[i], 1);
    assert first[i + 1] == ds[i + 1];
    if v == 1 {
      assert w == 3;
      assert WeightedSum(first, 1) == WeightedSum(ds, 1) + (b - a);
      assert WeightedSum(swapped, 1) == WeightedSum(first, 1) + (a - b) * 3;
    } else {
      assert v == 3 && w == 1;
      assert WeightedSum(first, 1) == WeightedSum(ds, 1) + (b - a) * 3;
      assert WeightedSum(swapped, 1) == WeightedSum(first, 1) + (a - b);
    }
  }

  /** Swapping two unequal neighbours goes unnoticed exactly when they differ by 5. */
  lemma TranspositionDetectedUnlessFive(ds: seq<Digit>, i: nat)
    requires i + 1 < |ds| && ValidCode(ds) && ds[i] != ds[i + 1]
    ensures var a: int, b: int := ds[i], ds[i + 1];
      ValidCode(Swapped(ds, i)) <==> a - b == 5 || b - a == 5
  {
    SwapMovesSumByTwice(ds, i, ds[i := ds[i + 1]], Swapped(ds, i));
  }

  /** The loop of _ean13_check_digit over the reversed body. */
  method Ean13CheckDigit(body: string) returns (r: Result<char, ()>)
    ensures r.Success? <==> |body| == 12 && AllDigits(body)
    ensures r.Success? ==> IsDigit(r.value) && ValidCode(DigitsOf(body) + [DigitValue(r.value)])
  {
    if |body| != 12 || !AllDigits(body) {
      return Failure(());
    }
    var total := 0;
    for index := 0 to |body|
      invariant total == WeightedSum(DigitsOf(body)[|body| - index..], 3)
    {
      var weight := if index % 2 == 0 then 3 else 1;
      var ds := DigitsOf(body);
      assert ds[|body| - index - 1..] == [ds[|body| - index - 1]] + ds[|body| - index..];
      WeightedSumPrepend(ds[|body| - index - 1], ds[|body| - index..], 3);
      total := total + DigitValue(body[|body| - 1 - index]) * weight;
    }
    assert DigitsOf(body)[0..] == DigitsOf(body);
    CheckDigitCompletes(DigitsOf(body), CheckDigit(DigitsOf(body)));
    r := Success(DigitChar((10 - total % 10) % 10));
  }

  // ----- barcodes -----

  function BarcodeBody(sequence: nat): (s: string)
    ensures AllDigits(s)
  {
    "20" + Padded(sequence, 10)
  }

  /** generate_product_barcode: refused when the body is not twelve digits long. */
  function SuggestBarcode(values: seq<string>): Result<string, ()> {
    var body := BarcodeBody(NextSuffix(values, BarcodeNumber));
    if |body| != 12 then Failure(())
    else Success(body + [DigitChar(CheckDigit(DigitsOf(body)))])
  }

  method GenerateProductBarcode(values: seq<string>) returns (r: Result<string, ()>)
    ensures r == SuggestBarcode(values)
  {
    var sequence := NextNumericSuffix(values, BarcodeNumber);
    var body := BarcodeBody(sequence);
    var check := Ean13CheckDigit(body);
    if check.Failure? {
      return Failure(());
    }
    CheckDigitCompletes(DigitsOf(body), DigitValue(check.value));
    DigitCharUnique(check.value);
    r := Success(body + [check.value]);
  }

  lemma DigitCharUnique(c: char)
    requires IsDigit(c)
    ensures DigitChar(DigitValue(c)) == c
  {
  }

  /** A suggested barcode is a valid thirteen-digit code that differs from every code in the
      catalog; none is suggested exactly when the next number needs more than ten digits. */
  lemma SuggestedBarcodeIsNewAndValid(values: seq<string>)
    ensures SuggestBarcode(values).Failure? <==> NextSuffix(values, BarcodeNumber) >= 10_000_000_000
    ensures SuggestBarcode(values).Success? ==>
      var s := SuggestBarcode(values).value;
      && s !in values && |s| == 13 && s[..2] == "20"
      && AllDigits(s) && ValidCode(DigitsOf(s))
  {
    var next := NextSuffix(values, BarcodeNumber);
    PrintLength(next, 10);
    TenDigits();
    if SuggestBarcode(values).Success? {
      var s := SuggestBarcode(values).value;
      var body := BarcodeBody(next);
      assert s[..2] == "20" && s[2..12] == Padded(next, 10);
      ParsePadded(next, 10);
      assert BarcodeNumber(s) == Some(next);
      CheckDigitCompletes(DigitsOf(body), CheckDigit(DigitsOf(body)));
      assert DigitsOf(s) == DigitsOf(body) + [CheckDigit(DigitsOf(body))];
    }
  }

  /** It carries the next sequence number: one more than the largest of any code of the form, or one if
      there is none. */
  lemma SuggestedBarcodeIsNext(values: seq<string>)
    ensures var next := NextSuffix(values, BarcodeNumber);
      && (SuggestBarcode(values).Success? ==>
            |SuggestBarcode(values).value| == 13 && SuggestBarcode(values).value[2..12] == Padded(next, 10))
      && (forall v :: v in values && |v| == 13 && v[..2] == "20" && AllDigits(v[2..]) ==> Parse(v[2..12]) < next)
      && (next > 1 ==> exists v :: v in values && |v| == 13 && v[..2] == "20" && AllDigits(v[2..]) && Parse(v[2..12]) == next - 1)
  {
    var next := NextSuffix(values, BarcodeNumber);
    forall v | v in values && |v| == 13 && v[..2] == "20" && AllDigits(v[2..]) ensures Parse(v[2..12]) < next {
      assert BarcodeNumber(v) == Some(Parse(v[2..12]));
    }
    if next > 1 {
      var v := LargestIsFound(values, BarcodeNumber);
    }
  }

  lemma TenDigits()
    ensures Pow10(10) == 10_000_000_000
  {
    assert Pow10(2) == 100;
    assert Pow10(4) == 10_000;
    assert Pow10(6) == 1_000_000;
    assert Pow10(8) == 100_000_000;
  }
}
