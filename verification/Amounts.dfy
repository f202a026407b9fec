/** Canonical decimal amounts: the strings that amounts are stored and sent as. */
module Amounts {
  import opened Results
  import opened Ledger

  predicate IsDigit(c: char) {
    '0' <= c <= '9'
  }

  predicate AllDigits(s: string) {
    forall i | 0 <= i < |s| :: IsDigit(s[i])
  }

  function ValueOf(s: string): nat
    requires AllDigits(s)
  {
    if s == "" then 0 else 10 * ValueOf(s[..|s| - 1]) + (s[|s| - 1] as int - '0' as int)
  }

  /** A non-zero digit first, digits after it. */
  predicate IsPositiveIntegerAmount(s: string) {
    s != "" && '1' <= s[0] <= '9' && AllDigits(s)
  }

  function ParsePositiveIntegerAmount(s: string): Result<nat, Error> {
    if !IsPositiveIntegerAmount(s) then Err(InvalidAmount)
    else if ValueOf(s) > MAX_SHANNONS then Err(AmountOutOfRange)
    else Ok(ValueOf(s))
  }

  function ParseNonNegativeIntegerAmount(s: string): Result<nat, Error> {
    if s == "0" then Ok(0) else ParsePositiveIntegerAmount(s)
  }

  function Print(n: nat): string {
    if n < 10 then [('0' as int + n) as char] else Print(n / 10) + [('0' as int + n % 10) as char]
  }

  lemma {:induction false} PrintIsCanonical(n: nat)
    ensures AllDigits(Print(n)) && Print(n) != "" && ValueOf(Print(n)) == n
    ensures n > 0 ==> '1' <= Print(n)[0] <= '9'
  {
    if n >= 10 {
      PrintIsCanonical(n / 10);
      assert Print(n)[..|Print(n)| - 1] == Print(n / 10);
    } else {
      assert Print(n)[..0] == "";
    }
  }

  lemma {:induction false} ValueIsPrinted(s: string)
    requires IsPositiveIntegerAmount(s)
    ensures ValueOf(s) > 0 && Print(ValueOf(s)) == s
  {
    var front := s[..|s| - 1];
    if |s| > 1 {
      assert front[0] == s[0];
      ValueIsPrinted(front);
      assert s == front + [s[|s| - 1]];
    } else {
      assert front == "";
    }
  }

  /** Every shannon amount has exactly one string, and every accepted string is that of its amount. */
  lemma AmountsAreCanonical(s: string, n: nat)
    ensures ParsePositiveIntegerAmount(s) == Ok(n) <==> 1 <= n <= MAX_SHANNONS && s == Print(n)
    ensures ParseNonNegativeIntegerAmount(s) == Ok(n) <==> n <= MAX_SHANNONS && s == Print(n)
  {
    PrintIsCanonical(n);
    assert Print(0) == "0";
    if IsPositiveIntegerAmount(s) {
      ValueIsPrinted(s);
    }
  }

  /** What is too large is told apart from what is no amount at all. */
  lemma RefusedAmounts(s: string, n: nat)
    ensures ParsePositiveIntegerAmount(s) == Err(AmountOutOfRange) ==> exists k :: k > MAX_SHANNONS && s == Print(k)
    ensures n > MAX_SHANNONS && s == Print(n) ==> ParsePositiveIntegerAmount(s) == Err(AmountOutOfRange)
    ensures ParsePositiveIntegerAmount(s) == Err(InvalidAmount) && n > 0 ==> s != Print(n)
    ensures ParsePositiveIntegerAmount(s).Err? ==> ParsePositiveIntegerAmount(s).error in {AmountOutOfRange, InvalidAmount}
  {
    PrintIsCanonical(n);
    if IsPositiveIntegerAmount(s) {
      ValueIsPrinted(s);
    }
  }

  /** The amounts of a list, as long as every one of them is an amount. */
  function SumIntegerAmounts(values: seq<string>): Result<nat, Error> {
    if values == [] then Ok(0)
    else
      var front := SumIntegerAmounts(values[..|values| - 1]);
      var last := ParsePositiveIntegerAmount(values[|values| - 1]);
      if front.Err? then front else if last.Err? then last else Ok(front.value + last.value)
  }

  /** A list with something in it that is no amount has no sum; the first such string says why. */
  lemma {:induction false} FirstBadAmountTells(values: seq<string>, i: nat)
    requires i < |values| && ParsePositiveIntegerAmount(values[i]).Err?
    requires forall j | 0 <= j < i :: ParsePositiveIntegerAmount(values[j]).Ok?
    ensures SumIntegerAmounts(values) == Err(ParsePositiveIntegerAmount(values[i]).error)
  {
    hide ParsePositiveIntegerAmount;
    if i < |values| - 1 {
      FirstBadAmountTells(values[..|values| - 1], i);
    } else {
      AllGoodAmounts(values[..i]);
    }
  }

  lemma {:induction false} AllGoodAmounts(values: seq<string>)
    requires forall j | 0 <= j < |values| :: ParsePositiveIntegerAmount(values[j]).Ok?
    ensures SumIntegerAmounts(values).Ok?
  {
    hide ParsePositiveIntegerAmount;
    if values != [] {
      AllGoodAmounts(values[..|values| - 1]);
    }
  }

  function PrintAll(amounts: seq<nat>): seq<string> {
    seq(|amounts|, i requires 0 <= i < |amounts| => Print(amounts[i]))
  }

  function Sum(amounts: seq<nat>): nat {
    if amounts == [] then 0 else Sum(amounts[..|amounts| - 1]) + amounts[|amounts| - 1]
  }

  lemma {:induction false} SumOfPrinted(amounts: seq<nat>)
    requires forall i | 0 <= i < |amounts| :: 1 <= amounts[i] <= MAX_SHANNONS
    ensures SumIntegerAmounts(PrintAll(amounts)) == Ok(Sum(amounts))
  {
    if amounts != [] {
      var front := amounts[..|amounts| - 1];
      SumOfPrinted(front);
      assert PrintAll(amounts)[..|amounts| - 1] == PrintAll(front);
      AmountsAreCanonical(Print(amounts[|amounts| - 1]), amounts[|amounts| - 1]);
    }
  }
}
