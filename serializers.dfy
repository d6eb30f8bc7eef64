/**
 * The withdrawal request serializer (serializers.py): `account_id` is an
 * integer field with minimum 1; `amount` is a decimal field with at most two
 * decimal places and minimum 0.01, and no limit on its total digits (the field
 * is declared without `max_digits`, taken here as no limit). Amounts are held
 * as integer cents.
 *
 * A raw field arrives absent, as JSON null, unparsable, or parsed. A parsed decimal is
 * `unscaled * 10^-places` (the digits and exponent of Python's Decimal), so
 * "30.00" is AmountDecimal(3000, 2) and "1.500" is AmountDecimal(1500, 3).
 * Each field is checked on its own and the errors of all failing fields are
 * reported together, keyed by field. As in the serializer library, a field's
 * parse and precision checks run before its minimum-value check, so each
 * failing field carries exactly one error.
 */
module Serializers {
  import opened Wrappers

  datatype RawAccountId = AccountIdAbsent | AccountIdNull | AccountIdNotInteger | AccountIdInteger(n: int)

  datatype RawAmount = AmountAbsent | AmountNull | AmountNotNumber | AmountDecimal(unscaled: int, places: nat)

  datatype RawRequest = RawRequest(accountId: RawAccountId, amount: RawAmount)

  datatype Field = AccountIdField | AmountField {
    /** The key under which the field is read and its errors are reported. */
    function Key(): string {
      match this
      case AccountIdField => "account_id"
      case AmountField => "amount"
    }
  }

  /** The serializer library's field error kinds: required, null, invalid (integer or number), max_decimal_places, min_value. */
  datatype FieldError = Required | NullValue | InvalidInteger | InvalidNumber | TooManyDecimalPlaces | BelowMinimum

  type Errors = map<Field, FieldError>

  /** A validated request: the account id and the amount in cents. */
  datatype Withdrawal = Withdrawal(accountId: int, cents: int)

  const MinAccountId: int := 1
  const DecimalPlaces: nat := 2
  /** min_value 0.01, in cents. */
  const MinAmountCents: int := 1

  function Pow10(k: nat): (p: nat)
    ensures p >= 1
  {
    if k == 0 then 1 else 10 * Pow10(k - 1)
  }

  /** Whether an amount in cents meets the minimum value 0.01. */
  predicate MeetsMinValue(cents: int) {
    cents >= MinAmountCents
  }

  function ValidateAccountId(raw: RawAccountId): (r: Result<int, FieldError>)
    ensures r.Ok? <==> raw.AccountIdInteger? && raw.n >= 1
    ensures r.Ok? ==> r.value == raw.n
    ensures raw.AccountIdInteger? && raw.n < 1 ==> r == Err(BelowMinimum)
    ensures raw.AccountIdNull? ==> r == Err(NullValue)
  {
    match raw
    case AccountIdAbsent => Err(Required)
    case AccountIdNull => Err(NullValue)
    case AccountIdNotInteger => Err(InvalidInteger)
    case AccountIdInteger(n) => if n < MinAccountId then Err(BelowMinimum) else Ok(n)
  }

  lemma ScaledSign(u: int, k: nat)
    ensures (u * Pow10(k) >= 1) == (u >= 1)
  {
    if u >= 1 {
      assert u * Pow10(k) >= Pow10(k);
    } else {
      assert u * Pow10(k) <= 0;
    }
  }

  /** The amount in cents, or the field's error. */
  function ValidateAmount(raw: RawAmount): (r: Result<int, FieldError>)
    ensures r.Ok? <==> raw.AmountDecimal? && raw.places <= DecimalPlaces && raw.unscaled >= 1
    ensures r.Ok? ==> r.value >= 1 && r.value * Pow10(raw.places) == raw.unscaled * 100
    ensures raw.AmountDecimal? && raw.places > DecimalPlaces ==> r == Err(TooManyDecimalPlaces)
    ensures raw.AmountNull? ==> r == Err(NullValue)
    ensures raw.AmountDecimal? && raw.places <= DecimalPlaces && raw.unscaled < 1 ==> r == Err(BelowMinimum)
  {
    match raw
    case AmountAbsent => Err(Required)
    case AmountNull => Err(NullValue)
    case AmountNotNumber => Err(InvalidNumber)
    case AmountDecimal(u, places) =>
      if places > DecimalPlaces then Err(TooManyDecimalPlaces)
      else
        var cents := u * Pow10(DecimalPlaces - places);
        ScaledSign(u, DecimalPlaces - places);
        assert cents * Pow10(places) == u * 100 by {
          assert Pow10(DecimalPlaces - places) * Pow10(places) == 100;
        }
        if !MeetsMinValue(cents) then Err(BelowMinimum) else Ok(cents)
  }

  /**
   * `is_valid()` with `validated_data` or `errors`: a request is valid when both
   * fields are, and otherwise every failing field, and only those, has its error.
   */
  function Validate(raw: RawRequest): (r: Result<Withdrawal, Errors>)
    ensures r.Ok? <==> ValidateAccountId(raw.accountId).Ok? && ValidateAmount(raw.amount).Ok?
    ensures r.Ok? ==> r.value.accountId >= 1 && r.value.cents >= 1
    ensures r.Ok? ==> (r.value.accountId == ValidateAccountId(raw.accountId).value
                       && r.value.cents == ValidateAmount(raw.amount).value)
    ensures r.Err? ==> r.error.Keys != {}
    ensures r.Err? ==> ((AccountIdField in r.error <==> ValidateAccountId(raw.accountId).Err?)
                        && (AmountField in r.error <==> ValidateAmount(raw.amount).Err?))
    ensures r.Err? && AccountIdField in r.error ==> r.error[AccountIdField] == ValidateAccountId(raw.accountId).error
    ensures r.Err? && AmountField in r.error ==> r.error[AmountField] == ValidateAmount(raw.amount).error
  {
    var id := ValidateAccountId(raw.accountId);
    var amount := ValidateAmount(raw.amount);
    if id.Ok? && amount.Ok? then Ok(Withdrawal(id.value, amount.value))
    else
      var idErrors: Errors := if id.Err? then map[AccountIdField := id.error] else map[];
      var amountErrors: Errors := if amount.Err? then map[AmountField := amount.error] else map[];
      assert id.Err? ==> AccountIdField in idErrors + amountErrors;
      Err(idErrors + amountErrors)
  }

  /** A cleaned field value as `validated_data` holds it. */
  datatype Cleaned = CleanedInt(i: int) | CleanedDecimal(cents: int)

  /** `validated_data`: the cleaned values keyed by field name. */
  function ValidatedData(w: Withdrawal): (d: map<string, Cleaned>)
    ensures d.Keys == {AccountIdField.Key(), AmountField.Key()}
    ensures d[AccountIdField.Key()] == CleanedInt(w.accountId)
    ensures d[AmountField.Key()] == CleanedDecimal(w.cents)
  {
    map[AccountIdField.Key() := CleanedInt(w.accountId), AmountField.Key() := CleanedDecimal(w.cents)]
  }

  /** An account id is accepted only if it is an integer of at least 1. */
  lemma AccountIdAcceptedIff(raw: RawRequest)
    ensures (AccountIdField !in ValidateErrors(raw)) <==> raw.accountId.AccountIdInteger? && raw.accountId.n >= 1
  {
  }

  /** The field-keyed errors of a request; empty exactly when it is valid. */
  function ValidateErrors(raw: RawRequest): (e: Errors)
    ensures (e == map[]) == Validate(raw).Ok?
  {
    match Validate(raw)
    case Ok(_) => map[]
    case Err(errors) => errors
  }

  /** Zero and negative amounts never pass validation. */
  lemma NonPositiveAmountRejected(raw: RawRequest)
    requires raw.amount.AmountDecimal? && raw.amount.unscaled <= 0
    ensures Validate(raw).Err? && AmountField in Validate(raw).error
  {
  }

  /** Any amount whose exact value is below 0.01 is rejected. */
  lemma BelowOneCentRejected(raw: RawRequest)
    requires raw.amount.AmountDecimal?
    requires raw.amount.unscaled * 100 < Pow10(raw.amount.places)
    ensures Validate(raw).Err? && AmountField in Validate(raw).error
  {
  }

  /** More than two fractional digits is rejected, whatever the value. */
  lemma TooManyPlacesRejected(raw: RawRequest)
    requires raw.amount.AmountDecimal? && raw.amount.places > DecimalPlaces
    ensures Validate(raw).Err? && Validate(raw).error[AmountField] == TooManyDecimalPlaces
  {
  }

  /** A validated request has a positive account id and carries the exact amount it was given. */
  lemma ValidatedRequestIsExact(raw: RawRequest)
    requires Validate(raw).Ok?
    ensures raw.accountId == AccountIdInteger(Validate(raw).value.accountId)
    ensures raw.amount.AmountDecimal?
    ensures Validate(raw).value.cents * Pow10(raw.amount.places) == raw.amount.unscaled * 100
    ensures Validate(raw).value.accountId >= MinAccountId && Validate(raw).value.cents >= MinAmountCents
  {
  }

  // ---- The minimum amount as the serializer declares it ----

  /**
   * `min_value=0.01` is a binary float literal. The serializer library compares
   * the Decimal amount with it as is, and Python compares a Decimal with a float
   * exactly. The float nearest 0.01 is FloatMinNumerator / 2^59, slightly above 0.01.
   */
  const FloatMinNumerator: int := 5764607523034235
  const FloatMinDenominator: int := 576460752303423488

  function Pow2(k: nat): (p: nat)
    ensures p >= 1
  {
    if k == 0 then 1 else 2 * Pow2(k - 1)
  }

  /** FloatMinNumerator / 2^59 is the double nearest to 1/100. */
  lemma FloatMinIsNearestDouble()
    ensures FloatMinDenominator == Pow2(59)
    ensures Pow2(52) <= FloatMinNumerator < Pow2(53)
    ensures FloatMinNumerator * 100 > FloatMinDenominator
    ensures 2 * (FloatMinNumerator * 100 - FloatMinDenominator) <= 100
  {
    assert Pow2(10) == 1024;
    assert Pow2(20) == 1024 * 1024;
    assert Pow2(40) == Pow2(20) * Pow2(20) by { Pow2Add(20, 20); }
    assert Pow2(52) == Pow2(40) * 4096 by { Pow2Add(40, 12); }
    assert Pow2(53) == 2 * Pow2(52);
    assert Pow2(59) == Pow2(52) * 128 by { Pow2Add(52, 7); }
  }

  lemma {:induction false} Pow2Add(a: nat, b: nat)
    ensures Pow2(a + b) == Pow2(a) * Pow2(b)
    decreases b
  {
    if b > 0 {
      Pow2Add(a, b - 1);
      assert Pow2(a + b) == 2 * Pow2(a + b - 1);
    }
  }

  /** The min_value check as written: Decimal(cents / 100) >= float(0.01), compared exactly. */
  predicate MeetsMinValueAsWritten(cents: int) {
    cents * FloatMinDenominator >= 100 * FloatMinNumerator
  }

  /** As written, a withdrawal of exactly 0.01 fails the minimum check that is meant to admit it. */
  lemma OneCentRejectedAsWritten()
    ensures MeetsMinValue(1) && !MeetsMinValueAsWritten(1)
  {
  }

  /** Everywhere else the declared check and the intended one agree. */
  lemma MinValueAgreesExceptOneCent(cents: int)
    requires cents != 1
    ensures MeetsMinValueAsWritten(cents) == MeetsMinValue(cents)
  {
    if cents >= 2 {
      assert cents * FloatMinDenominator >= 2 * FloatMinDenominator;
    } else {
      assert cents * FloatMinDenominator <= 0;
    }
  }
}
