/**
 * The user's financial statement: four decimal amounts with their field
 * constraints, the liabilities validator, the debt ratio, and the text
 * `str()` gives an amount when it is written into a prompt.
 *
 * An amount is a Python `Decimal`, kept exactly as `coefficient * 10^exponent`.
 */
module Financials {
  import opened Wrappers
  import opened Text
  import opened JsonValues

  datatype Decimal = Decimal(coefficient: int, exponent: int)

  function Value(d: Decimal): real {
    d.coefficient as real * Scale(d.exponent)
  }

  lemma ValueSign(d: Decimal)
    ensures Value(d) > 0.0 <==> d.coefficient > 0
    ensures Value(d) == 0.0 <==> d.coefficient == 0
  {
    var s := Scale(d.exponent);
    if d.coefficient > 0 {
      assert d.coefficient as real * s > 0.0;
    } else if d.coefficient < 0 {
      assert d.coefficient as real * s < 0.0;
    }
  }

  datatype FinancialStatement = FinancialStatement(
    userId: Option<string>,
    assets: Decimal,
    liabilities: Decimal,
    income: Decimal,
    expenses: Decimal,
    notes: Option<string>)

  /** The field constraints: assets and income strictly positive, liabilities and expenses not negative. */
  predicate Valid(fs: FinancialStatement) {
    Value(fs.assets) > 0.0 && Value(fs.liabilities) >= 0.0 && Value(fs.income) > 0.0 && Value(fs.expenses) >= 0.0
  }

  /**
   * The `liabilities` validator: liabilities above the assets are accepted,
   * and in every case the value comes back as it was given.
   */
  function ValidateLiabilities(v: Decimal, assets: Option<Decimal>): (r: Decimal)
    ensures r == v
  {
    if assets.Some? && Value(v) > Value(assets.value) then v else v
  }

  /**
   * Building a statement from its fields: a failed constraint is a
   * `ValidationError`; otherwise the validated statement.
   */
  function Construct(userId: Option<string>, assets: Decimal, liabilities: Decimal, income: Decimal,
                     expenses: Decimal, notes: Option<string>): (r: Result<FinancialStatement>)
    ensures r.Ok? <==> Value(assets) > 0.0 && Value(liabilities) >= 0.0 && Value(income) > 0.0 && Value(expenses) >= 0.0
    ensures r.Ok? ==> Valid(r.value) && r.value == FinancialStatement(userId, assets, liabilities, income, expenses, notes)
  {
    if !(Value(assets) > 0.0) then Err("ValidationError: assets must be greater than 0")
    else if !(Value(liabilities) >= 0.0) then Err("ValidationError: liabilities must be greater than or equal to 0")
    else if !(Value(income) > 0.0) then Err("ValidationError: income must be greater than 0")
    else if !(Value(expenses) >= 0.0) then Err("ValidationError: expenses must be greater than or equal to 0")
    else
      var l := ValidateLiabilities(liabilities, Some(assets));
      Ok(FinancialStatement(userId, assets, l, income, expenses, notes))
  }

  /** `debt_ratio()`: liabilities over assets, and 0.0 when the assets are zero. */
  function DebtRatio(fs: FinancialStatement): (r: real)
    ensures Value(fs.assets) != 0.0 ==> r * Value(fs.assets) == Value(fs.liabilities)
    ensures Value(fs.assets) == 0.0 ==> r == 0.0
  {
    ValueSign(fs.assets);
    if fs.assets.coefficient != 0 then Value(fs.liabilities) / Value(fs.assets) else 0.0
  }

  /** A valid statement has a ratio that is not negative, and above 1 exactly when the debts exceed the assets. */
  lemma DebtRatioValid(fs: FinancialStatement)
    requires Valid(fs)
    ensures DebtRatio(fs) >= 0.0
    ensures DebtRatio(fs) > 1.0 <==> Value(fs.liabilities) > Value(fs.assets)
  {
    var r := DebtRatio(fs);
    var a := Value(fs.assets);
    assert r * a == Value(fs.liabilities);
    if r > 1.0 {
      assert r * a > 1.0 * a;
    }
    if r <= 1.0 {
      assert r * a <= 1.0 * a;
    }
  }

  // ---------------------------------------------------------------- str() of a Decimal

  /** The digits of the coefficient, `"0"` for zero. */
  function CoefficientDigits(d: Decimal): string {
    NatToString(if d.coefficient < 0 then -d.coefficient else d.coefficient)
  }

  /**
   * `str(Decimal)`: positional notation when the exponent is not positive
   * and the number is not too small, scientific notation with `E` otherwise.
   */
  function DecimalStr(d: Decimal): string {
    var digits := CoefficientDigits(d);
    var sign := if d.coefficient < 0 then "-" else "";
    var leftDigits := d.exponent + |digits|;
    var dotPlace := if d.exponent <= 0 && leftDigits > -6 then leftDigits else 1;
    var body :=
      if dotPlace <= 0 then "0." + Zeros(-dotPlace) + digits
      else if dotPlace >= |digits| then digits + Zeros(dotPlace - |digits|)
      else digits[..dotPlace] + "." + digits[dotPlace..];
    var exp := if leftDigits == dotPlace then ""
               else "E" + (if leftDigits - dotPlace >= 0 then "+" else "") + IntToString(leftDigits - dotPlace);
    sign + body + exp
  }

  /** A whole amount prints as its decimal digits. */
  lemma DecimalStrWhole(n: int)
    ensures DecimalStr(Decimal(n, 0)) == IntToString(n)
  {
    var digits := CoefficientDigits(Decimal(n, 0));
    assert digits + Zeros(0) == digits;
  }

  /** An amount in cents, such as `Decimal('12.34')`, prints with its point before the last two digits. */
  lemma DecimalStrCents(n: nat)
    requires n >= 100
    ensures var digits := NatToString(n);
      DecimalStr(Decimal(n, -2)) == digits[..|digits| - 2] + "." + digits[|digits| - 2..]
  {
    NatToStringLength(n);
  }

  lemma {:induction false} NatToStringLength(n: nat)
    requires n >= 100
    ensures |NatToString(n)| >= 3
  {
    assert n / 10 >= 10;
    assert |NatToString(n / 10)| >= 2;
  }
}
