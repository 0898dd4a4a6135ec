/** The basic calculator of the financial calculator dialog: a display
    string, a pending left operand and operator, and a flag that says the
    next digit starts a new entry. */
module Keypad {
  import opened Common
  import opened JsString
  import opened JsNumber
  import opened NumberText

  /** `calculate(first, second, operation)`: the four operators; "=" and any
      other text give the second operand. */
  function Calculate(first: Num, second: Num, operation: string): Num {
    if operation == "+" then Add(first, second)
    else if operation == "-" then Sub(first, second)
    else if operation == "*" then Mul(first, second)
    else if operation == "/" then Div(first, second)
    else second
  }

  /** `operation` is set to a non-empty operator (`if (operation)`). */
  predicate Pending(operation: Option<string>) {
    operation.Some? && operation.value != ""
  }

  /** The display after a digit key. */
  function Typed(display: string, waiting: bool, digit: char): string {
    if waiting || display == "0" then [digit] else display + [digit]
  }

  /** The display after the point key. */
  function Pointed(display: string, waiting: bool): string {
    if waiting then "0." else if '.' in display then display else display + "."
  }

  /** The display after the backspace key: the last character goes, and an
      empty display shows "0". */
  function BackspacedText(display: string): string {
    if |display| <= 1 then "0" else display[..|display| - 1]
  }

  // ---------------------------------------------------------------------
  // Properties

  /** Adding then subtracting the same finite number gives the first operand
      back, and so does multiplying then dividing by a non-zero one. */
  lemma CalculateUndoes(a: real, b: real)
    ensures Calculate(Calculate(Finite(a), Finite(b), "+"), Finite(b), "-") == Finite(a)
    ensures b != 0.0 ==> Calculate(Calculate(Finite(a), Finite(b), "*"), Finite(b), "/") == Finite(a)
  {
  }

  /** Division by zero gives NaN for 0 / 0 and an infinity otherwise. */
  lemma DivideByZero(a: real)
    ensures a == 0.0 ==> Calculate(Finite(a), Finite(0.0), "/") == NaN
    ensures a != 0.0 ==> Calculate(Finite(a), Finite(0.0), "/") == Infinite(a > 0.0)
  {
  }

  /** An unknown operator (and "=") keeps the entry and drops the operand. */
  lemma UnknownOperatorKeepsEntry(first: Num, second: Num, operation: string)
    requires operation !in {"+", "-", "*", "/"}
    ensures Calculate(first, second, operation) == second
  {
  }

  /** A chained operator uses `previousValue || 0` where "=" uses the
      previous value itself; the two agree unless that value is NaN. */
  lemma ChainAgreesWithEquals(previous: Num, entry: Num, operation: string)
    ensures !previous.NaN? ==> Calculate(OrZero(previous), entry, operation) == Calculate(previous, entry, operation)
    ensures previous.NaN? && entry.Finite? && operation == "+" ==>
      Calculate(OrZero(previous), entry, operation) == entry && Calculate(previous, entry, operation) == NaN
  {
  }

  /** A digit typed into a fresh entry or onto a lone "0" replaces it, so the
      entry reads as that digit. */
  lemma TypingReplacesEntry(display: string, waiting: bool, digit: char)
    requires IsDigit(digit) && (waiting || display == "0")
    ensures Typed(display, waiting, digit) == [digit]
    ensures ParseFloat(Typed(display, waiting, digit)) == Finite(DigitOf(digit) as real)
  {
    LoneDigitReads(digit);
  }

  /** A digit typed onto a run of digits keeps a run of digits and shifts its
      value one place left, adding the digit; by `ParseFloatDigits` that run
      is also what the entry reads as. */
  lemma TypingShiftsEntry(display: string, waiting: bool, digit: char)
    requires IsDigit(digit) && !waiting && display != "0" && AllDigits(display)
    ensures Typed(display, waiting, digit) == display + [digit]
    ensures AllDigits(Typed(display, waiting, digit))
    ensures DigitsValue(Typed(display, waiting, digit)) == DigitsValue(display) * 10 + DigitOf(digit)
  {
    DigitsValueSnoc(display, digit);
  }

  lemma LoneDigitReads(digit: char)
    requires IsDigit(digit)
    ensures ParseFloat([digit]) == Finite(DigitOf(digit) as real)
  {
    var one := [digit];
    assert one[..0] == [];
    assert DigitsValue(one) == DigitOf(digit);
    ParseFloatDigits(one);
  }

  /** The point key never adds a second point and never empties the display. */
  lemma PointedKeepsOnePoint(display: string, waiting: bool)
    requires AtMostOnePoint(display)
    ensures Pointed(display, waiting) != [] && AtMostOnePoint(Pointed(display, waiting))
    ensures !waiting && '.' !in display ==> Pointed(display, waiting) == display + "."
  {
    var r := Pointed(display, waiting);
    if !waiting && '.' !in display {
      assert forall i :: 0 <= i < |display| ==> r[i] != '.';
    }
  }

  /** Backspace never empties the display and never adds a point. */
  lemma BackspaceKeepsShape(display: string)
    requires AtMostOnePoint(display)
    ensures BackspacedText(display) != [] && AtMostOnePoint(BackspacedText(display))
    ensures |display| > 1 ==> BackspacedText(display) + [display[|display| - 1]] == display
  {
  }

  /** Backspace on a result below one millionth, shown as "3e-7", leaves
      "3e-" on the display. */
  lemma BackspaceOnExponentText()
    ensures BackspacedText(ResultText(Finite(1.0 / 3000000.0))) == "3e-"
  {
    ThirdOfMillionthText();
  }

  /** The four fields of the calculator's state. */
  datatype Keys = Keys(display: string, previousValue: Option<Num>, operation: Option<string>,
                       waitingForOperand: bool)

  /** The display is never empty and holds at most one point; an operand
      is pending exactly when an operator is. */
  predicate WellShaped(k: Keys) {
    k.display != [] && AtMostOnePoint(k.display) &&
    (k.previousValue.Some? <==> k.operation.Some?)
  }

  /** `inputOperator(nextOperator)`. */
  function OperatorPressed(k: Keys, nextOperator: string): Keys {
    var entry := ParseFloat(k.display);
    var folded :=
      if k.previousValue.None? then k.(previousValue := Some(entry))
      else if Pending(k.operation) then
        var result := Calculate(OrZero(k.previousValue.value), entry, k.operation.value);
        k.(display := ResultText(result), previousValue := Some(result))
      else k;
    folded.(waitingForOperand := true, operation := Some(nextOperator))
  }

  /** `performCalculation`, the "=" key. */
  function EqualsPressed(k: Keys): Keys {
    if k.previousValue.Some? && Pending(k.operation) then
      var result := Calculate(k.previousValue.value, ParseFloat(k.display), k.operation.value);
      Keys(ResultText(result), None, None, true)
    else k
  }

  /** An operator key keeps the display non-empty with at most one point and
      keeps an operand stored exactly when an operator is pending. */
  lemma OperatorPressedKeepsShape(k: Keys, nextOperator: string)
    requires WellShaped(k)
    ensures WellShaped(OperatorPressed(k, nextOperator))
  {
    if k.previousValue.Some? && Pending(k.operation) {
      ResultTextShape(Calculate(OrZero(k.previousValue.value), ParseFloat(k.display), k.operation.value));
    }
  }

  /** The "=" key keeps the same shape. */
  lemma EqualsPressedKeepsShape(k: Keys)
    requires WellShaped(k)
    ensures WellShaped(EqualsPressed(k))
  {
    if k.previousValue.Some? && Pending(k.operation) {
      ResultTextShape(Calculate(k.previousValue.value, ParseFloat(k.display), k.operation.value));
    }
  }

  /** The first operator stores the entry and keeps the display; a later one
      applies the pending operator to `previousValue || 0` and the entry,
      shows the result (whose text reads back as the result rounded to seven
      decimals) and keeps it as the new left operand. Either way the next
      digit starts a new entry and the new operator is pending. */
  lemma OperatorPressedShows(k: Keys, nextOperator: string)
    requires WellShaped(k)
    ensures var after := OperatorPressed(k, nextOperator);
      var entry := ParseFloat(k.display);
      if k.previousValue.None? then
        after.previousValue == Some(entry) && after.display == k.display
      else if Pending(k.operation) then
        var result := Calculate(OrZero(k.previousValue.value), entry, k.operation.value);
        after.previousValue == Some(result) && after.display == ResultText(result) &&
        ParseFloat(after.display) == Shown(result)
      else
        after.previousValue == k.previousValue && after.display == k.display
    ensures OperatorPressed(k, nextOperator).waitingForOperand
    ensures OperatorPressed(k, nextOperator).operation == Some(nextOperator)
  {
    if k.previousValue.Some? && Pending(k.operation) {
      var result := Calculate(OrZero(k.previousValue.value), ParseFloat(k.display), k.operation.value);
      ResultTextShape(result);
      ResultTextReadsBack(result);
    }
  }

  /** With an operand and an operator pending, "=" shows the result (whose
      text reads back as the result rounded to seven decimals), clears both
      and makes the next digit start a new entry; otherwise it changes
      nothing. */
  lemma EqualsPressedShows(k: Keys)
    requires WellShaped(k)
    ensures var after := EqualsPressed(k);
      if k.previousValue.Some? && Pending(k.operation) then
        var result := Calculate(k.previousValue.value, ParseFloat(k.display), k.operation.value);
        after.display == ResultText(result) && ParseFloat(after.display) == Shown(result) &&
        after.previousValue.None? && after.operation.None? && after.waitingForOperand
      else
        after == k
  {
    if k.previousValue.Some? && Pending(k.operation) {
      var result := Calculate(k.previousValue.value, ParseFloat(k.display), k.operation.value);
      ResultTextShape(result);
      ResultTextReadsBack(result);
    }
  }

  /** The calculator's state. */
  class Calculator {
    var display: string
    var previousValue: Option<Num>
    var operation: Option<string>
    var waitingForOperand: bool

    /** The four fields as one value. */
    function State(): Keys
      reads this
    {
      Keys(display, previousValue, operation, waitingForOperand)
    }

    ghost predicate Valid()
      reads this
    {
      WellShaped(State())
    }

    constructor ()
      ensures Valid()
      ensures display == "0" && previousValue == None && operation == None && !waitingForOperand
    {
      display := "0";
      previousValue, operation := None, None;
      waitingForOperand := false;
    }

    /** `inputNumber`. */
    method InputNumber(digit: char)
      requires Valid() && IsDigit(digit)
      modifies this
      ensures Valid()
      ensures display == Typed(old(display), old(waitingForOperand), digit)
      ensures !waitingForOperand
      ensures previousValue == old(previousValue) && operation == old(operation)
    {
      var d := Typed(display, waitingForOperand, digit);
      forall i, j | 0 <= i < j < |d| && d[i] == '.' ensures d[j] != '.' {
        if j == |d| - 1 {
          assert d[j] == digit;
        } else {
          assert d[i] == display[i] && d[j] == display[j];
        }
      }
      display := d;
      waitingForOperand := false;
    }

    /** `inputOperator`. */
    method InputOperator(nextOperator: string)
      requires Valid()
      modifies this
      ensures Valid()
      ensures State() == OperatorPressed(old(State()), nextOperator)
    {
      OperatorPressedKeepsShape(State(), nextOperator);
      var entry := ParseFloat(display);
      if previousValue.None? {
        previousValue := Some(entry);
      } else if Pending(operation) {
        var result := Calculate(OrZero(previousValue.value), entry, operation.value);
        display := ResultText(result);
        previousValue := Some(result);
      }
      waitingForOperand := true;
      operation := Some(nextOperator);
    }

    /** `performCalculation` (the "=" key). */
    method PerformCalculation()
      requires Valid()
      modifies this
      ensures Valid()
      ensures State() == EqualsPressed(old(State()))
    {
      EqualsPressedKeepsShape(State());
      if previousValue.Some? && Pending(operation) {
        var result := Calculate(previousValue.value, ParseFloat(display), operation.value);
        display := ResultText(result);
        previousValue, operation := None, None;
        waitingForOperand := true;
      }
    }

    /** `clear` (the "C" key). */
    method Clear()
      modifies this
      ensures Valid()
      ensures display == "0" && previousValue == None && operation == None && !waitingForOperand
    {
      display := "0";
      previousValue, operation := None, None;
      waitingForOperand := false;
    }

    /** `clearEntry` (the "CE" key): only the display is reset. */
    method ClearEntry()
      requires Valid()
      modifies this
      ensures Valid()
      ensures display == "0"
      ensures previousValue == old(previousValue) && operation == old(operation)
      ensures waitingForOperand == old(waitingForOperand)
    {
      display := "0";
    }

    /** `addDecimal`. */
    method AddDecimal()
      requires Valid()
      modifies this
      ensures Valid()
      ensures display == Pointed(old(display), old(waitingForOperand))
      ensures !waitingForOperand
      ensures previousValue == old(previousValue) && operation == old(operation)
    {
      PointedKeepsOnePoint(display, waitingForOperand);
      display := Pointed(display, waitingForOperand);
      waitingForOperand := false;
    }

    /** The backspace key. */
    method Backspace()
      requires Valid()
      modifies this
      ensures Valid()
      ensures display == BackspacedText(old(display))
      ensures previousValue == old(previousValue) && operation == old(operation)
      ensures waitingForOperand == old(waitingForOperand)
    {
      BackspaceKeepsShape(display);
      display := BackspacedText(display);
    }
  }
}
