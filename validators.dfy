/**
 * The two input validators of the car-sales spider: `check_code` for the
 * postal code and `check_slider_input` for the search-radius selector.
 */
module Validators {

  /** `str.isdigit` of one character, restricted to the ASCII digits. */
  predicate IsDigit(c: char)
  {
    '0' <= c <= '9'
  }

  /** What `check_code` accepts: five characters, every one a digit. */
  predicate IsPostalCode(s: string)
  {
    |s| == 5 && forall i :: 0 <= i < |s| ==> IsDigit(s[i])
  }

  /**
   * `check_code`: a length test, then a scan of the characters that stops at
   * the first non-digit.
   */
  method CheckCode(postal: string) returns (isGood: bool)
    ensures isGood <==> IsPostalCode(postal)
    ensures |postal| != 5 ==> !isGood
  {
    isGood := true;
    var codeLength := |postal|;
    if codeLength == 5 {
      var i := 0;
      while i < |postal|
        invariant 0 <= i <= |postal|
        invariant isGood
        invariant forall j :: 0 <= j < i ==> IsDigit(postal[j])
      {
        isGood := IsDigit(postal[i]);
        if !isGood {
          break;
        }
        i := i + 1;
      }
    } else {
      isGood := false;
    }
  }

  lemma PostalCodeExamples()
    ensures IsPostalCode("90210")
    ensures !IsPostalCode("9021") && !IsPostalCode("902100") && !IsPostalCode("")
    ensures !IsPostalCode("9021a")
  {
    assert !IsDigit("9021a"[4]);
  }

  /**
   * The Python values `check_slider_input` can be handed. `bool` is a
   * subclass of `int` in Python, so `isinstance(True, int)` holds.
   */
  datatype PyValue = PyInt(i: int) | PyBool(b: bool) | PyStr(s: string) | PyNone

  /** `isinstance(x, int)`. */
  predicate IsInstanceInt(x: PyValue)
  {
    x.PyInt? || x.PyBool?
  }

  /** The integer value of an `int` (True is 1, False is 0). */
  function IntValue(x: PyValue): int
    requires IsInstanceInt(x)
  {
    match x
    case PyInt(i) => i
    case PyBool(b) => if b then 1 else 0
  }

  /**
   * `check_slider_input` as written: the range test `0 < x < 7` leads to the
   * same `return is_good` as the fall-through, so only the type is checked.
   */
  function CheckSliderInput(sliderInput: PyValue): (isGood: bool)
    ensures isGood <==> IsInstanceInt(sliderInput)
  {
    var isGood := IsInstanceInt(sliderInput);
    if isGood && 0 < IntValue(sliderInput) < 7 then isGood
    else isGood
  }

  /** `check_slider_input` with its range test taking effect: integers strictly between 0 and 7. */
  function CheckSliderInputIntended(sliderInput: PyValue): (isGood: bool)
    ensures isGood <==> IsInstanceInt(sliderInput) && 1 <= IntValue(sliderInput) <= 6
  {
    var isGood := IsInstanceInt(sliderInput);
    if isGood && 0 < IntValue(sliderInput) < 7 then isGood
    else false
  }

  /**
   * Every integer passes `check_slider_input`, and it parts from the intended
   * validator exactly on the integers outside 1..6.
   */
  lemma SliderRangeTestHasNoEffect(n: int)
    ensures CheckSliderInput(PyInt(n))
    ensures CheckSliderInput(PyInt(n)) != CheckSliderInputIntended(PyInt(n)) <==> !(0 < n < 7)
  {
  }

  /** Out-of-range selectors that the validator as written lets through. */
  lemma SliderCounterexamples()
    ensures CheckSliderInput(PyInt(0)) && CheckSliderInput(PyInt(7)) && CheckSliderInput(PyInt(-1))
    ensures !CheckSliderInput(PyStr("3")) && !CheckSliderInput(PyNone)
  {
  }

  /** The intended validator accepts 1..6 and rejects 0, 7, -1 and non-integers. */
  lemma SliderIntendedRange(n: int)
    ensures CheckSliderInputIntended(PyInt(n)) <==> n in {1, 2, 3, 4, 5, 6}
    ensures !CheckSliderInputIntended(PyStr("3"))
  {
  }

  /** Menu choice 0 ("10 mile radius") is offered but the intended range rejects it. */
  lemma MenuChoiceZeroRejected()
    ensures !CheckSliderInputIntended(PyInt(0)) && CheckSliderInput(PyInt(0))
  {
  }
}
