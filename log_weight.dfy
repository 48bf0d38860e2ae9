/**
 * The body-weight entry screen (LogWeightScreen): the typed text, the error
 * flag, and the submit check, which takes a positive number and, as written,
 * records nothing.
 */
module LogWeight {
  import opened Wrappers
  import opened Text

  /** `weight.toFloatOrNull()` is a number greater than 0. */
  predicate Accepts(text: string) {
    ParseDecimal(text).Some? && ParseDecimal(text).value > 0.0
  }

  /** Every positive whole number as typed is accepted; so is nothing blank. */
  lemma AcceptedTexts(n: nat, text: string)
    ensures n > 0 ==> Accepts(NatToString(n))
    ensures IsBlank(text) ==> !Accepts(text)
  {
    ParseDecimalOfNatToString(n);
    if IsBlank(text) {
      BlankIsNotParsed(text);
    }
  }

  class LogWeightScreen {
    /** The text in the weight field. */
    var weight: string
    /** Whether "Please enter a valid weight" is shown. */
    var showError: bool

    constructor()
      ensures weight == "" && !showError
    {
      weight, showError := "", false;
    }

    /** Typing replaces the text and hides the error. */
    method Edit(text: string)
      modifies this
      ensures weight == text && !showError
    {
      weight := text;
      showError := false;
    }

    /**
     * Log Weight: an accepted text is cleared together with the error; a
     * rejected one stays, and the error is shown. Nothing is stored either way.
     */
    method Submit() returns (accepted: bool)
      modifies this
      ensures accepted <==> Accepts(old(weight))
      ensures accepted ==> weight == "" && !showError
      ensures !accepted ==> weight == old(weight) && showError
    {
      var weightValue := ParseDecimal(weight);
      if weightValue.Some? && weightValue.value > 0.0 {
        accepted := true;
        weight := "";
        showError := false;
      } else {
        accepted := false;
        showError := true;
      }
    }
  }
}
