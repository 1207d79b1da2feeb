/**
 * The profit-split section: two linked percentage boxes.  Typing one share writes it and
 * then writes 100 minus it into the other; the section flags a split that does not add
 * up to 100.
 */
module SectionSplit {
  import opened Wrappers
  import opened DealTypes
  import opened Validation
  import opened Money
  import InputField

  datatype Share = InvestorShare | OperatorShare

  /** The two shares as the form holds them, written one field at a time by `onChange`. */
  class SplitForm {
    var investor: real
    var operator: real

    constructor(investor0: real, operator0: real)
      ensures investor == investor0 && operator == operator0
    {
      investor := investor0;
      operator := operator0;
    }

    /** `onChange(field, value)`: one state write. */
    method OnChange(share: Share, value: real)
      modifies this
      ensures share == InvestorShare ==> investor == value && operator == old(operator)
      ensures share == OperatorShare ==> operator == value && investor == old(investor)
    {
      match share
      case InvestorShare => investor := value;
      case OperatorShare => operator := value;
    }

    /** `handleInvestorChange`: the investor's share, then the operator's as the rest of 100. */
    method HandleInvestorChange(v: real)
      modifies this
      ensures investor == v && operator == 100.0 - v
      ensures !IsInvalidSplit()
      ensures 0.0 <= v <= 100.0 ==> InRange()
    {
      OnChange(InvestorShare, v);
      OnChange(OperatorShare, 100.0 - v);
    }

    /** `handleOperatorChange`: the operator's share, then the investor's as the rest of 100. */
    method HandleOperatorChange(v: real)
      modifies this
      ensures operator == v && investor == 100.0 - v
      ensures !IsInvalidSplit()
      ensures 0.0 <= v <= 100.0 ==> InRange()
    {
      OnChange(OperatorShare, v);
      OnChange(InvestorShare, 100.0 - v);
    }

    /** Both shares are percentages. */
    predicate InRange()
      reads this
    {
      0.0 <= investor <= 100.0 && 0.0 <= operator <= 100.0
    }

    /** `isInvalidSplit`: the shares miss 100 by more than 0.01 points. */
    predicate IsInvalidSplit(): (invalid: bool)
      reads this
      ensures investor + operator == 100.0 ==> !invalid
      ensures !invalid ==> 99.99 <= investor + operator <= 100.01
    {
      SplitOff(investor, operator)
    }

    /**
     * Typing into the investor box: the box's handler with bounds 0 and 100, then, when
     * it emits a value, the linked update.
     */
    method TypeInvestor(text: string)
      modifies this
      // An empty box, or a lone minus sign, sets the investor to 0 and the operator to 100.
      ensures Filter(text) == "" || Filter(text) == "-" ==> investor == 0.0 && operator == 100.0
      // Text that is not a number leaves the form as it was.
      ensures Filter(text) != "" && Filter(text) != "-" && ParseFloat(Filter(text)).None? ==>
        investor == old(investor) && operator == old(operator)
      // A number is pulled into [0, 100] and the operator gets the rest of 100.
      ensures ParseFloat(Filter(text)).Some? ==>
        investor == ClampShare(ParseFloat(Filter(text)).value) && operator == 100.0 - investor
      ensures old(InRange()) ==> InRange()
      ensures old(investor + operator == 100.0) ==> investor + operator == 100.0
    {
      InputField.NotNumbers();
      var emitted := InputField.HandleChange(text, Some(0.0), Some(100.0));
      if emitted.Some? {
        HandleInvestorChange(emitted.value);
      }
    }

    /** Typing into the operator box, the same way. */
    method TypeOperator(text: string)
      modifies this
      // An empty box, or a lone minus sign, sets the operator to 0 and the investor to 100.
      ensures Filter(text) == "" || Filter(text) == "-" ==> operator == 0.0 && investor == 100.0
      // Text that is not a number leaves the form as it was.
      ensures Filter(text) != "" && Filter(text) != "-" && ParseFloat(Filter(text)).None? ==>
        investor == old(investor) && operator == old(operator)
      // A number is pulled into [0, 100] and the investor gets the rest of 100.
      ensures ParseFloat(Filter(text)).Some? ==>
        operator == ClampShare(ParseFloat(Filter(text)).value) && investor == 100.0 - operator
      ensures old(InRange()) ==> InRange()
      ensures old(investor + operator == 100.0) ==> investor + operator == 100.0
    {
      InputField.NotNumbers();
      var emitted := InputField.HandleChange(text, Some(0.0), Some(100.0));
      if emitted.Some? {
        HandleOperatorChange(emitted.value);
      }
    }
  }

  /** A typed share as the box's bounds 0 and 100 leave it. */
  function ClampShare(n: real): (c: real)
    ensures 0.0 <= c <= 100.0
    ensures 0.0 <= n <= 100.0 ==> c == n
    ensures n < 0.0 ==> c == 0.0
    ensures n > 100.0 ==> c == 100.0
  {
    if n > 100.0 then 100.0 else if n < 0.0 then 0.0 else n
  }

  /** The section's test for a split that does not add up. */
  predicate SplitOff(investor: real, operator: real) {
    Abs(investor + operator - 100.0) > 0.01
  }

  /** Shares that add up to exactly 100 are never flagged. */
  lemma WholeSplitNotFlagged(investor: real)
    ensures !SplitOff(investor, 100.0 - investor)
  {
  }

  /** The section flags a split exactly when input validation reports a profit-split error. */
  lemma SplitFlagMatchesValidation(input: DealInput)
    ensures SplitOff(input.investorProfitSharePct, input.operatorProfitSharePct)
        <==> Mentions(ExpectedErrors(input), ProfitSplit)
  {
    ErrorsExactly(input, ProfitSplit);
  }
}
