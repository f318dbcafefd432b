/**
  The area resolver of the order controller (`determineArea`): a table number
  whose first letter is P is on the patio, one whose first letter is B is at the
  bar, and every other table is in the dining room. The test is made on the
  upper-cased table number, so it ignores case.
 */
module Areas {
  import opened Text

  datatype Area = Patio | Bar | Dining

  /** `determineArea`: total, first-letter rule, P before B before the default. */
  function DetermineArea(tableNumber: string): (r: Area)
    ensures r == Patio <==> |tableNumber| > 0 && (tableNumber[0] == 'P' || tableNumber[0] == 'p')
    ensures r == Bar <==> |tableNumber| > 0 && (tableNumber[0] == 'B' || tableNumber[0] == 'b')
    ensures r == Dining <==> |tableNumber| == 0 || UpperChar(tableNumber[0]) !in {'P', 'B'}
  {
    var upper := Upper(tableNumber);
    if StartsWith(upper, "P") then Patio
    else if StartsWith(upper, "B") then Bar
    else Dining
  }

  /** The area does not depend on the case of the table number. */
  lemma DetermineAreaIgnoresCase(tableNumber: string)
    ensures DetermineArea(Upper(tableNumber)) == DetermineArea(tableNumber)
  {
    if |tableNumber| > 0 {
      assert Upper(tableNumber)[0] == UpperChar(tableNumber[0]);
    }
  }

  /** On a normalised table number, the area is that of the trimmed input in
      any case. */
  lemma DetermineAreaOfNormalized(tableNumber: string)
    ensures DetermineArea(Normalize(tableNumber)) == DetermineArea(Trim(tableNumber))
  {
    DetermineAreaIgnoresCase(Trim(tableNumber));
  }

  /** The three documented examples. */
  lemma DetermineAreaExamples()
    ensures DetermineArea("p5") == Patio
    ensures DetermineArea("B2") == Bar
    ensures DetermineArea("12") == Dining
  {
  }

  /** The resolver itself does not trim: a raw table number with a leading blank
      falls to the default area, while its normalised form does not. The
      controller only ever passes normalised table numbers. */
  lemma LeadingBlankIsNotIgnored()
    ensures DetermineArea(" p5") == Dining
    ensures DetermineArea(Normalize(" p5")) == Patio
  {
    TrimOfPaddedExample();
    assert Normalize(" p5") == Upper("p5");
    assert Upper("p5")[0] == 'P';
  }

  /** Trimming " p5" leaves "p5". */
  lemma TrimOfPaddedExample()
    ensures Trim(" p5") == "p5"
  {
    assert TrimLeft(" p5") == "p5";
    assert TrimRight("p5") == "p5";
  }
}
