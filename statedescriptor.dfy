/** `StateDescriptor`: one sample, with the input used for matching, the
 *  input used for prediction and the function's output. The arrays are
 *  never written after construction, so the record is a value. */
module States {
  import FileIO

  datatype StateDescriptor = StateDescriptor(
    sameInput: bool,
    conditionInput: seq<real>,
    predictionInput: seq<real>,
    output: seq<real>)
  {
    /** A descriptor flagged `sameInput` predicts from its condition input. */
    ghost predicate Valid()
    {
      sameInput ==> predictionInput == conditionInput
    }

    function GetConditionInput(): seq<real> { conditionInput }
    function GetPredictionInput(): seq<real> { predictionInput }
    function GetOutput(): seq<real> { output }
    function IsSameInput(): bool { sameInput }

    /** `toString`: one input when `sameInput`, both inputs otherwise. */
    function ToString(show: real -> string): (s: string)
      ensures sameInput ==> s == "input=" + FileIO.ArrayToString(conditionInput, show)
                                  + ", output=" + FileIO.ArrayToString(output, show)
      ensures !sameInput ==> s == "conInput=" + FileIO.ArrayToString(conditionInput, show)
                                   + ", preInput=" + FileIO.ArrayToString(predictionInput, show)
                                   + ", output=" + FileIO.ArrayToString(output, show)
    {
      if sameInput then
        "input=" + FileIO.ArrayToString(conditionInput, show) + ", output=" + FileIO.ArrayToString(output, show)
      else
        "conInput=" + FileIO.ArrayToString(conditionInput, show)
        + ", preInput=" + FileIO.ArrayToString(predictionInput, show)
        + ", output=" + FileIO.ArrayToString(output, show)
    }
  }

  /** The two-argument constructor: one array for matching and prediction. */
  function FromInput(input: seq<real>, output: seq<real>): (d: StateDescriptor)
    ensures d.Valid() && d.IsSameInput()
    ensures d.GetConditionInput() == input && d.GetPredictionInput() == input && d.GetOutput() == output
  {
    StateDescriptor(true, input, input, output)
  }

  /** The three-argument constructor: `sameInput` is false even when both
   *  inputs are equal. */
  function FromInputs(conditionInput: seq<real>, predictionInput: seq<real>, output: seq<real>): (d: StateDescriptor)
    ensures d.Valid() && !d.IsSameInput()
    ensures d.GetConditionInput() == conditionInput && d.GetPredictionInput() == predictionInput
    ensures d.GetOutput() == output
  {
    StateDescriptor(false, conditionInput, predictionInput, output)
  }

  /** The two constructors give different descriptors for the same arrays:
   *  only the flag tells them apart. */
  lemma {:induction false} ConstructorsDiffer(input: seq<real>, output: seq<real>)
    ensures FromInput(input, output) != FromInputs(input, input, output)
    ensures FromInput(input, output).(sameInput := false) == FromInputs(input, input, output)
  {
  }

  /** The printed form tells the two kinds apart. */
  lemma {:induction false} ToStringShowsKind(d: StateDescriptor, show: real -> string)
    ensures d.IsSameInput() <==> d.ToString(show)[..1] == "i"
  {
    var s := d.ToString(show);
    var x := FileIO.ArrayToString(d.output, show);
    if d.sameInput {
      var t := "input=" + FileIO.ArrayToString(d.conditionInput, show) + ", output=";
      assert t[0] == 'i';
      assert s == t + x && |t| > 0;
      assert s[0] == 'i';
    } else {
      var t := "conInput=" + FileIO.ArrayToString(d.conditionInput, show)
        + ", preInput=" + FileIO.ArrayToString(d.predictionInput, show) + ", output=";
      assert t[0] == 'c';
      assert s == t + x && |t| > 0;
      assert s[0] == 'c';
    }
    assert s[..1] == [s[0]];
  }
}
