/** A calculation: an operation paired with its two operands, evaluated on demand. */
module Models {
  import opened Wrappers
  import opened Errors
  import opened Arithmetic
  import opened Numbers
  import Text

  /** Frozen: a value, so its fields never change after construction. */
  datatype Calculation = Calculation(operation: Operation, a: real, b: real)
  {
    /** `result()`: recomputed on every call; fails only for a division by zero, whose error it passes on. */
    function Result(): (r: Wrappers.Result<real, Error>)
      ensures r.Err? <==> (operation == Divide && b == 0.0)
      ensures r.Err? ==> r.error == DivisionByZero
    {
      operation.Compute(a, b)
    }

    /** `format()`: fails exactly when `result()` fails; otherwise the line `<name> <a> <b> = <result>`. */
    function Format(show: Renderer): (r: Wrappers.Result<string, Error>)
      ensures r.Err? <==> Result().Err?
      ensures r.Err? ==> r.error == DivisionByZero
      ensures r.Ok? ==> r.value == FormatLine(operation.Name(), show(a), show(b), show(Result().value))
    {
      match Result()
      case Err(e) => Err(e)
      case Ok(v) => Ok(FormatLine(operation.Name(), show(a), show(b), show(v)))
    }
  }

  /** The display line shared by `Calculation.format` and the history listing. */
  function FormatLine(op: string, a: string, b: string, result: string): string
  {
    op + " " + a + " " + b + " = " + result
  }

  /**
   * A display line reads back, word by word, as the operation, the two operands,
   * "=" and the result, whenever each of those is one whitespace-free word.
   */
  lemma FormatLineWords(op: string, a: string, b: string, result: string)
    requires op != [] && Text.NoSpace(op)
    requires a != [] && Text.NoSpace(a)
    requires b != [] && Text.NoSpace(b)
    requires result != [] && Text.NoSpace(result)
    ensures Text.Split(FormatLine(op, a, b, result)) == [op, a, b, "=", result]
  {
    var words := [op, a, b, "=", result];
    assert Text.NoSpace("=");
    assert Text.Join(words, " ") == FormatLine(op, a, b, result) by {
      assert Text.Join(words[4..], " ") == result;
      assert Text.Join(words[3..], " ") == "=" + " " + result;
      assert Text.Join(words[2..], " ") == b + " " + ("=" + " " + result);
      assert Text.Join(words[1..], " ") == a + " " + (b + " " + ("=" + " " + result));
    }
    Text.SplitJoin(words);
  }
}
