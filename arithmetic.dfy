/** The four binary operations the calculator registers, over exact reals. */
module Arithmetic {
  import opened Wrappers
  import opened Errors

  datatype Operation = Add | Subtract | Multiply | Divide
  {
    /** The `name` class attribute each operation carries. */
    function Name(): string
    {
      match this
      case Add => "add"
      case Subtract => "sub"
      case Multiply => "mul"
      case Divide => "div"
    }

    /** `compute(a, b)`: only a division by zero fails, and it fails before dividing. */
    function Compute(a: real, b: real): (r: Result<real, Error>)
      ensures r.Err? <==> (this == Divide && b == 0.0)
      ensures r.Err? ==> r.error == DivisionByZero
    {
      match this
      case Add => Ok(a + b)
      case Subtract => Ok(a - b)
      case Multiply => Ok(a * b)
      case Divide => if b == 0.0 then Err(DivisionByZero) else Ok(a / b)
    }
  }

  /** No two operations share a name. */
  lemma NamesDistinct(x: Operation, y: Operation)
    ensures x.Name() == y.Name() ==> x == y
  {
  }
}
