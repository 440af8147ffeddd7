/**
 * The exceptions the core raises. Python signals them by raising; here each
 * failing member returns one of these values instead.
 */
module Errors {
  import Text

  datatype Error =
    | UnsupportedOperation(name: string)    // ValueError from the factory
    | DivisionByZero                        // ZeroDivisionError from Divide
    | NotNumbers                            // ValueError from the CLI's operand parser
    | InvalidNumbers                        // ValidationError from the input validators
    | HistoryFileNotFound(path: string)     // FileNotFoundError before a load
    | MalformedFile                         // the CSV reader failed: a pandas parser error or an OS error
    | MissingColumns(columns: seq<string>)  // ValueError: required columns absent
    | NonNumericColumn(column: string)      // ValueError from numeric coercion of a column
    | InvalidBoolean(value: string)         // ConfigurationError: not a boolean word
    | EmptyHistoryPath                      // ConfigurationError: blank history path
  {
    /**
     * The Python exception is always a `ValueError` (or one of its subclasses).
     * A failed CSV read is left out: it may also be an `OSError`.
     */
    predicate IsValueError()
    {
      UnsupportedOperation? || NotNumbers? || MissingColumns? || NonNumericColumn?
    }

    /**
     * `str(exc)`: the text the CLI shows after "Error: ". Both operand parsers
     * share one text, and each message that carries a name, path or column ends with it.
     */
    function Message(): (r: string)
      ensures r != []
      ensures NotNumbers? || InvalidNumbers? ==> r == "Inputs must be numbers."
      ensures UnsupportedOperation? ==> |name| < |r| && r[|r| - |name|..] == name
      ensures HistoryFileNotFound? ==> |path| < |r| && r[|r| - |path|..] == path
      ensures NonNumericColumn? ==> |column| < |r| && r[|r| - |column|..] == column
    {
      match this
      case UnsupportedOperation(name) => "Unsupported operation: " + name
      case DivisionByZero => "Cannot divide by zero."
      case NotNumbers => "Inputs must be numbers."
      case InvalidNumbers => "Inputs must be numbers."
      case HistoryFileNotFound(path) => "History file not found: " + path
      case MalformedFile => "History CSV could not be parsed."
      case MissingColumns(columns) => "History CSV missing required columns: " + ListRepr(columns)
      case NonNumericColumn(column) => "Unable to parse string in column " + column
      case InvalidBoolean(value) => "Invalid boolean value: '" + value + "'"
      case EmptyHistoryPath => "CALC_HISTORY_PATH cannot be empty."
    }
  }

  /** Python's repr of a list of plain strings: `['a', 'b']`. */
  function ListRepr(items: seq<string>): string
  {
    "[" + Text.Join(seq(|items|, i requires 0 <= i < |items| => "'" + items[i] + "'"), ", ") + "]"
  }
}
