/**
 * Python's `float(text)` and the float repr used by f-strings are not modelled
 * character by character: every member that needs them takes them as parameters.
 */
module Numbers {
  import opened Wrappers

  /** `float(text)`, or pandas' `to_numeric` on one cell: None when the text is not a number. */
  type Parser = string -> Option<real>

  /** `str(x)` for a float, as an f-string renders it (for example `2.0`). */
  type Renderer = real -> string

  /** Reading back what was written for `x` gives `x` again. */
  predicate ReadsBack(show: Renderer, parse: Parser, x: real)
  {
    parse(show(x)) == Some(x)
  }
}
