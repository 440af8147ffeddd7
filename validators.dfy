/** The input validators: splitting a command line and reading its two operands. */
module InputValidators {
  import opened Wrappers
  import opened Errors
  import opened Numbers
  import opened Text

  /** `split_command(line)`: the whitespace-separated words of the stripped line, none of them empty. */
  function SplitCommand(line: string): (words: seq<string>)
    ensures forall i :: 0 <= i < |words| ==> words[i] != [] && NoSpace(words[i])
  {
    Split(Strip(line))
  }

  /**
   * Stripping first changes nothing about the words, blanks around the line are
   * ignored, and words joined by single spaces split back into the same words.
   */
  lemma SplitCommandWords(line: string, left: string, right: string, words: seq<string>)
    ensures SplitCommand(line) == Split(line)
    ensures AllSpace(left) && AllSpace(right) ==> SplitCommand(left + line + right) == SplitCommand(line)
    ensures (forall i :: 0 <= i < |words| ==> words[i] != [] && NoSpace(words[i])) ==>
      SplitCommand(Join(words, " ")) == words
  {
    SplitStrip(line);
    if AllSpace(left) && AllSpace(right) {
      StripIgnoresPadding(left, line, right);
    }
    if forall i :: 0 <= i < |words| ==> words[i] != [] && NoSpace(words[i]) {
      SplitStrip(Join(words, " "));
      SplitJoin(words);
    }
  }

  /**
   * Both operands converted with `float()`, the first before the second; if
   * either conversion fails the pair fails with `failure`.
   */
  function ParsePair(aText: string, bText: string, parse: Parser, failure: Error): (r: Result<(real, real), Error>)
    ensures r.Ok? <==> parse(aText).Some? && parse(bText).Some?
    ensures r.Ok? ==> r.value == (parse(aText).value, parse(bText).value)
    ensures r.Err? ==> r.error == failure
  {
    match parse(aText)
    case None => Err(failure)
    case Some(a) =>
      match parse(bText)
      case None => Err(failure)
      case Some(b) => Ok((a, b))
  }

  /** Two numbers whose rendered text the parser reads back are recovered exactly, in order. */
  lemma ParsePairReadsRendered(a: real, b: real, show: Renderer, parse: Parser, failure: Error)
    requires ReadsBack(show, parse, a) && ReadsBack(show, parse, b)
    ensures ParsePair(show(a), show(b), parse, failure) == Ok((a, b))
  {
  }

  /** `parse_two_numbers(a_str, b_str)`: a failed conversion is a `ValidationError`. */
  function ParseTwoNumbers(aText: string, bText: string, parse: Parser): (r: Result<(real, real), Error>)
    ensures r.Ok? <==> parse(aText).Some? && parse(bText).Some?
    ensures r.Ok? ==> r.value == (parse(aText).value, parse(bText).value)
    ensures r.Err? ==> r.error == InvalidNumbers && !r.error.IsValueError()
  {
    ParsePair(aText, bText, parse, InvalidNumbers)
  }
}
