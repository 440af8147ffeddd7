/**
 * The command-line front end: one input line in, one reply out. Each line is
 * stripped, then read as blank, one of the words `help`, `history`, `exit`
 * (in any case), or `<op> <a> <b>`.
 */
module Cli {
  import opened Wrappers
  import opened Errors
  import opened Numbers
  import opened Text
  import opened Models
  import opened Factory
  import opened History
  import InputValidators

  /** The fixed part of the help text, before the list of operations. */
  const HelpHeader: string :=
    "Commands:\n  add | sub | mul | div  -> perform arithmetic\n  history                -> show session history\n"
    + "  help                   -> show this help\n  exit                   -> quit\n\nUsage:\n  <op> <a> <b>\n"

  const BlankReply: string := "Please enter a command. Type 'help' for options."
  const BadFormatReply: string := "Invalid format. Use: <op> <a> <b> (example: add 2 3)"

  /** `help_text(factory)`: the commands, the usage line, and the registered names in registry order. */
  function HelpText(): (text: string)
    ensures |text| > |HelpHeader| && text[..|HelpHeader|] == HelpHeader
  {
    HelpHeader + "Supported ops: " + Join(Supported(), ", ")
  }

  /** The help text ends by listing exactly the four registered operations. */
  lemma HelpListsOperations()
    ensures HelpText() == HelpHeader + "Supported ops: add, sub, mul, div"
  {
    SupportedJoined();
  }

  lemma SupportedJoined()
    ensures Join(Supported(), ", ") == "add, sub, mul, div"
  {
    var names := Supported();
    assert names[1..] == ["sub", "mul", "div"];
    assert Join(["div"], ", ") == "div";
    assert Join(["mul", "div"], ", ") == "mul" + ", " + "div";
    assert Join(["sub", "mul", "div"], ", ") == "sub" + ", " + "mul" + ", " + "div";
    assert Join(names, ", ") == "add" + ", " + "sub" + ", " + "mul" + ", " + "div";
  }

  /** `parse_numbers(a_str, b_str)`: a failed conversion is a plain `ValueError`. */
  function ParseNumbers(aText: string, bText: string, parse: Parser): (r: Result<(real, real), Error>)
    ensures r.Ok? <==> parse(aText).Some? && parse(bText).Some?
    ensures r.Ok? ==> r.value == (parse(aText).value, parse(bText).value)
    ensures r.Err? ==> r.error == NotNumbers && r.error.IsValueError()
  {
    InputValidators.ParsePair(aText, bText, parse, NotNumbers)
  }

  /** How `handle_line` reads a line. */
  datatype Command =
    | Blank
    | Help
    | ShowHistory
    | Exit
    | BadFormat
    | Calculate(op: string, aText: string, bText: string)

  /**
   * The command a line holds. The three command words are matched on the
   * stripped, lower-cased line; anything else must split into exactly three words.
   */
  function Classify(line: string): (c: Command)
    ensures c == Blank <==> Strip(line) == []
    ensures c == Help <==> Normalize(line) == "help"
    ensures c == ShowHistory <==> Normalize(line) == "history"
    ensures c == Exit <==> Normalize(line) == "exit"
    ensures c.Calculate? <==>
      Strip(line) != [] && Normalize(line) !in {"help", "history", "exit"} && |Split(Strip(line))| == 3
    ensures c.Calculate? ==> Split(Strip(line)) == [c.op, c.aText, c.bText]
  {
    var t := Strip(line);
    if t == [] then Blank
    else
      var cmd := Lower(t);
      if cmd == "help" then Help
      else if cmd == "history" then ShowHistory
      else if cmd == "exit" then Exit
      else
        var parts := Split(t);
        if |parts| != 3 then BadFormat else Calculate(parts[0], parts[1], parts[2])
  }

  /**
   * The `try` block of `handle_line`: operands first, then the factory, then the
   * arithmetic. Every failure it can meet is a `ValueError` or a
   * `ZeroDivisionError`, both of which the CLI reports.
   */
  function Evaluate(op: string, aText: string, bText: string, parse: Parser): (r: Result<(Calculation, real), Error>)
    ensures parse(aText).None? || parse(bText).None? ==> r == Err(NotNumbers)
    ensures parse(aText).Some? && parse(bText).Some? && Normalize(op) !in Supported() ==>
      r == Err(UnsupportedOperation(Normalize(op)))
    ensures parse(aText).Some? && parse(bText).Some? && Normalize(op) == "div" && parse(bText).value == 0.0 ==>
      r == Err(DivisionByZero)
    ensures r.Ok? <==> (parse(aText).Some? && parse(bText).Some? && Normalize(op) in Supported()
                        && !(Normalize(op) == "div" && parse(bText).value == 0.0))
    ensures r.Ok? ==> r.value.0 == Create(op, parse(aText).value, parse(bText).value).value
    ensures r.Ok? ==> r.value.0.Result() == Ok(r.value.1)
    ensures r.Err? ==> r.error.IsValueError() || r.error == DivisionByZero
  {
    match ParseNumbers(aText, bText, parse)
    case Err(e) => Err(e)
    case Ok((a, b)) =>
      match Create(op, a, b)
      case Err(e) => Err(e)
      case Ok(calculation) =>
        match calculation.Result()
        case Err(e) => Err(e)
        case Ok(v) => Ok((calculation, v))
  }

  /**
   * `handle_line(line, factory, history)` as a value: the reply (None means
   * quit) and the rows afterwards. Only a successful calculation changes the
   * rows, by appending its row; every failure is reported as "Error: " and the
   * exception's message.
   */
  function Respond(line: string, rows: seq<Row>, parse: Parser, show: Renderer): (r: (Option<string>, seq<Row>))
    ensures r.0 == None <==> Normalize(line) == "exit"
    ensures r.1 == rows || (|r.1| == |rows| + 1 && r.1[..|rows|] == rows && r.0 == Some("Result: " + show(r.1[|rows|].result)))
    ensures Strip(line) == [] ==> r == (Some(BlankReply), rows)
    ensures Normalize(line) == "help" ==> r == (Some(HelpText()), rows)
    ensures Normalize(line) == "history" ==> r == (Some(Join(Listing(rows, show), "\n")), rows)
    ensures Classify(line) == BadFormat ==> r == (Some(BadFormatReply), rows)
    ensures Classify(line).Calculate? ==>
      var c := Classify(line);
      match Evaluate(c.op, c.aText, c.bText, parse)
      case Ok((_, v)) =>
        r == (Some("Result: " + show(v)), rows + [Row(Normalize(c.op), parse(c.aText).value, parse(c.bText).value, v)])
      case Err(e) => r == (Some("Error: " + e.Message()), rows)
  {
    match Classify(line)
    case Blank => (Some(BlankReply), rows)
    case Help => (Some(HelpText()), rows)
    case ShowHistory => (Some(Join(Listing(rows, show), "\n")), rows)
    case Exit => (None, rows)
    case BadFormat => (Some(BadFormatReply), rows)
    case Calculate(op, aText, bText) =>
      match Evaluate(op, aText, bText, parse)
      case Err(e) => (Some("Error: " + e.Message()), rows)
      case Ok((calculation, v)) => (Some("Result: " + show(v)), rows + [RowOf(calculation, v)])
  }

  /** Blanks around a line change neither the reply nor the rows. */
  lemma RespondIgnoresPadding(left: string, line: string, right: string, rows: seq<Row>, parse: Parser, show: Renderer)
    requires AllSpace(left) && AllSpace(right)
    ensures Respond(left + line + right, rows, parse, show) == Respond(line, rows, parse, show)
  {
    StripIgnoresPadding(left, line, right);
  }

  /** A successful calculation is listed last by a following `history` command. */
  lemma ResultThenHistory(line: string, rows: seq<Row>, parse: Parser, show: Renderer)
    requires Respond(line, rows, parse, show).1 != rows
    ensures var after := Respond(line, rows, parse, show).1;
      var listing := Listing(after, show);
      |listing| == |rows| + 1 && listing[|rows|] == FormatRow(after[|rows|], show)
  {
  }

  /** Three blank-free words separated by single spaces are read as a calculation request. */
  lemma ClassifyThreeWords(op: string, x: string, y: string, line: string)
    requires op != [] && NoSpace(op) && x != [] && NoSpace(x) && y != [] && NoSpace(y)
    requires line == op + " " + x + " " + y
    ensures Classify(line) == Calculate(op, x, y)
  {
    SplitThreeWords(op, x, y);
    StripThreeWords(op, x, y);
    assert Lower(line)[|op|] == ' ';
    NotCommandWord(Lower(line));
  }

  lemma NotCommandWord(s: string)
    requires ' ' in s
    ensures s !in {"help", "history", "exit"}
  {
    assert ' ' !in "help" && ' ' !in "history" && ' ' !in "exit";
  }

  /** A calculation request that fails is reported with the error's message and changes no row. */
  lemma RespondToFailure(line: string, rows: seq<Row>, parse: Parser, show: Renderer, e: Error)
    requires Classify(line).Calculate?
    requires Evaluate(Classify(line).op, Classify(line).aText, Classify(line).bText, parse) == Err(e)
    ensures Respond(line, rows, parse, show) == (Some("Error: " + e.Message()), rows)
  {
  }

  /** A calculation request that succeeds replies with the rendered result and appends its row. */
  lemma RespondToSuccess(line: string, rows: seq<Row>, parse: Parser, show: Renderer, c: Calculation, v: real)
    requires Classify(line).Calculate?
    requires Evaluate(Classify(line).op, Classify(line).aText, Classify(line).bText, parse) == Ok((c, v))
    ensures Respond(line, rows, parse, show) == (Some("Result: " + show(v)), rows + [RowOf(c, v)])
  {
  }

  /** With both operands readable, a registered operation's own name evaluates to that operation's result. */
  lemma EvaluateOperation(op: Arithmetic.Operation, aText: string, bText: string, parse: Parser)
    requires parse(aText).Some? && parse(bText).Some?
    ensures var c := Calculation(op, parse(aText).value, parse(bText).value);
      Evaluate(op.Name(), aText, bText, parse) ==
        match c.Result()
        case Err(e) => Err(e)
        case Ok(v) => Ok((c, v))
  {
    CreateByName(op, parse(aText).value, parse(bText).value);
  }

  /** `add 2 3` replies with the rendered 5 and appends the row `add 2 3 = 5`. */
  lemma AddTwoThree(rows: seq<Row>, parse: Parser, show: Renderer)
    requires parse("2") == Some(2.0) && parse("3") == Some(3.0)
    ensures Respond("add 2 3", rows, parse, show) == (Some("Result: " + show(5.0)), rows + [Row("add", 2.0, 3.0, 5.0)])
  {
    ClassifyThreeWords("add", "2", "3", "add 2 3");
    EvaluateOperation(Arithmetic.Add, "2", "3", parse);
    RespondToSuccess("add 2 3", rows, parse, show, Calculation(Arithmetic.Add, 2.0, 3.0), 5.0);
  }

  /** `div 1 0` reports the division by zero and leaves the rows alone. */
  lemma DivideOneByZero(rows: seq<Row>, parse: Parser, show: Renderer)
    requires parse("1") == Some(1.0) && parse("0") == Some(0.0)
    ensures Respond("div 1 0", rows, parse, show) == (Some("Error: Cannot divide by zero."), rows)
  {
    ClassifyThreeWords("div", "1", "0", "div 1 0");
    DivideByZeroFails(parse);
    RespondToFailure("div 1 0", rows, parse, show, DivisionByZero);
    DivisionMessage();
  }

  lemma DivideByZeroFails(parse: Parser)
    requires parse("1") == Some(1.0) && parse("0") == Some(0.0)
    ensures Evaluate("div", "1", "0", parse) == Err(DivisionByZero)
  {
    EvaluateOperation(Arithmetic.Divide, "1", "0", parse);
  }

  lemma DivisionMessage()
    ensures "Error: " + DivisionByZero.Message() == "Error: Cannot divide by zero."
  {
    var m := DivisionByZero.Message();
    assert m == "Cannot divide by zero.";
  }

  /** `nope 2 3` is rejected by the factory under its own name, and the rows stay as they were. */
  lemma UnknownOperationReply(rows: seq<Row>, parse: Parser, show: Renderer)
    requires parse("2") == Some(2.0) && parse("3") == Some(3.0)
    ensures Respond("nope 2 3", rows, parse, show) == (Some("Error: Unsupported operation: nope"), rows)
  {
    ClassifyThreeWords("nope", "2", "3", "nope 2 3");
    NopeIsUnsupported(parse);
    RespondToFailure("nope 2 3", rows, parse, show, UnsupportedOperation("nope"));
    NopeMessage();
  }

  lemma NopeMessage()
    ensures "Error: " + UnsupportedOperation("nope").Message() == "Error: Unsupported operation: nope"
  {
    assert UnsupportedOperation("nope").Message() == "Unsupported operation: " + "nope";
  }

  lemma NopeIsUnsupported(parse: Parser)
    requires parse("2") == Some(2.0) && parse("3") == Some(3.0)
    ensures Evaluate("nope", "2", "3", parse) == Err(UnsupportedOperation("nope"))
  {
    Unregistered("nope");
  }

  /** `handle_line`, changing the history in place. */
  method HandleLine(line: string, history: CalculationHistory, parse: Parser, show: Renderer) returns (reply: Option<string>)
    modifies history
    ensures (reply, history.rows) == Respond(line, old(history.rows), parse, show)
  {
    var t := Strip(line);
    if t == [] {
      return Some(BlankReply);
    }
    var cmd := Lower(t);
    if cmd == "help" {
      return Some(HelpText());
    }
    if cmd == "history" {
      var lines := history.FormatLines(show);
      return Some(Join(lines, "\n"));
    }
    if cmd == "exit" {
      return None;
    }
    var parts := Split(t);
    if |parts| != 3 {
      return Some(BadFormatReply);
    }
    match Evaluate(parts[0], parts[1], parts[2], parse)
    case Err(e) =>
      reply := Some("Error: " + e.Message());
    case Ok((calculation, v)) =>
      var added := history.Add(calculation);
      reply := Some("Result: " + show(v));
  }
}
