/**
 * The calculator facade: a history plus two stacks of snapshots giving undo and
 * redo. The session's transitions are first defined as functions on a `Session`
 * value; the `Calculator` class then performs them in place and is proved to
 * follow them.
 */
module Facade {
  import opened Wrappers
  import opened Errors
  import opened Numbers
  import opened Models
  import opened Arithmetic
  import opened Factory
  import opened History
  import Text

  /** The rows and the two stacks; the top of a stack is its last element. */
  datatype Session = Session(rows: seq<Row>, undo: seq<HistorySnapshot>, redo: seq<HistorySnapshot>)

  /** `_record_undo_before_change`: push the current rows on the undo stack and empty the redo stack. */
  function Record(s: Session): Session
  {
    Session(s.rows, s.undo + [HistorySnapshot(s.rows)], [])
  }

  /** `clear()`: a recorded change that leaves no rows. */
  function ClearStep(s: Session): (r: Session)
    ensures r.rows == [] && r.redo == []
    ensures r.undo == s.undo + [HistorySnapshot(s.rows)]
  {
    Record(s).(rows := [])
  }

  /**
   * `execute(op_name, a, b)`. The name is looked up before anything changes, so
   * an unknown name leaves the session as it was. Past the lookup the change is
   * recorded before the result is computed, so a division by zero still pushes
   * an undo entry and empties the redo stack, though it adds no row. A success
   * appends exactly one row and returns its result.
   */
  function ExecuteStep(s: Session, opName: string, a: real, b: real): (r: (Session, Result<real, Error>))
    ensures Text.Normalize(opName) !in Supported() ==> r == (s, Err(UnsupportedOperation(Text.Normalize(opName))))
    ensures Text.Normalize(opName) in Supported() ==> r.0.undo == s.undo + [HistorySnapshot(s.rows)] && r.0.redo == []
    ensures r.1.Ok? <==> Text.Normalize(opName) in Supported() && !(Text.Normalize(opName) == "div" && b == 0.0)
    ensures r.1.Err? ==> r.0.rows == s.rows
    ensures Text.Normalize(opName) == "div" && b == 0.0 ==> r == (Record(s), Err(DivisionByZero))
    ensures r.1.Ok? ==> r.0.rows == s.rows + [Row(Text.Normalize(opName), a, b, r.1.value)]
    ensures r.1.Ok? ==> Create(opName, a, b).value.Result() == Ok(r.1.value)
  {
    match Create(opName, a, b)
    case Err(e) => (s, Err(e))
    case Ok(calculation) =>
      var recorded := Record(s);
      match calculation.Result()
      case Err(e) => (recorded, Err(e))
      case Ok(v) => (recorded.(rows := recorded.rows + [RowOf(calculation, v)]), Ok(v))
  }

  /**
   * `undo()`: with an empty undo stack, nothing happens and the answer is false.
   * Otherwise the current rows go on the redo stack and the top undo snapshot
   * becomes the history; the two stacks together keep their size.
   */
  function UndoStep(s: Session): (r: (Session, bool))
    ensures !r.1 <==> s.undo == []
    ensures !r.1 ==> r.0 == s
    ensures r.1 ==> r.0.rows == s.undo[|s.undo| - 1].rows
    ensures r.1 ==> r.0.undo == s.undo[..|s.undo| - 1] && r.0.redo == s.redo + [HistorySnapshot(s.rows)]
    ensures |r.0.undo| + |r.0.redo| == |s.undo| + |s.redo|
  {
    if s.undo == [] then (s, false)
    else
      var top := s.undo[|s.undo| - 1];
      (Session(top.rows, s.undo[..|s.undo| - 1], s.redo + [HistorySnapshot(s.rows)]), true)
  }

  /** `redo()`: the mirror image of `undo()`, moving a snapshot from the redo stack back to the undo stack. */
  function RedoStep(s: Session): (r: (Session, bool))
    ensures !r.1 <==> s.redo == []
    ensures !r.1 ==> r.0 == s
    ensures r.1 ==> r.0.rows == s.redo[|s.redo| - 1].rows
    ensures r.1 ==> r.0.redo == s.redo[..|s.redo| - 1] && r.0.undo == s.undo + [HistorySnapshot(s.rows)]
    ensures |r.0.undo| + |r.0.redo| == |s.undo| + |s.redo|
  {
    if s.redo == [] then (s, false)
    else
      var top := s.redo[|s.redo| - 1];
      (Session(top.rows, s.undo + [HistorySnapshot(s.rows)], s.redo[..|s.redo| - 1]), true)
  }

  /**
   * `load()`: an absent file fails before the stacks are touched. Otherwise the
   * change is recorded first, so a file that then fails to load still pushes an
   * undo entry and empties the redo stack, while the rows stay as they were.
   */
  function LoadStep(s: Session, path: string, file: StoredFile, parse: Parser): (r: (Session, Outcome<Error>))
    ensures file.Missing? ==> r == (s, Fail(HistoryFileNotFound(path)))
    ensures !file.Missing? ==> r.0.undo == s.undo + [HistorySnapshot(s.rows)] && r.0.redo == []
    ensures r.1.Pass? <==> LoadFile(path, file, parse).Ok?
    ensures r.1.Pass? ==> r.0.rows == LoadFile(path, file, parse).value
    ensures !file.Missing? && LoadFile(path, file, parse).Err? ==> r.1 == Fail(LoadFile(path, file, parse).error)
    ensures r.1.Fail? ==> r.0.rows == s.rows
  {
    if file.Missing? then (s, Fail(HistoryFileNotFound(path)))
    else
      var recorded := Record(s);
      match LoadFile(path, file, parse)
      case Err(e) => (recorded, Fail(e))
      case Ok(loaded) => (recorded.(rows := loaded), Pass)
  }

  /**
   * `auto_load_if_exists()`: false when the file is absent; otherwise a load
   * that replaces the rows without touching either stack.
   */
  function AutoLoadStep(s: Session, path: string, file: StoredFile, parse: Parser): (r: (Session, Result<bool, Error>))
    ensures r.0.undo == s.undo && r.0.redo == s.redo
    ensures file.Missing? <==> r.1 == Ok(false)
    ensures r.1 == Ok(true) ==> LoadFile(path, file, parse).Ok? && r.0.rows == LoadFile(path, file, parse).value
    ensures !file.Missing? ==>
      r.1 == (if LoadFile(path, file, parse).Ok? then Ok(true) else Err(LoadFile(path, file, parse).error))
    ensures !file.Missing? && LoadFile(path, file, parse).Ok? ==> r.0.rows == LoadFile(path, file, parse).value
    ensures r.1 != Ok(true) ==> r.0.rows == s.rows
  {
    if file.Missing? then (s, Ok(false))
    else
      match LoadFile(path, file, parse)
      case Err(e) => (s, Err(e))
      case Ok(loaded) => (s.(rows := loaded), Ok(true))
  }

  /** An undo immediately followed by a redo puts the rows and both stacks back as they were. */
  lemma UndoThenRedo(s: Session)
    requires s.undo != []
    ensures RedoStep(UndoStep(s).0) == (s, true)
  {
    var u := UndoStep(s).0;
    assert u.undo + [HistorySnapshot(u.rows)] == s.undo;
  }

  /** A redo immediately followed by an undo puts the rows and both stacks back as they were. */
  lemma RedoThenUndo(s: Session)
    requires s.redo != []
    ensures UndoStep(RedoStep(s).0) == (s, true)
  {
    var r := RedoStep(s).0;
    assert r.redo + [HistorySnapshot(r.rows)] == s.redo;
  }

  /**
   * A recorded change: the current rows go on the undo stack, the redo stack is
   * emptied, and `rows` becomes the history.
   */
  function Change(s: Session, rows: seq<Row>): Session
  {
    Session(rows, s.undo + [HistorySnapshot(s.rows)], [])
  }

  /**
   * `clear()`, an `execute()` whose name gets past the factory (whether or not
   * the arithmetic then fails), and a `load()` of a file that exists (whether or
   * not it then decodes) are all recorded changes; so a redo right after any of
   * them fails.
   */
  lemma ChangesAreRecorded(s: Session, opName: string, a: real, b: real, path: string, file: StoredFile, parse: Parser)
    ensures ClearStep(s) == Change(s, [])
    ensures Text.Normalize(opName) in Supported() ==>
      ExecuteStep(s, opName, a, b).0 == Change(s, ExecuteStep(s, opName, a, b).0.rows)
    ensures !file.Missing? ==> LoadStep(s, path, file, parse).0 == Change(s, LoadStep(s, path, file, parse).0.rows)
    ensures forall rows :: !RedoStep(Change(s, rows)).1
  {
  }

  /** The one row `add 2 3 = 5`. */
  const AddRow := Row("add", 2.0, 3.0, 5.0)

  /**
   * A division by zero is still an undoable step: after `add 2 3` and a failed
   * `div 1 0` the first undo leaves the one row in place, and only a second
   * undo empties the history.
   */
  lemma FailedDivisionTakesAnUndo()
    ensures ExecuteStep(Session([], [], []), "add", 2.0, 3.0) == (Session([AddRow], [HistorySnapshot([])], []), Ok(5.0))
    ensures ExecuteStep(Session([AddRow], [HistorySnapshot([])], []), "div", 1.0, 0.0)
      == (Session([AddRow], [HistorySnapshot([]), HistorySnapshot([AddRow])], []), Err(DivisionByZero))
    ensures UndoStep(Session([AddRow], [HistorySnapshot([]), HistorySnapshot([AddRow])], []))
      == (Session([AddRow], [HistorySnapshot([])], [HistorySnapshot([AddRow])]), true)
    ensures UndoStep(Session([AddRow], [HistorySnapshot([])], [HistorySnapshot([AddRow])]))
      == (Session([], [], [HistorySnapshot([AddRow]), HistorySnapshot([AddRow])]), true)
  {
    AddToEmpty();
    DivideAfterAdd();
    UndoAfterFailedDivide();
    UndoAfterAdd();
  }

  lemma UndoAfterFailedDivide()
    ensures UndoStep(Session([AddRow], [HistorySnapshot([]), HistorySnapshot([AddRow])], []))
      == (Session([AddRow], [HistorySnapshot([])], [HistorySnapshot([AddRow])]), true)
  {
    var s := Session([AddRow], [HistorySnapshot([]), HistorySnapshot([AddRow])], []);
    assert s.undo[..|s.undo| - 1] == [HistorySnapshot([])];
    assert s.redo + [HistorySnapshot(s.rows)] == [HistorySnapshot([AddRow])];
  }

  lemma UndoAfterAdd()
    ensures UndoStep(Session([AddRow], [HistorySnapshot([])], [HistorySnapshot([AddRow])]))
      == (Session([], [], [HistorySnapshot([AddRow]), HistorySnapshot([AddRow])]), true)
  {
    var s := Session([AddRow], [HistorySnapshot([])], [HistorySnapshot([AddRow])]);
    assert s.undo[..|s.undo| - 1] == [];
    assert s.redo + [HistorySnapshot(s.rows)] == [HistorySnapshot([AddRow]), HistorySnapshot([AddRow])];
  }

  lemma AddToEmpty()
    ensures ExecuteStep(Session([], [], []), "add", 2.0, 3.0) == (Session([AddRow], [HistorySnapshot([])], []), Ok(5.0))
  {
    var s0 := Session([], [], []);
    ExecuteOperation(s0, Add, 2.0, 3.0);
    assert Calculation(Add, 2.0, 3.0).Result() == Ok(5.0);
    assert RowOf(Calculation(Add, 2.0, 3.0), 5.0) == AddRow;
    assert ExecuteStep(s0, Add.Name(), 2.0, 3.0) == (Record(s0).(rows := s0.rows + [AddRow]), Ok(5.0));
    assert s0.rows + [AddRow] == [AddRow];
    assert Record(s0).(rows := s0.rows + [AddRow]) == Session([AddRow], [HistorySnapshot([])], []);
    assert Add.Name() == "add";
  }

  lemma DivideAfterAdd()
    ensures ExecuteStep(Session([AddRow], [HistorySnapshot([])], []), "div", 1.0, 0.0)
      == (Session([AddRow], [HistorySnapshot([]), HistorySnapshot([AddRow])], []), Err(DivisionByZero))
  {
    var s1 := Session([AddRow], [HistorySnapshot([])], []);
    ExecuteOperation(s1, Divide, 1.0, 0.0);
    assert Calculation(Divide, 1.0, 0.0).Result() == Err(DivisionByZero);
    assert ExecuteStep(s1, Divide.Name(), 1.0, 0.0) == (Record(s1), Err(DivisionByZero));
    assert Record(s1) == Session([AddRow], [HistorySnapshot([]), HistorySnapshot([AddRow])], []);
    assert Divide.Name() == "div";
  }

  /** A registered operation's own name records a snapshot, then appends its row unless the arithmetic fails. */
  lemma ExecuteOperation(s: Session, op: Operation, a: real, b: real)
    ensures Text.Normalize(op.Name()) == op.Name()
    ensures var c := Calculation(op, a, b);
      ExecuteStep(s, op.Name(), a, b) ==
        match c.Result()
        case Err(e) => (Record(s), Err(e))
        case Ok(v) => (Record(s).(rows := s.rows + [RowOf(c, v)]), Ok(v))
  {
    CreateByName(op, a, b);
  }

  /** The changes to the rows `versions[0]`, `versions[1]`, ... made in order. */
  function ChangeAll(s: Session, versions: seq<seq<Row>>): Session
    decreases |versions|
  {
    if versions == [] then s
    else Change(ChangeAll(s, versions[..|versions| - 1]), versions[|versions| - 1])
  }

  /** `n` undo requests in a row. */
  function UndoTimes(s: Session, n: nat): Session
    decreases n
  {
    if n == 0 then s else UndoTimes(UndoStep(s).0, n - 1)
  }

  /** `n` redo requests in a row. */
  function RedoTimes(s: Session, n: nat): Session
    decreases n
  {
    if n == 0 then s else RedoStep(RedoTimes(s, n - 1)).0
  }

  /** After a run of changes the history is the last version and each change has pushed one undo entry. */
  lemma {:induction false} ChangeAllShape(s: Session, versions: seq<seq<Row>>)
    ensures ChangeAll(s, versions).rows == if versions == [] then s.rows else versions[|versions| - 1]
    ensures |ChangeAll(s, versions).undo| == |s.undo| + |versions|
    decreases |versions|
  {
    if versions != [] {
      ChangeAllShape(s, versions[..|versions| - 1]);
    }
  }

  /** The redo stack plays no part in what undo does to the rows and the undo stack. */
  lemma {:induction false} UndoTimesIgnoresRedo(s: Session, s': Session, n: nat)
    requires s.rows == s'.rows && s.undo == s'.undo
    ensures UndoTimes(s, n).rows == UndoTimes(s', n).rows
    ensures UndoTimes(s, n).undo == UndoTimes(s', n).undo
    decreases n
  {
    if n > 0 {
      UndoTimesIgnoresRedo(UndoStep(s).0, UndoStep(s').0, n - 1);
    }
  }

  /**
   * After a run of changes, undoing all but the first `k` of them gives back
   * the rows and the undo stack as they stood after those `k` changes (for
   * `k` = 0, as they stood before any of them).
   */
  lemma {:induction false} UndoReversesChanges(s: Session, versions: seq<seq<Row>>, k: nat)
    requires k <= |versions|
    ensures UndoTimes(ChangeAll(s, versions), |versions| - k).rows == ChangeAll(s, versions[..k]).rows
    ensures UndoTimes(ChangeAll(s, versions), |versions| - k).undo == ChangeAll(s, versions[..k]).undo
    decreases |versions|
  {
    if k == |versions| {
      assert versions[..k] == versions;
    } else {
      var init := versions[..|versions| - 1];
      var t := ChangeAll(s, init);
      UndoTimesIgnoresRedo(UndoStep(Change(t, versions[|versions| - 1])).0, t, |init| - k);
      UndoReversesChanges(s, init, k);
      assert init[..k] == versions[..k];
    }
  }

  /** Splitting a run of undos: `m + n` undos are `m` undos followed by `n` more. */
  lemma {:induction false} UndoTimesAdd(s: Session, m: nat, n: nat)
    ensures UndoTimes(s, m + n) == UndoTimes(UndoTimes(s, m), n)
    decreases m
  {
    if m > 0 {
      UndoTimesAdd(UndoStep(s).0, m - 1, n);
    }
  }

  /** `k` undos followed by `k` redos restore the rows and both stacks, when there were `k` entries to undo. */
  lemma {:induction false} RedoTimesUndoesUndoTimes(s: Session, k: nat)
    requires k <= |s.undo|
    ensures RedoTimes(UndoTimes(s, k), k) == s
    decreases k
  {
    if k > 0 {
      var u := UndoStep(s).0;
      assert UndoTimes(s, k) == UndoTimes(u, k - 1);
      RedoTimesUndoesUndoTimes(u, k - 1);
      assert RedoTimes(UndoTimes(u, k - 1), k) == RedoStep(u).0;
      UndoThenRedo(s);
    }
  }

  /**
   * After `n` changes and `n` undos the history is what it was before them;
   * `k <= n` redos from there bring back the version the `k`-th change left.
   */
  lemma RedoReplaysChanges(s: Session, versions: seq<seq<Row>>, k: nat)
    requires k <= |versions|
    ensures UndoTimes(ChangeAll(s, versions), |versions|).rows == s.rows
    ensures RedoTimes(UndoTimes(ChangeAll(s, versions), |versions|), k).rows ==
      if k == 0 then s.rows else versions[k - 1]
  {
    var e := ChangeAll(s, versions);
    UndoReversesChanges(s, versions, 0);
    assert versions[..0] == [];
    var x := UndoTimes(e, |versions| - k);
    UndoReversesChanges(s, versions, k);
    ChangeAllShape(s, versions[..k]);
    assert x.rows == if k == 0 then s.rows else versions[k - 1];
    assert |x.undo| == |s.undo| + k;
    UndoTimesAdd(e, |versions| - k, k);
    assert UndoTimes(e, |versions|) == UndoTimes(x, k);
    RedoTimesUndoesUndoTimes(x, k);
  }

  /** `Calculator`: the history object, its path, and the two stacks. */
  class Calculator {
    const history: CalculationHistory
    const historyPath: string
    var undoStack: seq<HistorySnapshot>
    var redoStack: seq<HistorySnapshot>

    /** The session this object currently holds. */
    ghost function State(): Session
      reads this, history
    {
      Session(history.rows, undoStack, redoStack)
    }

    /** `create_default(history_path)`: an empty history and two empty stacks. */
    constructor CreateDefault(path: string := "history.csv")
      ensures fresh(history) && historyPath == path
      ensures State() == Session([], [], [])
    {
      history := new CalculationHistory();
      historyPath := path;
      undoStack, redoStack := [], [];
    }

    method RecordUndoBeforeChange()
      modifies this
      ensures State() == Record(old(State()))
    {
      var snap := history.Snapshot();
      undoStack := undoStack + [snap];
      redoStack := [];
    }

    method Clear()
      modifies this, history
      ensures State() == ClearStep(old(State()))
    {
      RecordUndoBeforeChange();
      history.Clear();
    }

    method Execute(opName: string, a: real, b: real) returns (r: Result<real, Error>)
      modifies this, history
      ensures (State(), r) == ExecuteStep(old(State()), opName, a, b)
    {
      var created := Create(opName, a, b);
      if created.Err? {
        return Err(created.error);
      }
      var calculation := created.value;
      RecordUndoBeforeChange();
      var result := calculation.Result();
      if result.Err? {
        return Err(result.error);
      }
      var added := history.Add(calculation);
      r := Ok(result.value);
    }

    method Undo() returns (ok: bool)
      modifies this, history
      ensures (State(), ok) == UndoStep(old(State()))
    {
      if undoStack == [] {
        return false;
      }
      var current := history.Snapshot();
      redoStack := redoStack + [current];
      var snap := undoStack[|undoStack| - 1];
      undoStack := undoStack[..|undoStack| - 1];
      history.Restore(snap);
      ok := true;
    }

    method Redo() returns (ok: bool)
      modifies this, history
      ensures (State(), ok) == RedoStep(old(State()))
    {
      if redoStack == [] {
        return false;
      }
      var current := history.Snapshot();
      undoStack := undoStack + [current];
      var snap := redoStack[|redoStack| - 1];
      redoStack := redoStack[..|redoStack| - 1];
      history.Restore(snap);
      ok := true;
    }

    /** `history_lines()`. */
    method HistoryLines(show: Renderer) returns (lines: seq<string>)
      ensures lines == Listing(history.rows, show)
    {
      lines := history.FormatLines(show);
    }

    /** `save()`: the table written to the history path. */
    method Save(show: Renderer) returns (t: Table)
      ensures t == EncodeTable(history.rows, show)
    {
      t := history.Save(show);
    }

    /** `load()`, with `file` what lies at the history path. */
    method Load(file: StoredFile, parse: Parser) returns (outcome: Outcome<Error>)
      modifies this, history
      ensures (State(), outcome) == LoadStep(old(State()), historyPath, file, parse)
    {
      if file.Missing? {
        return Fail(HistoryFileNotFound(historyPath));
      }
      RecordUndoBeforeChange();
      outcome := history.Load(historyPath, file, parse);
    }

    /** `auto_load_if_exists()`, with `file` what lies at the history path. */
    method AutoLoadIfExists(file: StoredFile, parse: Parser) returns (r: Result<bool, Error>)
      modifies history
      ensures (State(), r) == AutoLoadStep(old(State()), historyPath, file, parse)
    {
      if file.Missing? {
        return Ok(false);
      }
      var outcome := history.Load(historyPath, file, parse);
      if outcome.Fail? {
        return Err(outcome.error);
      }
      r := Ok(true);
    }
  }
}
