/** The fixed registry that turns an operation name into a calculation. */
module Factory {
  import opened Wrappers
  import opened Errors
  import opened Arithmetic
  import opened Models
  import Text

  /** The registry dictionary, in insertion order; it is built once and never changed. */
  const Registry: seq<(string, Operation)> :=
    [("add", Add), ("sub", Subtract), ("mul", Multiply), ("div", Divide)]

  /** `supported`: the registry's keys in insertion order. */
  function Supported(): (names: seq<string>)
    ensures names == ["add", "sub", "mul", "div"]
  {
    seq(|Registry|, i requires 0 <= i < |Registry| => Registry[i].0)
  }

  /** Dictionary lookup over an insertion-ordered list of entries. */
  function Find(entries: seq<(string, Operation)>, key: string): (r: Option<Operation>)
    ensures r.Some? <==> exists i :: 0 <= i < |entries| && entries[i].0 == key
    ensures r.Some? ==> exists i :: 0 <= i < |entries| && entries[i] == (key, r.value)
  {
    if entries == [] then None
    else if entries[0].0 == key then Some(entries[0].1)
    else Find(entries[1..], key)
  }

  function Lookup(key: string): Option<Operation>
  {
    Find(Registry, key)
  }

  /**
   * Lookup and naming are inverse: every operation is registered under its own
   * name, and a key finds an operation exactly when it is a supported name.
   */
  lemma LookupMatchesNames(op: Operation, key: string)
    ensures Lookup(op.Name()) == Some(op)
    ensures Lookup(key).Some? <==> key in Supported()
    ensures Lookup(key).Some? ==> Lookup(key).value.Name() == key
  {
    var r := Registry;
    assert r[1..] == [("sub", Subtract), ("mul", Multiply), ("div", Divide)];
    assert r[1..][1..] == [("mul", Multiply), ("div", Divide)];
    assert r[1..][1..][1..] == [("div", Divide)];
    assert r[1..][1..][1..][1..] == [];
    assert Lookup(key) == if key == "add" then Some(Add) else if key == "sub" then Some(Subtract)
      else if key == "mul" then Some(Multiply) else if key == "div" then Some(Divide) else None;
  }

  /**
   * `create(op_name, a, b)`: the name is stripped and lower-cased before lookup;
   * an unknown name fails with its normalised form; a known one never fails here,
   * whatever the operands (a division by zero only surfaces in `result()`).
   */
  function Create(opName: string, a: real, b: real): (r: Result<Calculation, Error>)
    ensures r.Ok? <==> Text.Normalize(opName) in Supported()
    ensures r.Ok? ==> r.value.operation.Name() == Text.Normalize(opName)
    ensures r.Ok? ==> r.value.a == a && r.value.b == b
    ensures r.Err? ==> r.error == UnsupportedOperation(Text.Normalize(opName))
  {
    var key := Text.Normalize(opName);
    LookupMatchesNames(Add, key);
    match Lookup(key)
    case None => Err(UnsupportedOperation(key))
    case Some(op) => Ok(Calculation(op, a, b))
  }

  /** Only the normalised name matters: case and surrounding whitespace are irrelevant. */
  lemma CreateNormalizes(opName: string, a: real, b: real)
    ensures Create(opName, a, b) == Create(Text.Normalize(opName), a, b)
  {
    Text.NormalizeIdempotent(opName);
  }

  /** Every registered name is already in normal form, so creating by an operation's own name yields that operation. */
  lemma CreateByName(op: Operation, a: real, b: real)
    ensures Text.Normalize(op.Name()) == op.Name()
    ensures Create(op.Name(), a, b) == Ok(Calculation(op, a, b))
  {
    var name := op.Name();
    assert forall i :: 0 <= i < |name| ==> 'a' <= name[i] <= 'z';
    Text.NormalWord(name);
    LookupMatchesNames(op, name);
  }

  /** `" ADD "` resolves to addition: surrounding blanks and upper case are normalised away. */
  lemma CreatePaddedUpperCase(a: real, b: real)
    ensures Create(" ADD ", a, b) == Ok(Calculation(Add, a, b))
  {
    PaddedUpperCaseAdd();
    LookupMatchesNames(Add, "add");
  }

  lemma PaddedUpperCaseAdd()
    ensures Text.Normalize(" ADD ") == "add"
  {
    assert " " + "ADD" + " " == " ADD ";
    Text.StripUnique(" ", "ADD", " ");
    assert Text.Lower("ADD") == "add";
  }

  /** `"pow"` is not registered, so it is rejected under its own name. */
  lemma CreateRejectsPow(a: real, b: real)
    ensures Create("pow", a, b) == Err(UnsupportedOperation("pow"))
  {
    Unregistered("pow");
    LookupMatchesNames(Add, "pow");
  }

  /** The names used to show rejection are in normal form and not registered. */
  lemma Unregistered(w: string)
    requires w == "pow" || w == "nope"
    ensures Text.Normalize(w) == w && w !in Supported()
  {
    assert forall i :: 0 <= i < |w| ==> 'a' <= w[i] <= 'z';
    Text.NormalWord(w);
    if w == "pow" {
      assert w[0] == 'p';
    } else {
      assert |w| == 4;
    }
  }
}
