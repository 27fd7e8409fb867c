/** The few facts about Python values and `str` methods that the audit store and
    the validators rely on: dynamically typed arguments, the exceptions they raise,
    and `str.isspace` / `str.strip`. */
module PyRuntime {

  datatype Option<+T> = None | Some(value: T)

  /** The exceptions the modelled code raises or lets escape. */
  datatype Exc =
    | ValueError(message: string)
    | RuntimeError(message: string)
    | DatabaseError(message: string)   // the sqlite3.Error family
    | OverflowError(message: string)   // not an sqlite3.Error
    | OtherError                       // any exception that is not an sqlite3.Error

  /** A call that returns a value or raises. */
  datatype Result<+T> = Ok(value: T) | Err(error: Exc)

  /** A call that returns None or raises; `Then` runs checks in order and keeps the first failure. */
  datatype Outcome = Pass | Fail(error: Exc) {
    function Then(next: Outcome): (r: Outcome)
      ensures r.Pass? <==> Pass? && next.Pass?
      ensures Fail? ==> r == this
    {
      if Fail? then this else next
    }
  }

  newtype byte = x: int | 0 <= x < 256

  /** An argument as Python sees it at run time. `bool` is a subclass of `int`. */
  datatype PyValue =
    | PyNone
    | PyBool(b: bool)
    | PyInt(i: int)
    | PyStr(s: string)
    | PyBytes(bytes: seq<byte>)
    | PyByteArray(bytes: seq<byte>)
    | PyOther                          // float, list, dict, ...
  {
    /** isinstance(v, int) */
    predicate IsInt() { PyBool? || PyInt? }

    /** The integer a bool or int stands for (True is 1). */
    function IntValue(): int
      requires IsInt()
    {
      if PyBool? then (if b then 1 else 0) else i
    }

    /** isinstance(v, (bytes, bytearray)) */
    predicate IsBytesLike() { PyBytes? || PyByteArray? }
  }

  /** str.isspace for one character: the characters Python's `\s` and `strip()` treat as whitespace. */
  predicate IsSpace(c: char) {
    var n := c as int;
    (0x09 <= n <= 0x0D) || (0x1C <= n <= 0x20) || n == 0x85 || n == 0xA0 || n == 0x1680 ||
    (0x2000 <= n <= 0x200A) || n == 0x2028 || n == 0x2029 || n == 0x202F || n == 0x205F || n == 0x3000
  }

  predicate AllSpace(s: string) {
    forall i :: 0 <= i < |s| ==> IsSpace(s[i])
  }

  /** s.lstrip() */
  function StripStart(s: string): (r: string)
    ensures |r| <= |s| && r == s[|s| - |r|..]
    ensures AllSpace(s[..|s| - |r|])
    ensures r == [] || !IsSpace(r[0])
  {
    if s != [] && IsSpace(s[0]) then
      var r := StripStart(s[1..]);
      assert s[1..][..|s[1..]| - |r|] == s[1..|s| - |r|];
      r
    else s
  }

  /** s.rstrip() */
  function StripEnd(s: string): (r: string)
    ensures |r| <= |s| && r == s[..|r|]
    ensures AllSpace(s[|r|..])
    ensures r == [] || !IsSpace(r[|r| - 1])
  {
    if s != [] && IsSpace(s[|s| - 1]) then
      var r := StripEnd(s[..|s| - 1]);
      assert s[..|s| - 1][|r|..] == s[|r|..|s| - 1];
      r
    else s
  }

  /** s.strip(): the result is empty exactly when every character of s is whitespace. */
  function Strip(s: string): (r: string)
    ensures r == [] <==> AllSpace(s)
    ensures r != [] ==> !IsSpace(r[0]) && !IsSpace(r[|r| - 1])
  {
    var head := StripStart(s);
    var r := StripEnd(head);
    if r == [] then
      assert s[..|s|] == s;
      r
    else
      assert r[0] == head[0];
      r
  }
}
