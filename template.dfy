/**
 * The `parenthesize` template helper (exporter/template.go): optional
 * brackets, an optional condition, and the content as the last argument.
 */
module Template {
  import opened Wrappers
  import opened GoStrings
  import opened Errors

  /**
   * A template argument, by what the helper can tell about it. `Sized` is a
   * slice, map or array; `Other` is any other value, with whether
   * `reflect.Value.IsZero` holds for it. `Shown` is the value's `%v` text.
   */
  datatype Value =
    | Str(s: string)
    | Bool(b: bool)
    | Int(i: int)
    | Sized(Length: nat, Shown: string)
    | Nil
    | Other(IsZero: bool, Shown: string)

  /** `fmt.Sprintf("%v", v)`, with the text of composite values given. */
  function Show(v: Value): string {
    match v
    case Str(s) => s
    case Bool(b) => if b then "true" else "false"
    case Int(i) => Itoa(i)
    case Sized(_, shown) => shown
    case Nil => "<nil>"
    case Other(_, shown) => shown
  }

  /**
   * The condition a middle argument stands for: a bool as itself, an int or
   * a string when non-zero, a slice, map or array when non-empty, nil never,
   * and any other value when it is not its type's zero value.
   */
  predicate Truthy(v: Value) {
    match v
    case Bool(b) => b
    case Int(i) => i != 0
    case Str(s) => s != ""
    case Sized(n, _) => n != 0
    case Nil => false
    case Other(isZero, _) => !isZero
  }

  newtype byte = x: int | 0 <= x < 256

  /** The UTF-8 encoding of one code point. */
  function EncodeRune(c: char): (r: seq<byte>)
    ensures 1 <= |r| <= 4
    ensures (c as int < 0x80) <==> |r| == 1
    ensures c as int < 0x80 ==> r[0] as int == c as int
  {
    var n := c as int;
    if n < 0x80 then [n as byte]
    else if n < 0x800 then [(0xC0 + n / 64) as byte, (0x80 + n % 64) as byte]
    else if n < 0x1_0000 then [(0xE0 + n / 4096) as byte, (0x80 + (n / 64) % 64) as byte, (0x80 + n % 64) as byte]
    else [(0xF0 + n / 262144) as byte, (0x80 + (n / 4096) % 64) as byte, (0x80 + (n / 64) % 64) as byte, (0x80 + n % 64) as byte]
  }

  /** The bytes of a Go string holding `s`. */
  function Utf8(s: string): (r: seq<byte>)
    ensures |r| >= |s|
  {
    if s == [] then [] else EncodeRune(s[0]) + Utf8(s[1..])
  }

  /** `string(b)` for a byte `b`: the one-character string of code point `b`. */
  function ByteString(b: byte): string {
    [(b as int) as char]
  }

  const DefaultParentheses := "()"

  /** The message of the run-time panic of an index `i` into a slice of length `n`. */
  function IndexPanic(i: nat, n: nat): Error {
    Panic("runtime error: index out of range [" + Itoa(i) + "] with length " + Itoa(n))
  }

  /** The bracket string: a string first argument of two or three, else the default. */
  function Parentheses(params: seq<Value>): string {
    if |params| > 1 && params[0].Str? then params[0].s else DefaultParentheses
  }

  /** Whether to wrap: only a middle argument of three can turn wrapping off. */
  predicate Condition(params: seq<Value>) {
    |params| > 2 ==> Truthy(params[1])
  }

  /**
   * `templateParenthesize` as written: the two brackets are the first two
   * BYTES of the bracket string, each turned back into a one-character
   * string; a bracket string shorter than two bytes makes the indexing panic.
   */
  function Parenthesize(params: seq<Value>): (r: Result<string, Error>)
    ensures |params| == 0 || |params| > 3 ==> r == Success("")
    ensures 1 <= |params| <= 3 && !Condition(params) ==> r == Success(Show(params[|params| - 1]))
    ensures 1 <= |params| <= 3 && Condition(params) ==>
      (r.Failure? <==> |Utf8(Parentheses(params))| < 2)
  {
    if |params| == 0 || |params| > 3 then Success("")
    else
      var s := Show(params[|params| - 1]);
      if !Condition(params) then Success(s)
      else
        var b := Utf8(Parentheses(params));
        if |b| == 0 then Failure(IndexPanic(0, 0))
        else if |b| == 1 then Failure(IndexPanic(1, 1))
        else Success(ByteString(b[0]) + s + ByteString(b[1]))
  }

  /**
   * The helper as evidently intended: the brackets are the first two
   * characters of the bracket string, whatever their encoding.
   */
  function ParenthesizeRunes(params: seq<Value>): (r: Result<string, Error>)
    ensures 1 <= |params| <= 3 && Condition(params) && |Parentheses(params)| >= 2 ==>
      r == Success([Parentheses(params)[0]] + Show(params[|params| - 1]) + [Parentheses(params)[1]])
    ensures 1 <= |params| <= 3 && Condition(params) && |Parentheses(params)| < 2 ==> r.Failure?
    ensures !(1 <= |params| <= 3 && Condition(params)) ==> r == Parenthesize(params)
  {
    if |params| == 0 || |params| > 3 then Success("")
    else
      var s := Show(params[|params| - 1]);
      if !Condition(params) then Success(s)
      else
        var p := Parentheses(params);
        if |p| < 2 then Failure(IndexPanic(|p|, |p|))
        else Success([p[0]] + s + [p[1]])
  }

  // ---------------------------------------------------------------------
  // Properties.

  predicate Ascii(s: string) {
    forall i :: 0 <= i < |s| ==> s[i] as int < 0x80
  }

  /** An ASCII string is one byte per character. */
  lemma {:induction false} AsciiUtf8(s: string)
    requires Ascii(s)
    ensures |Utf8(s)| == |s|
    ensures forall i :: 0 <= i < |s| ==> Utf8(s)[i] as int == s[i] as int
  {
    if s != [] {
      assert Ascii(s[1..]) by {
        forall i | 0 <= i < |s[1..]| ensures s[1..][i] as int < 0x80 {
          assert s[1..][i] == s[i + 1];
        }
      }
      AsciiUtf8(s[1..]);
    }
  }

  /** A single argument is wrapped in round brackets. */
  lemma SingleArgument(v: Value)
    ensures Parenthesize([v]) == Success("(" + Show(v) + ")")
  {
    AsciiUtf8(DefaultParentheses);
  }

  /**
   * With two arguments the condition is always true, even for `false`; a
   * string first argument is the bracket pair and anything else leaves "()".
   */
  lemma TwoArguments(first: Value, v: Value)
    ensures Condition([first, v])
    ensures Parentheses([first, v]) == if first.Str? then first.s else DefaultParentheses
  {
  }

  /** A false middle argument returns the content as it is. */
  lemma FalseConditionKeepsContent(brackets: Value, c: Value, v: Value)
    requires !Truthy(c)
    ensures Parenthesize([brackets, c, v]) == Success(Show(v))
  {
  }

  /**
   * ASCII brackets wrap the content in their first two characters, whatever
   * follows them, and there the code and the intended helper agree.
   */
  lemma AsciiBracketsWrap(params: seq<Value>)
    requires 1 <= |params| <= 3 && Condition(params)
    requires Ascii(Parentheses(params)) && |Parentheses(params)| >= 2
    ensures var p := Parentheses(params);
      Parenthesize(params) == Success([p[0]] + Show(params[|params| - 1]) + [p[1]])
    ensures Parenthesize(params) == ParenthesizeRunes(params)
  {
    var p := Parentheses(params);
    AsciiUtf8(p);
    assert ByteString(Utf8(p)[0]) == [p[0]];
    assert ByteString(Utf8(p)[1]) == [p[1]];
  }

  /** An empty or one-character ASCII bracket string fails once wrapping is asked for. */
  lemma ShortBracketsFail(brackets: string, v: Value)
    requires |brackets| < 2 && Ascii(brackets)
    ensures Parenthesize([Str(brackets), v]).Failure?
  {
    AsciiUtf8(brackets);
  }

  /**
   * Guillemets as brackets: the code wraps "x" in the lead byte of '«' and
   * the second byte of '«' (read as code points U+00C2 and U+00AB), while
   * the intended helper wraps it in '«' and '»'.
   */
  lemma NonAsciiBracketsMisencoded()
    ensures Parenthesize([Str("\U{00AB}\U{00BB}"), Str("x")]) == Success("\U{00C2}x\U{00AB}")
    ensures ParenthesizeRunes([Str("\U{00AB}\U{00BB}"), Str("x")]) == Success("\U{00AB}x\U{00BB}")
  {
    var p := "\U{00AB}\U{00BB}";
    var params := [Str(p), Str("x")];
    assert Parentheses(params) == p && Condition(params);
    assert Show(params[1]) == "x";
    assert EncodeRune(p[0]) == [0xC2, 0xAB];
    assert Utf8(p) == [0xC2, 0xAB] + Utf8(p[1..]);
    assert ByteString(0xC2) == "\U{00C2}" && ByteString(0xAB) == "\U{00AB}";
    assert |Utf8(p)| >= 2;
    assert Parenthesize(params) == Success(ByteString(0xC2) + "x" + ByteString(0xAB));
    assert "\U{00C2}" + "x" + "\U{00AB}" == "\U{00C2}x\U{00AB}";
    assert ParenthesizeRunes(params) == Success([p[0]] + "x" + [p[1]]);
    assert [p[0]] + "x" + [p[1]] == "\U{00AB}x\U{00BB}";
  }
}
