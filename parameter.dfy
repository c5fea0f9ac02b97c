/**
 * Function signatures and their parameters (exporter/exports/parameter.go).
 *
 * A field of a parameter list is taken as its names and the text
 * `types.ExprString` gives for its type.
 */
module Parameters {
  import opened Wrappers
  import opened GoStrings

  datatype Parameter = Param(Name: string, Type: string, Variadic: bool) {

    /** How the parameter is passed on in a call: a variadic one is spread. */
    function Variable(): (r: string)
      ensures HasPrefix(r, Name)
      ensures |r| == |Name| + (if Variadic then 3 else 0)
      ensures Variadic ==> r[|Name|..] == "..."
    {
      if Variadic then Name + "..." else Name
    }

    /**
     * How the parameter is declared in a signature: the name and a space
     * when it has a name, the variadic marker when it is variadic, then the
     * type, and nothing else.
     */
    function Parameter(): (r: string)
      ensures HasPrefix(r, if Name != "" then Name + " " else "")
      ensures Variadic ==> HasSuffix(r, "..." + Type)
      ensures HasSuffix(r, Type)
      ensures |r| == (if Name != "" then |Name| + 1 else 0) + (if Variadic then 3 else 0) + |Type|
    {
      (if Name != "" then Name + " " else "") + (if Variadic then "..." else "") + Type
    }

    /** The text of a parameter is its declaration form. */
    function String(): (r: string)
      ensures HasPrefix(r, if Name != "" then Name + " " else "")
      ensures Variadic ==> HasSuffix(r, "..." + Type)
      ensures HasSuffix(r, Type)
      ensures |r| == (if Name != "" then |Name| + 1 else 0) + (if Variadic then 3 else 0) + |Type|
    {
      Parameter()
    }
  }

  /** One field of an `*ast.FieldList`: `a, b T` is `Field(["a", "b"], "T")`. */
  datatype Field = Field(Names: seq<string>, TypeText: string)

  /** A function's type; `None` is a nil field list. */
  datatype FuncType = FuncType(TypeParams: Option<seq<Field>>, Params: Option<seq<Field>>, Results: Option<seq<Field>>)

  datatype FunctionSignature = FunctionSignature(Types: seq<Parameter>, Parameters: seq<Parameter>, Results: seq<Parameter>)

  const VariadicMarker := "..."

  /** The names a field declares; an unnamed field declares one empty name. */
  function FieldNames(f: Field): (names: seq<string>)
    ensures |names| >= 1
  {
    if |f.Names| == 0 then [""] else f.Names
  }

  /** The parameters a field expands to: one per name, all of the field's type. */
  function FieldParameters(f: Field): seq<Parameter> {
    var names := FieldNames(f);
    var cut := CutPrefix(f.TypeText, VariadicMarker);
    seq(|names|, i requires 0 <= i < |names| => Param(names[i], cut.0, cut.1))
  }

  /** `parameterFromField`: fills a slice of one parameter per name, in order. */
  method ParameterFromField(f: Field) returns (ps: seq<Parameter>)
    ensures ps == FieldParameters(f)
  {
    var names := f.Names;
    if |f.Names| == 0 {
      names := names + [""];
    }
    var a := new Parameter[|names|];
    for i := 0 to |names|
      invariant forall j :: 0 <= j < i ==> a[j] == FieldParameters(f)[j]
    {
      var cut := CutPrefix(f.TypeText, "...");
      a[i] := Param(names[i], cut.0, cut.1);
    }
    ps := a[..];
  }

  /** The parameters of a list of fields, field by field. */
  function ListParameters(fields: seq<Field>): seq<Parameter> {
    if fields == [] then []
    else ListParameters(fields[..|fields| - 1]) + FieldParameters(fields[|fields| - 1])
  }

  /** A nil field list expands to an empty (not nil) list. */
  function OptionalListParameters(fields: Option<seq<Field>>): seq<Parameter> {
    if fields.None? then [] else ListParameters(fields.value)
  }

  function SignatureOf(t: FuncType): FunctionSignature {
    FunctionSignature(
      OptionalListParameters(t.TypeParams),
      OptionalListParameters(t.Params),
      OptionalListParameters(t.Results))
  }

  /** The loop of `ParseFunctionSignature` over one field list. */
  method AppendFields(ps: seq<Parameter>, fields: seq<Field>) returns (r: seq<Parameter>)
    ensures r == ps + ListParameters(fields)
  {
    r := ps;
    for i := 0 to |fields|
      invariant r == ps + ListParameters(fields[..i])
    {
      var expanded := ParameterFromField(fields[i]);
      assert fields[..i + 1][..i] == fields[..i];
      r := r + expanded;
    }
    assert fields[..|fields|] == fields;
  }

  /** `ParseFunctionSignature`: the type parameters, parameters and results, expanded. */
  method ParseFunctionSignature(t: FuncType) returns (sig: FunctionSignature)
    ensures sig == SignatureOf(t)
  {
    sig := FunctionSignature([], [], []);
    if t.TypeParams.Some? {
      var types := AppendFields(sig.Types, t.TypeParams.value);
      sig := sig.(Types := types);
    }
    if t.Params.Some? {
      var params := AppendFields(sig.Parameters, t.Params.value);
      sig := sig.(Parameters := params);
    }
    if t.Results.Some? {
      var results := AppendFields(sig.Results, t.Results.value);
      sig := sig.(Results := results);
    }
  }

  // ---------------------------------------------------------------------
  // Properties of the expansion.

  /**
   * A field yields one parameter per declared name (one for an unnamed
   * field), in name order, all sharing the field's type and variadic flag.
   */
  lemma FieldExpansion(f: Field)
    ensures |FieldParameters(f)| == if |f.Names| == 0 then 1 else |f.Names|
    ensures |f.Names| == 0 ==> FieldParameters(f)[0].Name == ""
    ensures forall i :: 0 <= i < |f.Names| ==> FieldParameters(f)[i].Name == f.Names[i]
    ensures forall i :: 0 <= i < |FieldParameters(f)| ==>
      FieldParameters(f)[i].Type == FieldParameters(f)[0].Type
      && FieldParameters(f)[i].Variadic == FieldParameters(f)[0].Variadic
  {
  }

  /**
   * The variadic marker moves from the type text into the flag, and
   * declaring the parameter again rebuilds "name type-text", or the bare
   * type text for an unnamed one.
   */
  lemma ParameterRoundTrip(f: Field, i: nat)
    requires i < |FieldParameters(f)|
    ensures var p := FieldParameters(f)[i];
      && (p.Variadic <==> HasPrefix(f.TypeText, VariadicMarker))
      && (if p.Variadic then VariadicMarker + p.Type else p.Type) == f.TypeText
      && p.Parameter() == (if FieldNames(f)[i] == "" then "" else FieldNames(f)[i] + " ") + f.TypeText
  {
    var p := FieldParameters(f)[i];
    var cut := CutPrefix(f.TypeText, VariadicMarker);
    assert p == Param(FieldNames(f)[i], cut.0, cut.1);
    if p.Variadic {
      assert VariadicMarker + p.Type == f.TypeText;
    }
  }

  /**
   * A variadic parameter is declared with the marker before its type and
   * spread with the marker after its name; any other parameter is passed by
   * its name alone.
   */
  lemma CallAndSignatureForms(p: Parameter)
    requires p.Name != ""
    ensures p.Variadic ==> p.Parameter() == p.Name + " ..." + p.Type && p.Variable() == p.Name + "..."
    ensures !p.Variadic ==> p.Parameter() == p.Name + " " + p.Type && p.Variable() == p.Name
  {
  }

  /** `Sum[T int | float64](a, b T) (r T)` of example/a/ab/ab.go. */
  lemma SumSignature()
    ensures SignatureOf(FuncType(Some([Field(["T"], "int | float64")]), Some([Field(["a", "b"], "T")]), Some([Field(["r"], "T")])))
      == FunctionSignature([Param("T", "int | float64", false)], [Param("a", "T", false), Param("b", "T", false)], [Param("r", "T", false)])
  {
    assert !HasPrefix("T", VariadicMarker);
    assert "int | float64"[..3][0] == 'i';
    var fs := [Field(["T"], "int | float64")];
    assert fs[..0] == [];
    assert ListParameters(fs) == FieldParameters(fs[0]);
    var ps := [Field(["a", "b"], "T")];
    assert ps[..0] == [];
    assert ListParameters(ps) == FieldParameters(ps[0]);
    var rs := [Field(["r"], "T")];
    assert rs[..0] == [];
    assert ListParameters(rs) == FieldParameters(rs[0]);
  }

  /** `SumAll[T int | float64](values ...T) T`: a variadic parameter and an unnamed result. */
  lemma SumAllSignature()
    ensures SignatureOf(FuncType(Some([Field(["T"], "int | float64")]), Some([Field(["values"], "...T")]), Some([Field([], "T")])))
      == FunctionSignature([Param("T", "int | float64", false)], [Param("values", "T", true)], [Param("", "T", false)])
  {
    assert !HasPrefix("T", VariadicMarker);
    assert "int | float64"[..3][0] == 'i';
    assert CutPrefix("...T", VariadicMarker) == ("T", true);
    var fs := [Field(["T"], "int | float64")];
    assert fs[..0] == [];
    assert ListParameters(fs) == FieldParameters(fs[0]);
    var ps := [Field(["values"], "...T")];
    assert ps[..0] == [];
    assert ListParameters(ps) == FieldParameters(ps[0]);
    var rs := [Field([], "T")];
    assert rs[..0] == [];
    assert ListParameters(rs) == FieldParameters(rs[0]);
  }
}
