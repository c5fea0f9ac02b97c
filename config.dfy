/**
 * The re-exporter's configuration (config/config.go): the per-symbol and
 * per-file decisions, and the merge of the common entry into every export
 * entry. The model starts from a configuration already read from YAML.
 */
module Config {
  import opened Wrappers
  import opened GoStrings
  import opened Errors
  import opened Filters

  /** The kind of symbol a decision is asked for. */
  datatype ExportType = TypeSymbol | VariableSymbol | ConstantSymbol | FunctionSymbol

  datatype Exclusion = Exclusion(
    Types: bool,
    Variables: bool,
    Constants: bool,
    Functions: bool,
    Names: seq<Filter>,
    Files: seq<Filter>)

  /** `Rename == None` is a nil map: it can be read, but not written. */
  datatype Export = Export(
    Import: string,
    Output: string,
    Exclude: Exclusion,
    Rename: Option<map<string, string>>)

  /** The output name the common entry gets when it names none. */
  const DefaultOutput := "exported.go"

  /** Whether the kind flag of `ex` suppresses symbols of `kind`. */
  predicate KindExcluded(ex: Exclusion, kind: ExportType) {
    match kind
    case TypeSymbol => ex.Types
    case VariableSymbol => ex.Variables
    case ConstantSymbol => ex.Constants
    case FunctionSymbol => ex.Functions
  }

  /** The early-return scan over a filter list: does some filter match `s`? */
  function AnyMatch(filters: seq<Filter>, s: string, engine: RegexEngine): (b: bool)
    ensures b <==> exists i :: 0 <= i < |filters| && filters[i].Match(s, engine)
  {
    if filters == [] then false
    else if filters[0].Match(s, engine) then true
    else
      var rest := AnyMatch(filters[1..], s, engine);
      assert forall i :: 1 <= i < |filters| ==> filters[i] == filters[1..][i - 1];
      rest
  }

  lemma {:induction false} AnyMatchAppend(a: seq<Filter>, b: seq<Filter>, s: string, engine: RegexEngine)
    ensures AnyMatch(a + b, s, engine) <==> AnyMatch(a, s, engine) || AnyMatch(b, s, engine)
  {
    var ab := a + b;
    if AnyMatch(b, s, engine) {
      var i :| 0 <= i < |b| && b[i].Match(s, engine);
      assert ab[|a| + i] == b[i];
    }
    if AnyMatch(a, s, engine) {
      var i :| 0 <= i < |a| && a[i].Match(s, engine);
      assert ab[i] == a[i];
    }
    if AnyMatch(ab, s, engine) {
      var i :| 0 <= i < |ab| && ab[i].Match(s, engine);
      if i < |a| { assert a[i] == ab[i]; } else { assert b[i - |a|] == ab[i]; }
    }
  }

  /** `IncludeFile`: a file is included unless one of the file filters matches its name. */
  function IncludeFile(es: Export, fileName: string, engine: RegexEngine): (r: bool)
    ensures r <==> forall i :: 0 <= i < |es.Exclude.Files| ==> !es.Exclude.Files[i].Match(fileName, engine)
    ensures es.Exclude.Files == [] ==> r
  {
    !AnyMatch(es.Exclude.Files, fileName, engine)
  }

  /**
   * `ast.IsExported`, for names whose first letter is ASCII: the name starts
   * with an upper-case letter.
   */
  predicate IsExported(name: string) {
    |name| > 0 && 'A' <= name[0] <= 'Z'
  }

  /** The name a symbol is exported under: its rename if the map has one. */
  function Renamed(rename: Option<map<string, string>>, name: string): string {
    if rename.Some? && name in rename.value then rename.value[name] else name
  }

  /**
   * `ExportAs` for an identifier (`None` is a nil `*ast.Ident`). Its checks
   * run in a fixed order: a missing, empty or unexported name gives
   * ("", false); then a set kind flag gives (name, false); then a matching
   * name filter gives (name, false); only then is the rename applied.
   */
  function ExportAs(es: Export, ident: Option<string>, kind: ExportType, engine: RegexEngine): (r: (string, bool))
    ensures ident.None? || !IsExported(ident.value) ==> r == ("", false)
    ensures ident.Some? && IsExported(ident.value) ==> var name := ident.value;
      && (KindExcluded(es.Exclude, kind) ==> r == (name, false))
      && (!KindExcluded(es.Exclude, kind) && (exists i :: 0 <= i < |es.Exclude.Names| && es.Exclude.Names[i].Match(name, engine)) ==> r == (name, false))
      && (r.1 <==> !KindExcluded(es.Exclude, kind) && forall i :: 0 <= i < |es.Exclude.Names| ==> !es.Exclude.Names[i].Match(name, engine))
      && (r.1 ==> r.0 == if es.Rename.Some? && name in es.Rename.value then es.Rename.value[name] else name)
  {
    if ident.None? || ident.value == "" || !IsExported(ident.value) then ("", false)
    else
      var name := ident.value;
      if KindExcluded(es.Exclude, kind) then (name, false)
      else if AnyMatch(es.Exclude.Names, name, engine) then (name, false)
      else (Renamed(es.Rename, name), true)
  }

  /** Rejections by kind and by name never depend on the rename map. */
  lemma RejectionIgnoresRenames(es: Export, ident: Option<string>, kind: ExportType, engine: RegexEngine,
                                rename: Option<map<string, string>>)
    requires !ExportAs(es, ident, kind, engine).1
    ensures ExportAs(es.(Rename := rename), ident, kind, engine) == ExportAs(es, ident, kind, engine)
  {
  }

  // ---------------------------------------------------------------------
  // The merge of the common entry into each export entry.

  /** Kind flags are OR-ed; filter lists are the entry's own followed by the common ones. */
  function MergeExclusion(own: Exclusion, common: Exclusion): (r: Exclusion)
    ensures forall kind :: KindExcluded(r, kind) == (KindExcluded(own, kind) || KindExcluded(common, kind))
    ensures r.Names == own.Names + common.Names && r.Files == own.Files + common.Files
  {
    Exclusion(
      own.Types || common.Types,
      own.Variables || common.Variables,
      own.Constants || common.Constants,
      own.Functions || common.Functions,
      own.Names + common.Names,
      own.Files + common.Files)
  }

  /** Everything the merge loop does to an entry before the rename copy. */
  function MergeSettings(es: Export, common: Export): (r: Export)
    ensures r.Import == es.Import && r.Rename == es.Rename
    ensures r.Exclude == MergeExclusion(es.Exclude, common.Exclude)
    ensures r.Output == if es.Output == "" then common.Output else es.Output
  {
    es.(Exclude := MergeExclusion(es.Exclude, common.Exclude),
        Output := if es.Output == "" then common.Output else es.Output)
  }

  /**
   * `maps.Copy(dst, src)` on Go maps: every entry of `src` is written into
   * `dst`. Writing into a nil map panics, so a nil `dst` with a non-empty
   * `src` fails; a nil or empty `src` writes nothing.
   */
  function CopyRenames(dst: Option<map<string, string>>, src: Option<map<string, string>>)
    : (r: Result<Option<map<string, string>>, Error>)
    ensures r.Failure? <==> dst.None? && src.Some? && src.value != map[]
    ensures r.Success? && (src.None? || src.value == map[]) ==> r.value == dst
    ensures r.Success? && src.Some? && src.value != map[] ==>
      && dst.Some? && r.value.Some?
      && r.value.value.Keys == dst.value.Keys + src.value.Keys
      && (forall k :: k in src.value ==> r.value.value[k] == src.value[k])
      && (forall k :: k in dst.value && k !in src.value ==> r.value.value[k] == dst.value[k])
  {
    if src.None? || src.value == map[] then Success(dst)
    else if dst.None? then Failure(Panic("assignment to entry in nil map"))
    else Success(Some(dst.value + src.value))
  }

  /** One iteration of the merge loop: the merged entry, or the panic it raises. */
  function MergeEntry(es: Export, common: Export): Result<Export, Error> {
    var settled := MergeSettings(es, common);
    match CopyRenames(settled.Rename, common.Rename)
    case Success(rename) => Success(settled.(Rename := rename))
    case Failure(err) => Failure(err)
  }

  /** The merged name filters reject a name exactly when the entry's or the common ones do. */
  lemma MergedNameFiltersAreUnion(es: Export, common: Export, name: string, engine: RegexEngine)
    ensures AnyMatch(MergeSettings(es, common).Exclude.Names, name, engine)
        <==> AnyMatch(es.Exclude.Names, name, engine) || AnyMatch(common.Exclude.Names, name, engine)
  {
    AnyMatchAppend(es.Exclude.Names, common.Exclude.Names, name, engine);
  }

  /** A file survives the merged entry exactly when it survives both the entry and the common filters. */
  lemma MergedIncludeFile(es: Export, common: Export, fileName: string, engine: RegexEngine)
    ensures IncludeFile(MergeSettings(es, common), fileName, engine)
        <==> IncludeFile(es, fileName, engine) && IncludeFile(common, fileName, engine)
  {
    AnyMatchAppend(es.Exclude.Files, common.Exclude.Files, fileName, engine);
  }

  /**
   * The merged entry accepts a symbol exactly when the entry's own exclusions
   * and the common exclusions both accept it: the merge can only narrow what
   * is exported.
   */
  lemma MergedAcceptanceIsIntersection(es: Export, common: Export, ident: Option<string>, kind: ExportType,
                                       engine: RegexEngine)
    ensures ExportAs(MergeSettings(es, common), ident, kind, engine).1
        <==> ExportAs(es, ident, kind, engine).1 && ExportAs(common, ident, kind, engine).1
  {
    if ident.Some? {
      MergedNameFiltersAreUnion(es, common, ident.value, engine);
    }
  }

  /** An entry that names a common-map key ends up with the common entry's value. */
  lemma CommonRenameWins(es: Export, common: Export, name: string)
    requires MergeEntry(es, common).Success?
    requires common.Rename.Some? && name in common.Rename.value
    ensures Renamed(MergeEntry(es, common).value.Rename, name) == common.Rename.value[name]
  {
  }

  /**
   * The rename merge as evidently intended: the entry keeps its own renames
   * and gains the common ones, the common value winning on a shared key, with
   * a nil entry map read as an empty one instead of panicking.
   */
  function MergeRenames(dst: Option<map<string, string>>, src: Option<map<string, string>>)
    : (r: Option<map<string, string>>)
    ensures forall name ::
      Renamed(r, name) == if src.Some? && name in src.value then src.value[name] else Renamed(dst, name)
  {
    if src.None? || src.value == map[] then dst else Some(dst.GetOr(map[]) + src.value)
  }

  /** Wherever `maps.Copy` does not panic, it computes the intended merge. */
  lemma CopyRenamesIsIntendedMerge(dst: Option<map<string, string>>, src: Option<map<string, string>>)
    requires CopyRenames(dst, src).Success?
    ensures CopyRenames(dst, src).value == MergeRenames(dst, src)
  {
  }

  /**
   * An entry with no `rename` block under a common entry with one: the code
   * as written panics, the intended merge gives the entry the common rename.
   */
  lemma NilRenameMapPanics()
    ensures CopyRenames(None, Some(map["MyVar" := "ExportedVar"])).Failure?
    ensures Renamed(MergeRenames(None, Some(map["MyVar" := "ExportedVar"])), "MyVar") == "ExportedVar"
  {
    assert "MyVar" in map["MyVar" := "ExportedVar"];
  }

  /**
   * The configuration as unmarshalled, which `ApplyDefaults` then completes
   * in place.
   */
  class Config {
    var Common: Export
    var Exports: array<Export>

    constructor (common: Export, exports: seq<Export>)
      ensures Common == common && Exports[..] == exports && fresh(Exports)
    {
      Common := common;
      Exports := new Export[|exports|](i requires 0 <= i < |exports| => exports[i]);
    }

    /**
     * Lines 103-124 of `FromFile`: default the common output name, then merge
     * the common entry into each entry in order. A panic in the rename copy of
     * entry `k` leaves entries before `k` merged, entry `k` merged except for
     * its renames, and the later entries untouched.
     */
    method ApplyDefaults() returns (failure: Option<Error>, ghost k: nat)
      modifies this, Exports
      ensures Exports == old(Exports)
      ensures Common == old(Common).(Output := if old(Common.Output) == "" then DefaultOutput else old(Common.Output))
      ensures failure.None? <==> forall j :: 0 <= j < Exports.Length ==> MergeEntry(old(Exports[j]), Common).Success?
      ensures failure.None? ==> forall j :: 0 <= j < Exports.Length ==> Exports[j] == MergeEntry(old(Exports[j]), Common).value
      ensures failure.Some? ==>
        && k < Exports.Length
        && (forall j :: 0 <= j < k ==>
              MergeEntry(old(Exports[j]), Common).Success? && Exports[j] == MergeEntry(old(Exports[j]), Common).value)
        && MergeEntry(old(Exports[k]), Common) == Failure(failure.value)
        && Exports[k] == MergeSettings(old(Exports[k]), Common)
        && (forall j :: k < j < Exports.Length ==> Exports[j] == old(Exports[j]))
    {
      if Common.Output == "" {
        Common := Common.(Output := DefaultOutput);
      }
      k := 0;
      var common, exports := Common, Exports;
      var i := 0;
      while i < exports.Length
        invariant 0 <= i <= exports.Length && Exports == exports && Common == common
        invariant forall j :: 0 <= j < i ==> MergeEntry(old(exports[j]), common).Success?
        invariant forall j :: 0 <= j < i ==> exports[j] == MergeEntry(old(exports[j]), common).value
        invariant forall j :: i <= j < exports.Length ==> exports[j] == old(exports[j])
      {
        var es := MergeSettings(exports[i], common);
        var copied := CopyRenames(es.Rename, common.Rename);
        if copied.Failure? {
          exports[i] := es;
          k := i;
          return Some(copied.error), k;
        }
        exports[i] := es.(Rename := copied.value);
        i := i + 1;
      }
      return None, k;
    }
  }
}
