/**
 * The collector (exporter/exporter.go): for every export entry, register
 * its import, load its packages, register their non-standard dependencies,
 * and record every accepted top-level symbol of every included file.
 *
 * The package loader, the template renderer and the code formatter are
 * parameters. A loaded package is an abstract syntax of top-level
 * declarations, each file carrying the name the file set records for it.
 */
module Exporter {
  import opened Wrappers
  import opened GoStrings
  import opened Errors
  import opened Filters
  import opened Comments
  import opened Parameters
  import opened ExportRecords
  import C = Config
  import R = ExportRegistry
  import FilePath
  import Format

  // ---------------------------------------------------------------------
  // The syntax the collector looks at.

  datatype Token = IMPORT | CONST | TYPE | VAR

  datatype Spec =
    | ImportSpec(Path: string)
    | TypeSpec(Name: string, Comment: Option<CommentGroup>)
    | ValueSpec(Names: seq<string>, Comment: Option<CommentGroup>)

  datatype Decl =
    | GenDecl(Doc: Option<CommentGroup>, Tok: Token, Specs: seq<Spec>)
    | FuncDecl(Doc: Option<CommentGroup>, Name: string, HasRecv: bool, Type: FuncType)
    | BadDecl

  datatype File = File(Name: string, Decls: seq<Decl>)

  /** A loaded package: its ID, the IDs of the packages it imports (in the loader's order), its files. */
  datatype Package = Package(ID: string, Imports: seq<string>, Syntax: seq<File>)

  /** What `packages.Load` gives, with the number of errors `packages.PrintErrors` reports for it. */
  datatype Loaded = Loaded(Packages: seq<Package>, ErrorCount: nat)

  // ---------------------------------------------------------------------
  // What the collector records, as a function of its inputs.

  /** `strings.TrimSuffix(filepath.Base(name), ".go")`: the name file filters see. */
  function FileStem(name: string): string {
    TrimSuffix(FilePath.Base(name), ".go")
  }

  /**
   * The file filters see a file's bare name: the directory and the `.go`
   * extension of the path the file set records are dropped.
   */
  lemma FileStemOfPath(dir: string, stem: string)
    requires stem != [] && '/' !in stem
    ensures FileStem(dir + "/" + stem + ".go") == stem
  {
    FilePath.BaseOfChild(dir, stem + ".go");
    assert dir + "/" + stem + ".go" == dir + "/" + (stem + ".go");
    assert HasSuffix(stem + ".go", ".go");
    assert (stem + ".go")[..|stem|] == stem;
  }

  /** The kind a name of a value spec is asked for under token `tok`. */
  function ValueKind(tok: Token): C.ExportType {
    if tok == CONST then C.ConstantSymbol else C.VariableSymbol
  }

  /**
   * The record for one name of a value spec, if it is accepted: a constant
   * under `const`, otherwise a variable, under the name `ExportAs` gives and
   * with the declaration's documentation and the spec's line comment.
   */
  function NameRecord(ex: C.Export, engine: RegexEngine, doc: Option<CommentGroup>, comment: Option<CommentGroup>,
                      tok: Token, pkg: string, ident: string): (rs: seq<R.Record>)
    ensures |rs| <= 1
    ensures rs != [] <==> C.ExportAs(ex, Some(ident), ValueKind(tok), engine).1
    ensures rs != [] ==>
      && (if tok == CONST then rs[0].ConstantRecord? else rs[0].VariableRecord?)
      && rs[0].e == Export(C.ExportAs(ex, Some(ident), ValueKind(tok), engine).0, ident, pkg, ParseComment(doc, comment))
  {
    var kind := ValueKind(tok);
    var (name, ok) := C.ExportAs(ex, Some(ident), kind, engine);
    if !ok then []
    else
      var e := Export(name, ident, pkg, ParseComment(doc, comment));
      if kind == C.VariableSymbol then [R.VariableRecord(e)] else [R.ConstantRecord(e)]
  }

  function NameRecords(ex: C.Export, engine: RegexEngine, doc: Option<CommentGroup>, comment: Option<CommentGroup>,
                       tok: Token, pkg: string, names: seq<string>): (rs: seq<R.Record>)
    ensures |rs| <= |names|
  {
    if names == [] then []
    else (NameRecords(ex, engine, doc, comment, tok, pkg, names[..|names| - 1])
          + NameRecord(ex, engine, doc, comment, tok, pkg, names[|names| - 1]))
  }

  /**
   * The records of one spec of a general declaration with documentation
   * `doc`: none for an import, at most one for a type, and at most one per
   * name for a value spec.
   */
  function SpecRecords(ex: C.Export, engine: RegexEngine, doc: Option<CommentGroup>, tok: Token, pkg: string,
                       s: Spec): (rs: seq<R.Record>)
    ensures s.ImportSpec? ==> rs == []
    ensures s.TypeSpec? ==> |rs| <= 1 && (rs != [] <==> C.ExportAs(ex, Some(s.Name), C.TypeSymbol, engine).1)
    ensures s.ValueSpec? ==> |rs| <= |s.Names|
  {
    match s
    case ImportSpec(_) => []
    case TypeSpec(ident, comment) =>
      var (name, ok) := C.ExportAs(ex, Some(ident), C.TypeSymbol, engine);
      if ok then [R.TypeRecord(Export(name, ident, pkg, ParseComment(doc, comment)))] else []
    case ValueSpec(names, comment) => NameRecords(ex, engine, doc, comment, tok, pkg, names)
  }

  function SpecsRecords(ex: C.Export, engine: RegexEngine, doc: Option<CommentGroup>, tok: Token, pkg: string,
                        specs: seq<Spec>): seq<R.Record>
  {
    if specs == [] then []
    else (SpecsRecords(ex, engine, doc, tok, pkg, specs[..|specs| - 1])
          + SpecRecords(ex, engine, doc, tok, pkg, specs[|specs| - 1]))
  }

  /**
   * The records of one top-level declaration of an included file. A bad
   * declaration or a function with a receiver (a method) gives none; a
   * function without one is recorded exactly when `ExportAs` accepts its
   * name, with its documentation, no line comment, and its signature.
   */
  function DeclRecords(ex: C.Export, engine: RegexEngine, pkg: string, d: Decl): (rs: seq<R.Record>)
    ensures d.BadDecl? ==> rs == []
    ensures d.FuncDecl? && d.HasRecv ==> rs == []
    ensures d.FuncDecl? && !d.HasRecv ==>
      var (name, ok) := C.ExportAs(ex, Some(d.Name), C.FunctionSymbol, engine);
      && (ok ==> rs == [R.FunctionRecord(FunctionExport(Export(name, d.Name, pkg, ParseComment(d.Doc, None)), SignatureOf(d.Type)))])
      && (!ok ==> rs == [])
  {
    match d
    case GenDecl(doc, tok, specs) => SpecsRecords(ex, engine, doc, tok, pkg, specs)
    case FuncDecl(doc, ident, hasRecv, t) =>
      var (name, ok) := C.ExportAs(ex, Some(ident), C.FunctionSymbol, engine);
      if ok && !hasRecv then [R.FunctionRecord(FunctionExport(Export(name, ident, pkg, ParseComment(doc, None)), SignatureOf(t)))]
      else []
    case BadDecl => []
  }

  /** The records `inspectAST` makes at a top-level declaration of file `fileName`: none when the file is rejected. */
  function NodeRecords(ex: C.Export, engine: RegexEngine, pkg: string, fileName: string, d: Decl): seq<R.Record> {
    if C.IncludeFile(ex, FileStem(fileName), engine) then DeclRecords(ex, engine, pkg, d) else []
  }

  function DeclsRecords(ex: C.Export, engine: RegexEngine, pkg: string, fileName: string, ds: seq<Decl>): seq<R.Record> {
    if ds == [] then []
    else DeclsRecords(ex, engine, pkg, fileName, ds[..|ds| - 1]) + NodeRecords(ex, engine, pkg, fileName, ds[|ds| - 1])
  }

  lemma DeclsRecordsStep(ex: C.Export, engine: RegexEngine, pkg: string, fileName: string, ds: seq<Decl>, j: nat)
    requires j < |ds|
    ensures DeclsRecords(ex, engine, pkg, fileName, ds[..j + 1])
         == DeclsRecords(ex, engine, pkg, fileName, ds[..j]) + NodeRecords(ex, engine, pkg, fileName, ds[j])
  {
    assert ds[..j + 1][..j] == ds[..j];
  }

  /** The records of one file, declaration by declaration. */
  function FileRecords(ex: C.Export, engine: RegexEngine, pkg: string, f: File): seq<R.Record> {
    DeclsRecords(ex, engine, pkg, f.Name, f.Decls)
  }

  function FilesRecords(ex: C.Export, engine: RegexEngine, pkg: string, fs: seq<File>): seq<R.Record> {
    if fs == [] then []
    else FilesRecords(ex, engine, pkg, fs[..|fs| - 1]) + FileRecords(ex, engine, pkg, fs[|fs| - 1])
  }

  /** The dependency imports worth registering: those whose ID has a dot, so not the standard library. */
  function DependencyImports(ids: seq<string>): seq<R.Record> {
    if ids == [] then []
    else DependencyImports(ids[..|ids| - 1]) + (if '.' in ids[|ids| - 1] then [R.ImportRecord(ids[|ids| - 1])] else [])
  }

  /** The records of one loaded package: its dependencies, then its files' symbols. */
  function PackageRecords(ex: C.Export, engine: RegexEngine, p: Package): seq<R.Record> {
    DependencyImports(p.Imports) + FilesRecords(ex, engine, FilePath.Base(p.ID), p.Syntax)
  }

  function PackagesRecords(ex: C.Export, engine: RegexEngine, ps: seq<Package>): seq<R.Record> {
    if ps == [] then []
    else PackagesRecords(ex, engine, ps[..|ps| - 1]) + PackageRecords(ex, engine, ps[|ps| - 1])
  }

  /** An import written "./sub" is `sub` inside the generated package's own path. */
  function ResolveImport(pkgName: string, importPath: string): string {
    var (sub, ok) := CutPrefix(importPath, "./");
    if ok then FilePath.JoinPath(pkgName, sub) else importPath
  }

  /** The records one step of the collection made, and the error it stopped with, if any. */
  datatype Outcome = Outcome(Records: seq<R.Record>, Err: Option<Error>)

  /**
   * `processExport`, as records and an error. The entry's own import is
   * registered first, whatever the loader does; a load error or a reported
   * package error stops the entry right after it, with that error or
   * `ErrLoadingPackages`.
   */
  function ProcessExportSpec(pkgName: string, dir: string, ex: C.Export, engine: RegexEngine,
                             loader: (string, string) -> Result<Loaded, Error>): (o: Outcome)
    ensures var imp := ResolveImport(pkgName, ex.Import);
      && |o.Records| >= 1 && o.Records[0] == R.ImportRecord(imp)
      && (loader(dir, imp).Failure? ==> o == Outcome([R.ImportRecord(imp)], Some(loader(dir, imp).error)))
      && (loader(dir, imp).Success? && loader(dir, imp).value.ErrorCount > 0 ==>
            o == Outcome([R.ImportRecord(imp)], Some(LoadingPackages)))
      && (o.Err.None? <==> loader(dir, imp).Success? && loader(dir, imp).value.ErrorCount == 0)
  {
    var imp := ResolveImport(pkgName, ex.Import);
    match loader(dir, imp)
    case Failure(err) => Outcome([R.ImportRecord(imp)], Some(err))
    case Success(loaded) =>
      if loaded.ErrorCount > 0 then Outcome([R.ImportRecord(imp)], Some(LoadingPackages))
      else Outcome([R.ImportRecord(imp)] + PackagesRecords(ex.(Import := imp), engine, loaded.Packages), None)
  }

  /**
   * The loop of `Generate` over the export entries, stopping at the first
   * failure: the collection succeeds exactly when every entry does.
   */
  function CollectAll(pkgName: string, dir: string, exs: seq<C.Export>, engine: RegexEngine,
                      loader: (string, string) -> Result<Loaded, Error>): (o: Outcome)
    ensures o.Err.None? <==> forall i :: 0 <= i < |exs| ==> ProcessExportSpec(pkgName, dir, exs[i], engine, loader).Err.None?
  {
    if exs == [] then Outcome([], None)
    else
      var prev := CollectAll(pkgName, dir, exs[..|exs| - 1], engine, loader);
      if prev.Err.Some? then prev
      else
        var o := ProcessExportSpec(pkgName, dir, exs[|exs| - 1], engine, loader);
        Outcome(prev.Records + o.Records, o.Err)
  }

  /** The registry `Generate` starts from. */
  function Start(pkgName: string): R.Snapshot {
    R.Snapshot(FilePath.Base(pkgName), [], [], [], [], [])
  }

  /**
   * `Generate`: collect, render, format. It fails exactly when collecting,
   * rendering or formatting fails, with the first such error.
   */
  function GenerateSpec(pkgName: string, dir: string, exs: seq<C.Export>, engine: RegexEngine,
                        loader: (string, string) -> Result<Loaded, Error>,
                        renderer: R.Snapshot -> Result<string, Error>,
                        formatter: string -> Result<string, Error>): (g: Result<string, Error>)
    ensures var o := CollectAll(pkgName, dir, exs, engine, loader);
      && (o.Err.Some? ==> g == Failure(o.Err.value))
      && (o.Err.None? && renderer(R.Run(Start(pkgName), o.Records)).Failure? ==>
            g == Failure(renderer(R.Run(Start(pkgName), o.Records)).error))
      && (o.Err.None? && renderer(R.Run(Start(pkgName), o.Records)).Success? ==>
            var code := renderer(R.Run(Start(pkgName), o.Records)).value;
            g == Format.FormatCode(code, formatter)
            && (g.Failure? ==> g.error == Formatting(formatter(code).error, code)))
  {
    var o := CollectAll(pkgName, dir, exs, engine, loader);
    if o.Err.Some? then Failure(o.Err.value)
    else
      match renderer(R.Run(Start(pkgName), o.Records))
      case Failure(err) => Failure(err)
      case Success(code) => Format.FormatCode(code, formatter)
  }

  // ---------------------------------------------------------------------
  // Properties of the collection.

  /** No declaration of a file the file filters reject is ever recorded. */
  lemma ExcludedFileRecordsNothing(ex: C.Export, engine: RegexEngine, pkg: string, f: File)
    requires exists i :: 0 <= i < |ex.Exclude.Files| && ex.Exclude.Files[i].Match(FileStem(f.Name), engine)
    ensures FileRecords(ex, engine, pkg, f) == []
  {
    RejectedDeclsRecordNothing(ex, engine, pkg, f.Name, f.Decls);
  }

  lemma {:induction false} RejectedDeclsRecordNothing(ex: C.Export, engine: RegexEngine, pkg: string, fileName: string, ds: seq<Decl>)
    requires !C.IncludeFile(ex, FileStem(fileName), engine)
    ensures DeclsRecords(ex, engine, pkg, fileName, ds) == []
  {
    if ds != [] {
      RejectedDeclsRecordNothing(ex, engine, pkg, fileName, ds[..|ds| - 1]);
    }
  }

  /** A type spec is recorded exactly when `ExportAs` accepts its name, with the declaration's documentation and its line comment. */
  lemma TypeSpecRecorded(ex: C.Export, engine: RegexEngine, doc: Option<CommentGroup>, tok: Token, pkg: string,
                         ident: string, comment: Option<CommentGroup>)
    ensures var (name, ok) := C.ExportAs(ex, Some(ident), C.TypeSymbol, engine);
      && (ok ==> SpecRecords(ex, engine, doc, tok, pkg, TypeSpec(ident, comment))
                 == [R.TypeRecord(Export(name, ident, pkg, ParseComment(doc, comment)))])
      && (!ok ==> SpecRecords(ex, engine, doc, tok, pkg, TypeSpec(ident, comment)) == [])
  {
  }

  /**
   * A record a value spec gives: a constant under `const`, otherwise a
   * variable, for one of the spec's names that `ExportAs` accepts, carrying
   * the declaration's documentation, the spec's line comment and the package.
   */
  predicate ValueRecordOf(ex: C.Export, engine: RegexEngine, doc: Option<CommentGroup>, comment: Option<CommentGroup>,
                          tok: Token, pkg: string, names: seq<string>, r: R.Record)
  {
    && (if tok == CONST then r.ConstantRecord? else r.VariableRecord?)
    && r.e.Name in names
    && C.ExportAs(ex, Some(r.e.Name), ValueKind(tok), engine) == (r.e.ExportName, true)
    && r.e.Package == pkg
    && r.e.Comment == ParseComment(doc, comment)
  }

  /** Every record of a value spec is an accepted name of it, of the kind its token says. */
  lemma {:induction false} ValueSpecRecordsAccepted(ex: C.Export, engine: RegexEngine, doc: Option<CommentGroup>,
                                                    comment: Option<CommentGroup>, tok: Token, pkg: string, names: seq<string>)
    ensures forall i :: 0 <= i < |NameRecords(ex, engine, doc, comment, tok, pkg, names)| ==>
      ValueRecordOf(ex, engine, doc, comment, tok, pkg, names, NameRecords(ex, engine, doc, comment, tok, pkg, names)[i])
  {
    if names != [] {
      var init := names[..|names| - 1];
      var last := names[|names| - 1];
      ValueSpecRecordsAccepted(ex, engine, doc, comment, tok, pkg, init);
      var rs := NameRecords(ex, engine, doc, comment, tok, pkg, names);
      var a := NameRecords(ex, engine, doc, comment, tok, pkg, init);
      assert rs == a + NameRecord(ex, engine, doc, comment, tok, pkg, last);
      forall i | 0 <= i < |rs| ensures ValueRecordOf(ex, engine, doc, comment, tok, pkg, names, rs[i]) {
        if i < |a| {
          assert rs[i] == a[i];
          assert ValueRecordOf(ex, engine, doc, comment, tok, pkg, init, a[i]);
          assert a[i].e.Name in names;
        }
      }
    }
  }

  /** Some record holds a symbol of original name `n`. */
  predicate NameRecorded(rs: seq<R.Record>, n: string) {
    exists i :: 0 <= i < |rs| && SymbolName(rs[i]) == n
  }

  lemma NameRecordedPrefix(a: seq<R.Record>, b: seq<R.Record>, n: string)
    requires NameRecorded(a, n)
    ensures NameRecorded(a + b, n)
  {
    var i :| 0 <= i < |a| && SymbolName(a[i]) == n;
    assert (a + b)[i] == a[i];
  }

  lemma NameRecordedLast(a: seq<R.Record>, b: seq<R.Record>, n: string)
    requires |b| == 1 && SymbolName(b[0]) == n
    ensures NameRecorded(a + b, n)
  {
    assert (a + b)[|a|] == b[0];
  }

  /** Every name of a value spec that `ExportAs` accepts is recorded. */
  lemma {:induction false} AcceptedValueNamesRecorded(ex: C.Export, engine: RegexEngine, doc: Option<CommentGroup>,
                                                      comment: Option<CommentGroup>, tok: Token, pkg: string, names: seq<string>)
    ensures forall n :: n in names && C.ExportAs(ex, Some(n), ValueKind(tok), engine).1 ==>
      NameRecorded(NameRecords(ex, engine, doc, comment, tok, pkg, names), n)
  {
    if names != [] {
      var init := names[..|names| - 1];
      var last := names[|names| - 1];
      AcceptedValueNamesRecorded(ex, engine, doc, comment, tok, pkg, init);
      var rs := NameRecords(ex, engine, doc, comment, tok, pkg, names);
      var a := NameRecords(ex, engine, doc, comment, tok, pkg, init);
      assert rs == a + NameRecord(ex, engine, doc, comment, tok, pkg, last);
      var b := NameRecord(ex, engine, doc, comment, tok, pkg, last);
      forall n | n in names && C.ExportAs(ex, Some(n), ValueKind(tok), engine).1
        ensures NameRecorded(rs, n)
      {
        if n == last {
          assert |b| == 1 && SymbolName(b[0]) == n;
          NameRecordedLast(a, b, n);
        } else {
          assert n in init;
          NameRecordedPrefix(a, b, n);
        }
      }
    }
  }

  /** Only dependency IDs that contain a dot are registered, and all of them are. */
  lemma {:induction false} DependencyImportsHaveDots(ids: seq<string>)
    ensures forall i :: 0 <= i < |DependencyImports(ids)| ==>
      DependencyImports(ids)[i].ImportRecord? && '.' in DependencyImports(ids)[i].path && DependencyImports(ids)[i].path in ids
    ensures forall id :: id in ids && '.' in id ==> R.ImportRecord(id) in DependencyImports(ids)
  {
    if ids != [] {
      var init, last := ids[..|ids| - 1], ids[|ids| - 1];
      DependencyImportsHaveDots(init);
      var a := DependencyImports(init);
      var rs := DependencyImports(ids);
      assert rs == a + (if '.' in last then [R.ImportRecord(last)] else []);
      forall i | 0 <= i < |rs| ensures rs[i].ImportRecord? && '.' in rs[i].path && rs[i].path in ids {
        if i < |a| {
          assert rs[i] == a[i];
          var j :| 0 <= j < |init| && init[j] == a[i].path;
          assert ids[j] == init[j];
        }
      }
      forall id | id in ids && '.' in id ensures R.ImportRecord(id) in rs {
        if id != last {
          var j :| 0 <= j < |ids| && ids[j] == id;
          assert init[j] == id;
          assert R.ImportRecord(id) in a;
        }
      }
    }
  }

  /** The symbols of a file are never imports, and carry the package name they were given. */
  lemma {:induction false} SymbolRecordsOfDecls(ex: C.Export, engine: RegexEngine, pkg: string, fileName: string, ds: seq<Decl>)
    ensures SymbolsOf(DeclsRecords(ex, engine, pkg, fileName, ds), pkg)
  {
    if ds != [] {
      SymbolRecordsOfDecls(ex, engine, pkg, fileName, ds[..|ds| - 1]);
      var d := ds[|ds| - 1];
      if d.GenDecl? {
        SymbolRecordsOfSpecs(ex, engine, d.Doc, d.Tok, pkg, d.Specs);
      }
      assert SymbolsOf(NodeRecords(ex, engine, pkg, fileName, d), pkg);
      SymbolsOfAppend(DeclsRecords(ex, engine, pkg, fileName, ds[..|ds| - 1]), NodeRecords(ex, engine, pkg, fileName, d), pkg);
    }
  }

  lemma {:induction false} SymbolRecordsOfSpecs(ex: C.Export, engine: RegexEngine, doc: Option<CommentGroup>, tok: Token,
                                                pkg: string, specs: seq<Spec>)
    ensures SymbolsOf(SpecsRecords(ex, engine, doc, tok, pkg, specs), pkg)
  {
    if specs != [] {
      SymbolRecordsOfSpecs(ex, engine, doc, tok, pkg, specs[..|specs| - 1]);
      var s := specs[|specs| - 1];
      if s.ValueSpec? {
        NameRecordsAreSymbols(ex, engine, doc, s.Comment, tok, pkg, s.Names);
      }
      assert SymbolsOf(SpecRecords(ex, engine, doc, tok, pkg, s), pkg);
      SymbolsOfAppend(SpecsRecords(ex, engine, doc, tok, pkg, specs[..|specs| - 1]), SpecRecords(ex, engine, doc, tok, pkg, s), pkg);
    }
  }

  lemma {:induction false} NameRecordsAreSymbols(ex: C.Export, engine: RegexEngine, doc: Option<CommentGroup>,
                                                 comment: Option<CommentGroup>, tok: Token, pkg: string, names: seq<string>)
    ensures SymbolsOf(NameRecords(ex, engine, doc, comment, tok, pkg, names), pkg)
  {
    if names != [] {
      NameRecordsAreSymbols(ex, engine, doc, comment, tok, pkg, names[..|names| - 1]);
      SymbolsOfAppend(NameRecords(ex, engine, doc, comment, tok, pkg, names[..|names| - 1]),
                      NameRecord(ex, engine, doc, comment, tok, pkg, names[|names| - 1]), pkg);
    }
  }

  /** Every record is a symbol of package `pkg`. */
  predicate SymbolsOf(rs: seq<R.Record>, pkg: string) {
    forall i :: 0 <= i < |rs| ==> !rs[i].ImportRecord? && RecordPackage(rs[i]) == pkg
  }

  lemma SymbolsOfAppend(a: seq<R.Record>, b: seq<R.Record>, pkg: string)
    requires SymbolsOf(a, pkg) && SymbolsOf(b, pkg)
    ensures SymbolsOf(a + b, pkg)
  {
    forall i | 0 <= i < |a + b| ensures !(a + b)[i].ImportRecord? && RecordPackage((a + b)[i]) == pkg {
      if i < |a| {
        assert (a + b)[i] == a[i];
      } else {
        assert (a + b)[i] == b[i - |a|];
      }
    }
  }

  /** The original name of the symbol a record holds; imports hold none. */
  function SymbolName(r: R.Record): string {
    match r
    case ImportRecord(_) => ""
    case TypeRecord(e) => e.Name
    case VariableRecord(e) => e.Name
    case ConstantRecord(e) => e.Name
    case FunctionRecord(f) => f.Export.Name
  }

  /** The package a symbol record names; imports name none. */
  function RecordPackage(r: R.Record): string {
    match r
    case ImportRecord(_) => ""
    case TypeRecord(e) => e.Package
    case VariableRecord(e) => e.Package
    case ConstantRecord(e) => e.Package
    case FunctionRecord(f) => f.Export.Package
  }

  lemma {:induction false} SymbolRecordsOfFiles(ex: C.Export, engine: RegexEngine, pkg: string, fs: seq<File>)
    ensures SymbolsOf(FilesRecords(ex, engine, pkg, fs), pkg)
  {
    if fs != [] {
      SymbolRecordsOfFiles(ex, engine, pkg, fs[..|fs| - 1]);
      SymbolRecordsOfDecls(ex, engine, pkg, fs[|fs| - 1].Name, fs[|fs| - 1].Decls);
      SymbolsOfAppend(FilesRecords(ex, engine, pkg, fs[..|fs| - 1]), FileRecords(ex, engine, pkg, fs[|fs| - 1]), pkg);
    }
  }

  /**
   * A package contributes its dotted dependency imports first, then symbols
   * that carry the last path segment of the package ID as their package.
   */
  lemma PackageRecordsShape(ex: C.Export, engine: RegexEngine, p: Package)
    ensures var rs, k := PackageRecords(ex, engine, p), |DependencyImports(p.Imports)|;
      && (forall i :: 0 <= i < k ==> rs[i].ImportRecord? && '.' in rs[i].path)
      && (forall i :: k <= i < |rs| ==> !rs[i].ImportRecord? && RecordPackage(rs[i]) == FilePath.Base(p.ID))
  {
    DependencyImportsHaveDots(p.Imports);
    SymbolRecordsOfFiles(ex, engine, FilePath.Base(p.ID), p.Syntax);
    ImportsThenSymbols(DependencyImports(p.Imports), FilesRecords(ex, engine, FilePath.Base(p.ID), p.Syntax), FilePath.Base(p.ID));
  }

  lemma ImportsThenSymbols(deps: seq<R.Record>, syms: seq<R.Record>, pkg: string)
    requires forall i :: 0 <= i < |deps| ==> deps[i].ImportRecord? && '.' in deps[i].path
    requires SymbolsOf(syms, pkg)
    ensures forall i :: 0 <= i < |deps| ==> (deps + syms)[i].ImportRecord? && '.' in (deps + syms)[i].path
    ensures forall i :: |deps| <= i < |deps + syms| ==> !(deps + syms)[i].ImportRecord? && RecordPackage((deps + syms)[i]) == pkg
  {
    forall i | |deps| <= i < |deps + syms|
      ensures !(deps + syms)[i].ImportRecord? && RecordPackage((deps + syms)[i]) == pkg
    {
      assert (deps + syms)[i] == syms[i - |deps|];
    }
  }

  /** "./sub" becomes `sub` under the package path; any other import is kept as written. */
  lemma ResolveImportCases(pkgName: string, importPath: string)
    ensures !HasPrefix(importPath, "./") ==> ResolveImport(pkgName, importPath) == importPath
    ensures HasPrefix(importPath, "./") ==> ResolveImport(pkgName, importPath) == FilePath.JoinPath(pkgName, importPath[2..])
  {
  }

  /** For plain paths the resolution is a simple concatenation. */
  lemma ResolveRelativeImport(pkgName: string, sub: string)
    requires FilePath.Plain(pkgName) && FilePath.Plain(sub)
    ensures ResolveImport(pkgName, "./" + sub) == pkgName + "/" + sub
  {
    assert HasPrefix("./" + sub, "./");
    assert ("./" + sub)[2..] == sub;
    FilePath.JoinPlain(pkgName, sub);
  }

  /** A failure in a prefix of the entries is the outcome for the whole list: later entries are never processed. */
  lemma {:induction false} CollectStopsAtFirstFailure(pkgName: string, dir: string, exs: seq<C.Export>, engine: RegexEngine,
                                                      loader: (string, string) -> Result<Loaded, Error>, k: nat)
    requires k <= |exs|
    requires CollectAll(pkgName, dir, exs[..k], engine, loader).Err.Some?
    ensures CollectAll(pkgName, dir, exs, engine, loader) == CollectAll(pkgName, dir, exs[..k], engine, loader)
    decreases |exs|
  {
    if k < |exs| {
      assert exs[..|exs| - 1][..k] == exs[..k];
      CollectStopsAtFirstFailure(pkgName, dir, exs[..|exs| - 1], engine, loader, k);
    } else {
      assert exs[..k] == exs;
    }
  }

  /** Without failures the records are those of every entry, in entry order. */
  lemma CollectAppend(pkgName: string, dir: string, exs: seq<C.Export>, ex: C.Export, engine: RegexEngine,
                      loader: (string, string) -> Result<Loaded, Error>)
    requires CollectAll(pkgName, dir, exs, engine, loader).Err.None?
    ensures var o := ProcessExportSpec(pkgName, dir, ex, engine, loader);
      CollectAll(pkgName, dir, exs + [ex], engine, loader)
        == Outcome(CollectAll(pkgName, dir, exs, engine, loader).Records + o.Records, o.Err)
  {
    assert (exs + [ex])[..|exs|] == exs;
  }

  /** The generated registry is named after the last segment of the package path, and keeps that name. */
  lemma {:induction false} RegistryNamedAfterPackage(pkgName: string, rs: seq<R.Record>)
    ensures R.Run(Start(pkgName), rs).Pkg == FilePath.Base(pkgName)
    ensures R.Consistent(R.Run(Start(pkgName), rs))
  {
    R.RunKeepsConsistent(Start(pkgName), rs);
    if rs != [] {
      RegistryNamedAfterPackage(pkgName, rs[..|rs| - 1]);
    }
  }

  // ---------------------------------------------------------------------
  // The collector object.

  class Exporter {
    var Exports: seq<C.Export>
    var Dir: string
    var PkgName: string
    var data: R.Exports?

    /** `New`: the collector holds the entries, the module directory and the package path. */
    constructor New(exports: seq<C.Export>, dir: string, pkgName: string)
      ensures Exports == exports && Dir == dir && PkgName == pkgName && data == null
    {
      Exports := exports;
      Dir := dir;
      PkgName := pkgName;
      data := null;
    }

    /**
     * `Generate`: a fresh registry for the package, every entry processed in
     * order until one fails, then rendering and formatting.
     */
    method Generate(engine: RegexEngine, loader: (string, string) -> Result<Loaded, Error>,
                    renderer: R.Snapshot -> Result<string, Error>, formatter: string -> Result<string, Error>)
      returns (code: string, err: Option<Error>)
      modifies this
      ensures Exports == old(Exports) && Dir == old(Dir) && PkgName == old(PkgName)
      ensures data != null && fresh(data) && data.Valid()
      ensures data.Model() == R.Run(Start(PkgName), CollectAll(PkgName, Dir, Exports, engine, loader).Records)
      ensures var g := GenerateSpec(PkgName, Dir, Exports, engine, loader, renderer, formatter);
        && (err.None? <==> g.Success?)
        && (g.Success? ==> code == g.value)
        && (g.Failure? ==> code == "" && err == Some(g.error))
    {
      data := new R.Exports.New(FilePath.Base(PkgName));
      err := CollectExports(engine, loader);
      if err.Some? {
        return "", err;
      }
      var rendered := renderer(data.Model());
      if rendered.Failure? {
        return "", Some(rendered.error);
      }
      var formatted := Format.FormatCode(rendered.value, formatter);
      if formatted.Failure? {
        return "", Some(formatted.error);
      }
      return formatted.value, None;
    }

    /** The loop of `Generate` over the entries, returning at the first failure. */
    method CollectExports(engine: RegexEngine, loader: (string, string) -> Result<Loaded, Error>)
      returns (err: Option<Error>)
      requires data != null && data.Valid()
      modifies data
      ensures data.Valid()
      ensures var o := CollectAll(PkgName, Dir, Exports, engine, loader);
        err == o.Err && data.Model() == R.Run(old(data.Model()), o.Records)
    {
      var s0 := data.Model();
      var i := 0;
      assert Exports[..0] == [];
      while i < |Exports|
        invariant 0 <= i <= |Exports|
        invariant data.Valid()
        invariant CollectAll(PkgName, Dir, Exports[..i], engine, loader).Err.None?
        invariant data.Model() == R.Run(s0, CollectAll(PkgName, Dir, Exports[..i], engine, loader).Records)
      {
        err := ProcessExport(Exports[i], engine, loader);
        CollectStep(PkgName, Dir, Exports, i, engine, loader, s0);
        if err.Some? {
          CollectStopsAtFirstFailure(PkgName, Dir, Exports, engine, loader, i + 1);
          return;
        }
        i := i + 1;
      }
      assert Exports[..i] == Exports;
      err := None;
    }

    /** `processExport`: resolve and register the import, load, then walk the packages. */
    method ProcessExport(entry: C.Export, engine: RegexEngine, loader: (string, string) -> Result<Loaded, Error>)
      returns (err: Option<Error>)
      requires data != null && data.Valid()
      modifies data
      ensures data.Valid()
      ensures var o := ProcessExportSpec(PkgName, Dir, entry, engine, loader);
        err == o.Err && data.Model() == R.Run(old(data.Model()), o.Records)
    {
      var ex := entry;
      var (sub, ok) := CutPrefix(ex.Import, "./");
      if ok {
        ex := ex.(Import := FilePath.JoinPath(PkgName, sub));
      }
      assert ex == entry.(Import := ResolveImport(PkgName, entry.Import));
      var s0 := data.Model();
      data.AddImport(ex.Import);
      R.RunOne(s0, R.ImportRecord(ex.Import));
      var loaded := loader(Dir, ex.Import);
      if loaded.Failure? {
        return Some(loaded.error);
      }
      if loaded.value.ErrorCount > 0 {
        return Some(LoadingPackages);
      }
      InspectPackages(ex, engine, loaded.value.Packages);
      R.RunAppend(s0, [R.ImportRecord(ex.Import)], PackagesRecords(ex, engine, loaded.value.Packages));
      return None;
    }

    /** The loop of `processExport` over the loaded packages. */
    method InspectPackages(ex: C.Export, engine: RegexEngine, pkgs: seq<Package>)
      requires data != null && data.Valid()
      modifies data
      ensures data.Valid()
      ensures data.Model() == R.Run(old(data.Model()), PackagesRecords(ex, engine, pkgs))
    {
      var s0 := data.Model();
      for p := 0 to |pkgs|
        invariant data.Valid()
        invariant data.Model() == R.Run(s0, PackagesRecords(ex, engine, pkgs[..p]))
      {
        InspectPackage(ex, engine, pkgs[p]);
        assert pkgs[..p + 1][..p] == pkgs[..p];
        R.RunAppend(s0, PackagesRecords(ex, engine, pkgs[..p]), PackageRecords(ex, engine, pkgs[p]));
      }
      assert pkgs[..|pkgs|] == pkgs;
    }

    /** The body of the package loop: dependency imports, then every file. */
    method InspectPackage(ex: C.Export, engine: RegexEngine, pkg: Package)
      requires data != null && data.Valid()
      modifies data
      ensures data.Valid()
      ensures data.Model() == R.Run(old(data.Model()), PackageRecords(ex, engine, pkg))
    {
      var s0 := data.Model();
      AddDependencyImports(pkg.Imports);
      InspectFiles(ex, engine, FilePath.Base(pkg.ID), pkg.Syntax);
      R.RunAppend(s0, DependencyImports(pkg.Imports), FilesRecords(ex, engine, FilePath.Base(pkg.ID), pkg.Syntax));
    }

    /** The loop over a package's imports: only IDs with a dot are registered. */
    method AddDependencyImports(ids: seq<string>)
      requires data != null && data.Valid()
      modifies data
      ensures data.Valid()
      ensures data.Model() == R.Run(old(data.Model()), DependencyImports(ids))
    {
      var s0 := data.Model();
      for k := 0 to |ids|
        invariant data.Valid()
        invariant data.Model() == R.Run(s0, DependencyImports(ids[..k]))
      {
        var id := ids[k];
        assert ids[..k + 1][..k] == ids[..k];
        if '.' in id {
          var before := data.Model();
          data.AddImport(id);
          R.RunOne(before, R.ImportRecord(id));
          R.RunAppend(s0, DependencyImports(ids[..k]), [R.ImportRecord(id)]);
          assert DependencyImports(ids[..k + 1]) == DependencyImports(ids[..k]) + [R.ImportRecord(id)];
        } else {
          assert DependencyImports(ids[..k + 1]) == DependencyImports(ids[..k]) + [];
          assert DependencyImports(ids[..k + 1]) == DependencyImports(ids[..k]);
        }
      }
      assert ids[..|ids|] == ids;
    }

    /** The loop over a package's files. */
    method InspectFiles(ex: C.Export, engine: RegexEngine, pkg: string, files: seq<File>)
      requires data != null && data.Valid()
      modifies data
      ensures data.Valid()
      ensures data.Model() == R.Run(old(data.Model()), FilesRecords(ex, engine, pkg, files))
    {
      var s0 := data.Model();
      for f := 0 to |files|
        invariant data.Valid()
        invariant data.Model() == R.Run(s0, FilesRecords(ex, engine, pkg, files[..f]))
      {
        InspectFile(ex, engine, pkg, files[f]);
        assert files[..f + 1][..f] == files[..f];
        R.RunAppend(s0, FilesRecords(ex, engine, pkg, files[..f]), FileRecords(ex, engine, pkg, files[f]));
      }
      assert files[..|files|] == files;
    }

    /** `ast.Inspect` of one file with `inspectAST`: every top-level declaration in turn. */
    method InspectFile(ex: C.Export, engine: RegexEngine, pkg: string, file: File)
      requires data != null && data.Valid()
      modifies data
      ensures data.Valid()
      ensures data.Model() == R.Run(old(data.Model()), FileRecords(ex, engine, pkg, file))
    {
      var s0 := data.Model();
      var name, decls := file.Name, file.Decls;
      for j := 0 to |decls|
        invariant data.Valid()
        invariant data.Model() == R.Run(s0, DeclsRecords(ex, engine, pkg, name, decls[..j]))
      {
        var _ := InspectDecl(ex, engine, pkg, name, decls[j]);
        DeclsRecordsStep(ex, engine, pkg, name, decls, j);
        R.RunAppend(s0, DeclsRecords(ex, engine, pkg, name, decls[..j]), NodeRecords(ex, engine, pkg, name, decls[j]));
      }
      assert decls[..|decls|] == decls;
    }

    /**
     * `inspectAST` on a top-level declaration of file `fileName`: nothing in a
     * rejected file; otherwise the declaration's accepted symbols. Its result
     * says whether `ast.Inspect` walks on into the declaration.
     */
    method InspectDecl(ex: C.Export, engine: RegexEngine, pkg: string, fileName: string, d: Decl) returns (descend: bool)
      requires data != null && data.Valid()
      modifies data
      ensures data.Valid()
      ensures data.Model() == R.Run(old(data.Model()), NodeRecords(ex, engine, pkg, fileName, d))
      ensures descend <==> !C.IncludeFile(ex, FileStem(fileName), engine) || d.BadDecl?
    {
      var fn := TrimSuffix(FilePath.Base(fileName), ".go");
      if !C.IncludeFile(ex, fn, engine) {
        return true;
      }
      match d
      case GenDecl(doc, tok, specs) =>
        InspectSpecs(ex, engine, pkg, doc, tok, specs);
        return false;
      case FuncDecl(doc, ident, hasRecv, t) =>
        var (name, ok) := C.ExportAs(ex, Some(ident), C.FunctionSymbol, engine);
        if ok && !hasRecv {
          var sig := ParseFunctionSignature(t);
          var s0 := data.Model();
          data.AddFunction(name, ident, pkg, ParseComment(doc, None), sig);
          R.RunOne(s0, R.FunctionRecord(FunctionExport(Export(name, ident, pkg, ParseComment(doc, None)), sig)));
        }
        return false;
      case BadDecl =>
        return true;
    }

    /** The loop of `inspectAST` over the specs of a general declaration. */
    method InspectSpecs(ex: C.Export, engine: RegexEngine, pkg: string, doc: Option<CommentGroup>, tok: Token, specs: seq<Spec>)
      requires data != null && data.Valid()
      modifies data
      ensures data.Valid()
      ensures data.Model() == R.Run(old(data.Model()), SpecsRecords(ex, engine, doc, tok, pkg, specs))
    {
      var s0 := data.Model();
      for j := 0 to |specs|
        invariant data.Valid()
        invariant data.Model() == R.Run(s0, SpecsRecords(ex, engine, doc, tok, pkg, specs[..j]))
      {
        InspectSpec(ex, engine, pkg, doc, tok, specs[j]);
        assert specs[..j + 1][..j] == specs[..j];
        R.RunAppend(s0, SpecsRecords(ex, engine, doc, tok, pkg, specs[..j]), SpecRecords(ex, engine, doc, tok, pkg, specs[j]));
      }
      assert specs[..|specs|] == specs;
    }

    /** The spec switch of `inspectAST`. */
    method InspectSpec(ex: C.Export, engine: RegexEngine, pkg: string, doc: Option<CommentGroup>, tok: Token, s: Spec)
      requires data != null && data.Valid()
      modifies data
      ensures data.Valid()
      ensures data.Model() == R.Run(old(data.Model()), SpecRecords(ex, engine, doc, tok, pkg, s))
    {
      match s
      case ImportSpec(_) =>
      case TypeSpec(ident, comment) =>
        var (name, ok) := C.ExportAs(ex, Some(ident), C.TypeSymbol, engine);
        if ok {
          var s0 := data.Model();
          data.AddType(name, ident, pkg, ParseComment(doc, comment));
          R.RunOne(s0, R.TypeRecord(Export(name, ident, pkg, ParseComment(doc, comment))));
        }
      case ValueSpec(names, comment) =>
        InspectNames(ex, engine, pkg, doc, comment, tok, names);
    }

    /** The loop of `inspectAST` over the names of a value spec. */
    method InspectNames(ex: C.Export, engine: RegexEngine, pkg: string, doc: Option<CommentGroup>,
                        comment: Option<CommentGroup>, tok: Token, names: seq<string>)
      requires data != null && data.Valid()
      modifies data
      ensures data.Valid()
      ensures data.Model() == R.Run(old(data.Model()), NameRecords(ex, engine, doc, comment, tok, pkg, names))
    {
      var s0 := data.Model();
      for k := 0 to |names|
        invariant data.Valid()
        invariant data.Model() == R.Run(s0, NameRecords(ex, engine, doc, comment, tok, pkg, names[..k]))
      {
        var before := data.Model();
        InspectName(ex, engine, pkg, doc, comment, tok, names[k]);
        assert names[..k + 1][..k] == names[..k];
        R.RunAppend(s0, NameRecords(ex, engine, doc, comment, tok, pkg, names[..k]),
                    NameRecord(ex, engine, doc, comment, tok, pkg, names[k]));
      }
      assert names[..|names|] == names;
    }

    /** The body of the name loop: constants under `const`, variables otherwise. */
    method InspectName(ex: C.Export, engine: RegexEngine, pkg: string, doc: Option<CommentGroup>,
                       comment: Option<CommentGroup>, tok: Token, ident: string)
      requires data != null && data.Valid()
      modifies data
      ensures data.Valid()
      ensures data.Model() == R.Run(old(data.Model()), NameRecord(ex, engine, doc, comment, tok, pkg, ident))
    {
      var exportType := if tok == CONST then C.ConstantSymbol else C.VariableSymbol;
      var (name, ok) := C.ExportAs(ex, Some(ident), exportType, engine);
      if ok {
        var s0 := data.Model();
        var c := ParseComment(doc, comment);
        if exportType == C.VariableSymbol {
          data.AddVariable(name, ident, pkg, c);
          R.RunOne(s0, R.VariableRecord(Export(name, ident, pkg, c)));
        } else if exportType == C.ConstantSymbol {
          data.AddConstant(name, ident, pkg, c);
          R.RunOne(s0, R.ConstantRecord(Export(name, ident, pkg, c)));
        }
      }
    }
  }

  /** One turn of the entry loop of `Generate`. */
  lemma CollectStep(pkgName: string, dir: string, exs: seq<C.Export>, i: nat, engine: RegexEngine,
                    loader: (string, string) -> Result<Loaded, Error>, s0: R.Snapshot)
    requires i < |exs| && CollectAll(pkgName, dir, exs[..i], engine, loader).Err.None?
    ensures var before, o := CollectAll(pkgName, dir, exs[..i], engine, loader), ProcessExportSpec(pkgName, dir, exs[i], engine, loader);
      && CollectAll(pkgName, dir, exs[..i + 1], engine, loader) == Outcome(before.Records + o.Records, o.Err)
      && R.Run(s0, before.Records + o.Records) == R.Run(R.Run(s0, before.Records), o.Records)
  {
    assert exs[..i + 1][..i] == exs[..i];
    var before, o := CollectAll(pkgName, dir, exs[..i], engine, loader), ProcessExportSpec(pkgName, dir, exs[i], engine, loader);
    R.RunAppend(s0, before.Records, o.Records);
  }
}
