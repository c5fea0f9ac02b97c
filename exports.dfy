/**
 * The export registry (exporter/exports/exports.go): a de-duplicated list of
 * imports, three lists kept sorted by export name, and a list of functions in
 * the order they were found.
 */
module ExportRegistry {
  import opened GoStrings
  import opened Comments
  import opened Parameters
  import opened ExportRecords

  // ---------------------------------------------------------------------
  // Sorted insertion.

  /** Non-decreasing by export name under `strings.Compare`. */
  ghost predicate SortedByName(ts: seq<Export>) {
    forall i, j :: 0 <= i < j < |ts| ==> Compare(ts[i].ExportName, ts[j].ExportName) <= 0
  }

  /** The lowest index whose export name is not below `name`; `|ts|` when there is none. */
  function LowerBound(ts: seq<Export>, name: string): (i: nat)
    ensures i <= |ts|
    ensures forall k :: 0 <= k < i ==> Compare(ts[k].ExportName, name) < 0
    ensures i < |ts| ==> Compare(ts[i].ExportName, name) >= 0
  {
    if ts == [] || Compare(ts[0].ExportName, name) >= 0 then 0
    else
      var i := 1 + LowerBound(ts[1..], name);
      assert forall k :: 1 <= k <= |ts[1..]| ==> ts[1..][k - 1] == ts[k];
      i
  }

  /** `ts` with `t` put in at the lowest index whose name is not below its own. */
  function SortedInsert(ts: seq<Export>, t: Export): seq<Export> {
    var i := LowerBound(ts, t.ExportName);
    ts[..i] + [t] + ts[i..]
  }

  /** An index below every name at or above it and above every name before it is the lower bound. */
  lemma LowerBoundUnique(ts: seq<Export>, name: string, i: nat)
    requires i <= |ts|
    requires forall k :: 0 <= k < i ==> Compare(ts[k].ExportName, name) < 0
    requires i < |ts| ==> Compare(ts[i].ExportName, name) >= 0
    ensures LowerBound(ts, name) == i
  {
  }

  /**
   * `slices.BinarySearchFunc` with `strings.Compare` on export names: the
   * position where `target` would be inserted and whether an equal name is
   * already there.
   */
  method BinarySearch(ts: seq<Export>, target: Export) returns (i: nat, found: bool)
    requires SortedByName(ts)
    ensures i == LowerBound(ts, target.ExportName)
    ensures found <==> i < |ts| && ts[i].ExportName == target.ExportName
  {
    var name := target.ExportName;
    var lo, hi := 0, |ts|;
    while lo < hi
      invariant 0 <= lo <= hi <= |ts|
      invariant forall k :: 0 <= k < lo ==> Compare(ts[k].ExportName, name) < 0
      invariant forall k :: hi <= k < |ts| ==> Compare(ts[k].ExportName, name) >= 0
    {
      var h := (lo + hi) / 2;
      if Compare(ts[h].ExportName, name) < 0 {
        forall k | lo <= k <= h ensures Compare(ts[k].ExportName, name) < 0 {
          if k < h {
            CompareTransitiveStrict(ts[k].ExportName, ts[h].ExportName, name);
          }
        }
        lo := h + 1;
      } else {
        forall k | h <= k < hi ensures Compare(ts[k].ExportName, name) >= 0 {
          if h < k {
            CompareAntisymmetric(ts[h].ExportName, name);
            CompareTransitive(name, ts[h].ExportName, ts[k].ExportName);
            CompareAntisymmetric(ts[k].ExportName, name);
          }
        }
        hi := h;
      }
    }
    LowerBoundUnique(ts, name, lo);
    i := lo;
    found := i < |ts| && Compare(ts[i].ExportName, name) == 0;
  }

  /** `insertSortedExport`: binary search for the position, then `slices.Insert`. */
  method InsertSortedExport(ts: seq<Export>, t: Export) returns (r: seq<Export>)
    requires SortedByName(ts)
    ensures r == SortedInsert(ts, t)
  {
    var i, _ := BinarySearch(ts, t);
    r := ts[..i] + [t] + ts[i..];
  }

  /** Sorted insertion keeps the list sorted. */
  lemma SortedInsertKeepsOrder(ts: seq<Export>, t: Export)
    requires SortedByName(ts)
    ensures SortedByName(SortedInsert(ts, t))
  {
    var i := LowerBound(ts, t.ExportName);
    var r := SortedInsert(ts, t);
    forall a, b | 0 <= a < b < |r| ensures Compare(r[a].ExportName, r[b].ExportName) <= 0 {
      if b < i || a > i {
        var a' := if a < i then a else a - 1;
        var b' := if b < i then b else b - 1;
        assert r[a] == ts[a'] && r[b] == ts[b'];
      } else if a == i {
        assert r[b] == ts[b - 1];
        CompareAntisymmetric(ts[i].ExportName, t.ExportName);
        if b - 1 > i {
          CompareTransitive(t.ExportName, ts[i].ExportName, ts[b - 1].ExportName);
        }
      } else if b == i {
        assert r[a] == ts[a];
      } else {
        assert a < i < b;
        assert r[a] == ts[a] && r[b] == ts[b - 1];
      }
    }
  }

  /**
   * Sorted insertion adds exactly the new record and keeps every old one in
   * its old order; taking the new record out again gives back the old list.
   */
  lemma SortedInsertAddsExactlyOne(ts: seq<Export>, t: Export)
    ensures var r, i := SortedInsert(ts, t), LowerBound(ts, t.ExportName);
      && |r| == |ts| + 1
      && multiset(r) == multiset(ts) + multiset{t}
      && r[i] == t
      && r[..i] + r[i + 1..] == ts
  {
    var i := LowerBound(ts, t.ExportName);
    var r := SortedInsert(ts, t);
    assert ts == ts[..i] + ts[i..];
    assert r[..i] == ts[..i];
    assert r[i + 1..] == ts[i..];
  }

  /**
   * Among records with equal export names the most recently added comes
   * first: every old record with the new record's name ends up after it.
   */
  lemma NewestFirstAmongEqualNames(ts: seq<Export>, t: Export, j: nat)
    requires j < |ts| && ts[j].ExportName == t.ExportName
    ensures LowerBound(ts, t.ExportName) <= j
    ensures SortedInsert(ts, t)[j + 1] == ts[j]
  {
  }

  // ---------------------------------------------------------------------
  // De-duplicated imports.

  ghost predicate NoDuplicates(s: seq<string>) {
    forall i, j :: 0 <= i < j < |s| ==> s[i] != s[j]
  }

  /** The import list after `AddImport(path)`. */
  function WithImport(imports: seq<string>, path: string): seq<string> {
    if path in imports then imports else imports + [path]
  }

  /**
   * Adding an import keeps the earlier ones in place (first-seen order),
   * adds the path if and only if it is new, and never makes a duplicate.
   */
  lemma WithImportFirstSeen(imports: seq<string>, path: string)
    requires NoDuplicates(imports)
    ensures var r := WithImport(imports, path);
      && NoDuplicates(r)
      && HasPrefixSeq(r, imports)
      && (set x | x in r) == (set x | x in imports) + {path}
      && (|r| == |imports| + 1 <==> path !in imports)
  {
  }

  predicate HasPrefixSeq(s: seq<string>, prefix: seq<string>) {
    |prefix| <= |s| && s[..|prefix|] == prefix
  }

  /** Adding the same import twice is the same as adding it once. */
  lemma WithImportIdempotent(imports: seq<string>, path: string)
    ensures WithImport(WithImport(imports, path), path) == WithImport(imports, path)
  {
  }

  // ---------------------------------------------------------------------
  // The registry's abstract value, and the additions made to it.

  datatype Snapshot = Snapshot(
    Pkg: string,
    Imports: seq<string>,
    Types: seq<Export>,
    Variables: seq<Export>,
    Constants: seq<Export>,
    Functions: seq<FunctionExport>)

  /** What the registry guarantees of its lists at every point. */
  ghost predicate Consistent(s: Snapshot) {
    NoDuplicates(s.Imports) && SortedByName(s.Types) && SortedByName(s.Variables) && SortedByName(s.Constants)
  }

  /** One call of an `Add…` method, as a value. */
  datatype Record =
    | ImportRecord(path: string)
    | TypeRecord(e: Export)
    | VariableRecord(e: Export)
    | ConstantRecord(e: Export)
    | FunctionRecord(f: FunctionExport)

  /** The registry after one addition. */
  function Step(s: Snapshot, r: Record): Snapshot {
    match r
    case ImportRecord(path) => s.(Imports := WithImport(s.Imports, path))
    case TypeRecord(e) => s.(Types := SortedInsert(s.Types, e))
    case VariableRecord(e) => s.(Variables := SortedInsert(s.Variables, e))
    case ConstantRecord(e) => s.(Constants := SortedInsert(s.Constants, e))
    case FunctionRecord(f) => s.(Functions := s.Functions + [f])
  }

  /** The registry after a sequence of additions, in order. */
  function Run(s: Snapshot, rs: seq<Record>): Snapshot {
    if rs == [] then s else Step(Run(s, rs[..|rs| - 1]), rs[|rs| - 1])
  }

  lemma {:induction false} RunAppend(s: Snapshot, a: seq<Record>, b: seq<Record>)
    ensures Run(s, a + b) == Run(Run(s, a), b)
    decreases |b|
  {
    if b == [] {
      assert a + b == a;
    } else {
      assert (a + b)[..|a + b| - 1] == a + b[..|b| - 1];
      RunAppend(s, a, b[..|b| - 1]);
    }
  }

  lemma RunOne(s: Snapshot, r: Record)
    ensures Run(s, [r]) == Step(s, r)
  {
    assert [r][..0] == [];
  }

  lemma StepKeepsConsistent(s: Snapshot, r: Record)
    requires Consistent(s)
    ensures Consistent(Step(s, r))
  {
    match r
    case ImportRecord(path) => WithImportFirstSeen(s.Imports, path);
    case TypeRecord(e) => SortedInsertKeepsOrder(s.Types, e);
    case VariableRecord(e) => SortedInsertKeepsOrder(s.Variables, e);
    case ConstantRecord(e) => SortedInsertKeepsOrder(s.Constants, e);
    case FunctionRecord(f) =>
  }

  /** However the additions go, the imports stay distinct and the three lists stay sorted. */
  lemma {:induction false} RunKeepsConsistent(s: Snapshot, rs: seq<Record>)
    requires Consistent(s)
    ensures Consistent(Run(s, rs))
  {
    if rs != [] {
      RunKeepsConsistent(s, rs[..|rs| - 1]);
      StepKeepsConsistent(Run(s, rs[..|rs| - 1]), rs[|rs| - 1]);
    }
  }

  /** Functions are kept in the order they were added, one per record, with no sorting or merging. */
  lemma {:induction false} FunctionsInCallOrder(s: Snapshot, rs: seq<Record>)
    ensures Run(s, rs).Functions == s.Functions + FunctionsOf(rs)
  {
    if rs != [] {
      FunctionsInCallOrder(s, rs[..|rs| - 1]);
    }
  }

  function FunctionsOf(rs: seq<Record>): seq<FunctionExport> {
    if rs == [] then []
    else FunctionsOf(rs[..|rs| - 1]) + (if rs[|rs| - 1].FunctionRecord? then [rs[|rs| - 1].f] else [])
  }

  // ---------------------------------------------------------------------
  // The registry object.

  class Exports {
    var Pkg: string
    var Imports: seq<string>
    var Types: seq<Export>
    var Variables: seq<Export>
    var Constants: seq<Export>
    var Functions: seq<FunctionExport>
    var importsSet: set<string>

    function Model(): Snapshot
      reads this
    {
      Snapshot(Pkg, Imports, Types, Variables, Constants, Functions)
    }

    /** The membership set is the set of listed imports, and the lists keep their order. */
    ghost predicate Valid()
      reads this
    {
      importsSet == (set x | x in Imports) && Consistent(Model())
    }

    /** `New(pkg)`. */
    constructor New(pkg: string)
      ensures Valid()
      ensures Model() == Snapshot(pkg, [], [], [], [], [])
      ensures importsSet == {}
    {
      Pkg := pkg;
      Imports := [];
      Types := [];
      Variables := [];
      Constants := [];
      Functions := [];
      importsSet := {};
    }

    method AddImport(importPath: string)
      requires Valid()
      modifies this
      ensures Valid()
      ensures Model() == Step(old(Model()), ImportRecord(importPath))
      ensures Imports == WithImport(old(Imports), importPath)
      ensures importsSet == old(importsSet) + {importPath}
      ensures Pkg == old(Pkg) && Types == old(Types) && Variables == old(Variables)
      ensures Constants == old(Constants) && Functions == old(Functions)
    {
      WithImportFirstSeen(Imports, importPath);
      if importPath !in importsSet {
        importsSet := importsSet + {importPath};
        Imports := Imports + [importPath];
      }
    }

    method AddType(exportName: string, name: string, pkg: string, c: Comment)
      requires Valid()
      modifies this
      ensures Valid()
      ensures Model() == Step(old(Model()), TypeRecord(Export(exportName, name, pkg, c)))
      ensures Types == SortedInsert(old(Types), Export(exportName, name, pkg, c))
      ensures Pkg == old(Pkg) && Imports == old(Imports) && importsSet == old(importsSet)
      ensures Variables == old(Variables) && Constants == old(Constants) && Functions == old(Functions)
    {
      var t := Export(exportName, name, pkg, c);
      SortedInsertKeepsOrder(Types, t);
      Types := InsertSortedExport(Types, t);
    }

    method AddVariable(exportName: string, name: string, pkg: string, c: Comment)
      requires Valid()
      modifies this
      ensures Valid()
      ensures Model() == Step(old(Model()), VariableRecord(Export(exportName, name, pkg, c)))
      ensures Variables == SortedInsert(old(Variables), Export(exportName, name, pkg, c))
      ensures Pkg == old(Pkg) && Imports == old(Imports) && importsSet == old(importsSet)
      ensures Types == old(Types) && Constants == old(Constants) && Functions == old(Functions)
    {
      var t := Export(exportName, name, pkg, c);
      SortedInsertKeepsOrder(Variables, t);
      Variables := InsertSortedExport(Variables, t);
    }

    method AddConstant(exportName: string, name: string, pkg: string, c: Comment)
      requires Valid()
      modifies this
      ensures Valid()
      ensures Model() == Step(old(Model()), ConstantRecord(Export(exportName, name, pkg, c)))
      ensures Constants == SortedInsert(old(Constants), Export(exportName, name, pkg, c))
      ensures Pkg == old(Pkg) && Imports == old(Imports) && importsSet == old(importsSet)
      ensures Types == old(Types) && Variables == old(Variables) && Functions == old(Functions)
    {
      var t := Export(exportName, name, pkg, c);
      SortedInsertKeepsOrder(Constants, t);
      Constants := InsertSortedExport(Constants, t);
    }

    method AddFunction(exportName: string, name: string, pkg: string, c: Comment, sig: FunctionSignature)
      requires Valid()
      modifies this
      ensures Valid()
      ensures Model() == Step(old(Model()), FunctionRecord(FunctionExport(Export(exportName, name, pkg, c), sig)))
      ensures Functions == old(Functions) + [FunctionExport(Export(exportName, name, pkg, c), sig)]
      ensures Pkg == old(Pkg) && Imports == old(Imports) && importsSet == old(importsSet)
      ensures Types == old(Types) && Variables == old(Variables) && Constants == old(Constants)
    {
      Functions := Functions + [FunctionExport(Export(exportName, name, pkg, c), sig)];
    }
  }
}
