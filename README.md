# reexporter, modelled in Dafny

`reexporter` generates a Go file that re-exports selected symbols of other
packages. It reads a configuration of export entries. For each entry it loads
the imported package and walks the top-level declarations of its files. It
decides each exported name against the entry's exclusions and renames. It
collects the accepted types, variables, constants and functions in a
registry, renders the registry through a template and formats the result.

This project models that pipeline and proves properties of the model:

- `filter.dfy` (module `Filters`): exact or `/regex/` filters. The regular
  expression engine is a parameter.
- `config.dfy` (module `Config`): `IncludeFile`, `ExportAs`, and the merge of
  the common settings into every entry. The merge is a `class Config` over an
  array of entries, changed in place.
- `exports.dfy` (module `ExportRegistry`): the registry as a `class Exports`
  with the source's fields. Its state is summarised by a `Snapshot` value. A
  fold `Run` over `Record` events says what a sequence of calls builds.
- `export.dfy` (module `ExportRecords`): the stored record types.
- `parameter.dfy` (module `Parameters`): parameter rendering and the
  expansion of a function type's field lists.
- `comments.dfy` (module `Comments`): `ParseComment`.
- `exporter.dfy` (module `Exporter`): the collector. `class Exporter` runs
  the loops of `Generate`, `processExport` and `inspectAST`. Each method is
  proved equal to a fold of a specification function, such as
  `PackageRecords` or `SpecsRecords`.
- `template.dfy` (module `Template`): the `parenthesize` template helper,
  on the UTF-8 bytes of its bracket string.
- `format.dfy` (module `Format`): the formatter error, its text, `Unwrap` and
  `formatCode`.
- `gostrings.dfy`, `filepath.dfy`, `errors.dfy`, `wrappers.dfy`: the parts of
  Go's `strings`, `strconv`, `fmt` and `path/filepath` packages that the core
  uses; the error values; `Option` and `Result`.

These are parameters of the model:

- the package loader: `packages.Load` together with the count of
  `packages.PrintErrors`;
- the regular expression engine: whether a pattern compiles, and whether it
  matches;
- the template renderer;
- the formatter (`imports.Process`).

A loaded package is its ID, the IDs of its imports, and its files. A file is
its name and its top-level declarations. A declaration is a general
declaration with its token, documentation and specs, a function declaration,
or a declaration of any other kind.

Where the source's own comments promise more than its code does, the model
follows the code:

- The loader's comment at config/config.go:102 says the common settings are
  merged into every entry, and the rename step is labelled "Merge Rename"
  (config/config.go:122). The code merges with `maps.Copy` into the entry's own
  map (config/config.go:123), and that map is nil when the entry has no
  `rename` block. Copying a non-empty common map into it panics, and the model
  gives that failure (see Findings).
- The wrap helper's doc comment (exporter/template.go:73-75) describes the
  bracket argument as "a string of two characters". The code takes the first
  two bytes (see Findings).
- The filter's doc comment (config/filter.go:8-10) describes a filter as exact
  text or a regular expression enclosed in slashes. The code only assigns the
  regex field in regex mode, so unmarshalling into a filter that already had
  a regex keeps that regex. `Filters.UnmarshalText` keeps it too; from the
  zero filter, as a fresh YAML decode starts, the filter is exact.

## Model

| member | source | states |
|---|---|---|
| Filters.Filter.Match | config/filter.go:17-25 | Without a regex the filter matches exactly its text. With one, it matches iff the engine matches the regex against the string. |
| Filters.UnmarshalText | config/filter.go:28-39 | The raw text is always stored. Regex mode is taken exactly when the text starts and ends with `/` and is longer than 2. The pattern is the text without its first and last characters. Only a failed compile gives an error, and then no regex is kept. Outside regex mode the old regex is kept. |
| Filters.ExactFilterMatchesOnlyItsText | config/filter.go:17-39 | Non-regex text unmarshals without error, and the filter then matches exactly that text. |
| Filters.RegexFilterMatchesByPattern | config/filter.go:17-39 | Text `/p/` with a valid non-empty pattern `p` matches exactly what `p` matches, whatever filter it was decoded into. |
| Filters.SlashesAloneAreExact | config/filter.go:34 | `"/"` and `"//"` stay exact filters. |
| Config.IncludeFile | config/config.go:46-53 | A file is included iff no file filter matches its name; with no file filters it always is. |
| Config.ExportAs | config/config.go:58-87 | A missing, empty or unexported name gives `("", false)`. A set kind flag gives `(name, false)`. So does a matching name filter. Otherwise the result is accepted, under the renamed name if the rename map has the name and the original name if not. Acceptance holds iff the kind flag is clear and no name filter matches. |
| Config.RejectionIgnoresRenames | config/config.go:65-77 | A rejected name is rejected with the same result under any rename map. |
| Config.MergeExclusion | config/config.go:111-116 | Each kind flag is the entry's OR the common one. Name and file filters are the entry's followed by the common ones, with nothing removed. |
| Config.MergeSettings | config/config.go:110-120 | The merged exclusion, and the common output when the entry's is empty; import and renames untouched. |
| Config.MergedNameFiltersAreUnion | config/config.go:115 | A name matches the merged name filters iff it matches the entry's or the common ones. |
| Config.MergedIncludeFile | config/config.go:116 | A file is included after the merge iff both the entry and the common settings include it. |
| Config.MergedAcceptanceIsIntersection | config/config.go:111-115 | After the merge, `ExportAs` accepts a name of a kind iff both the entry and the common settings accept it. |
| Config.CopyRenames | config/config.go:123 | `maps.Copy` as written: it fails iff the entry's map is nil and the common map is non-empty. Otherwise the keys are the union, common values win, and entry-only keys keep their values. |
| Config.CommonRenameWins | config/config.go:123 | After a successful merge, a name the common map renames is renamed as the common map says. |
| Config.MergeRenames | config/config.go:123 | The intended merge: every name is renamed as the common map says when it has the name, else as the entry's map says. |
| Config.CopyRenamesIsIntendedMerge | config/config.go:123 | Wherever `maps.Copy` succeeds, it gives the intended merge. |
| Config.NilRenameMapPanics | config/config.go:123 | An entry without renames and a common rename `MyVar → ExportedVar` panics as written; the intended merge renames `MyVar`. |
| Config.Config.constructor | config/config.go:21-24 | A configuration holds the common entry and the given entries in order. |
| Config.Config.ApplyDefaults | config/config.go:103-124 | An empty common output becomes `exported.go`. Without failure, every entry is replaced by its merge with the common settings. At the first entry whose rename copy panics, the earlier entries are merged, that entry is merged except for its renames, and the later ones are unchanged. |
| Comments.ParseComment | exporter/exports/comments.go:14-26 | An absent or empty line comment gives `""`; otherwise its trimmed text. An absent or empty doc group gives no lines; otherwise at least one line, none holding a line break, and joining them with `\n` gives back the trimmed doc text. |
| Comments.PartsAreIndependent | exporter/exports/comments.go:14-26 | The doc lines do not depend on the line comment, and the line does not depend on the doc group. |
| Comments.DocLinesRoundTrip | exporter/exports/comments.go:21-23 | The doc lines are the trimmed text split at `\n`, one more than its line breaks. |
| Comments.TrimmedParts | exporter/exports/comments.go:17-23 | Trimming removes only white space: the line comment, and the doc lines joined again, are each the slice of the group's text after its leading white space, with only white space after it. |
| Parameters.Parameter.Variable | exporter/exports/parameter.go:17-22 | The call form is exactly the name, followed by `...` when the parameter is variadic and by nothing otherwise. |
| Parameters.Parameter.Parameter | exporter/exports/parameter.go:25-36 | The declaration form is the name and a space when named, `...` when variadic, then the type, and nothing else. |
| Parameters.Parameter.String | exporter/exports/parameter.go:39-41 | The text of a parameter has exactly the declaration form's shape. |
| Parameters.FieldNames | exporter/exports/parameter.go:84-89 | A field always declares at least one name. |
| Parameters.FieldExpansion | exporter/exports/parameter.go:83-100 | An unnamed field gives one parameter with an empty name. A field with k names gives k parameters in name order, all with the same type and variadic flag. |
| Parameters.ParameterFromField | exporter/exports/parameter.go:83-100 | The loop that fills the parameter slice gives exactly `FieldParameters`. |
| Parameters.ParameterRoundTrip | exporter/exports/parameter.go:94 | Variadic iff the type text starts with `...`; marker plus type rebuilds the text; the signature form rebuilds `name type-text`, or the bare text when unnamed. |
| Parameters.CallAndSignatureForms | exporter/exports/parameter.go:17-36 | A named variadic parameter is declared `name ...type` and passed as `name...`; any other named one is declared `name type` and passed as `name`. |
| Parameters.AppendFields | exporter/exports/parameter.go:59-77 | Appending each field's expansion in a loop gives the old list followed by the expansions in field order. |
| Parameters.ParseFunctionSignature | exporter/exports/parameter.go:51-80 | The signature equals `SignatureOf`: each list is the concatenation of its fields' expansions, or empty when the field list is absent. |
| Parameters.SumSignature | exporter/exports/parameter.go:51-80 | `Sum[T int \| float64](a, b T) (r T)` gives `[T]`, `[a T, b T]`, `[r T]`. |
| Parameters.SumAllSignature | exporter/exports/parameter.go:51-80 | `SumAll[T int \| float64](values ...T) T` gives a variadic `values` and one unnamed result. |
| ExportRegistry.Exports.New | exporter/exports/exports.go:20-30 | The registry of `pkg` with all five lists and the import set empty. |
| ExportRegistry.Exports.AddImport | exporter/exports/exports.go:33-38 | The path is appended iff it is new and added to the set. No other field changes, and the registry stays consistent. |
| ExportRegistry.WithImportFirstSeen | exporter/exports/exports.go:33-38 | The import list stays free of duplicates, keeps its old list as a prefix, gains exactly the path as an element, and grows iff the path was new. |
| ExportRegistry.WithImportIdempotent | exporter/exports/exports.go:33-38 | Adding the same path twice is adding it once. |
| ExportRegistry.Exports.AddType | exporter/exports/exports.go:41-48 | Only the type list changes: the sorted insertion of the new record. |
| ExportRegistry.Exports.AddVariable | exporter/exports/exports.go:51-58 | Only the variable list changes: the sorted insertion of the new record. |
| ExportRegistry.Exports.AddConstant | exporter/exports/exports.go:61-68 | Only the constant list changes: the sorted insertion of the new record. |
| ExportRegistry.Exports.AddFunction | exporter/exports/exports.go:71-81 | Only the function list changes: the new record is appended at the end. |
| ExportRegistry.LowerBound | exporter/exports/exports.go:85-87 | The insert position: every earlier name compares below the new one, and the name at the position does not. |
| ExportRegistry.LowerBoundUnique | exporter/exports/exports.go:85-87 | Any position with that property is the lower bound. |
| ExportRegistry.BinarySearch | exporter/exports/exports.go:85-87 | On a sorted list the search returns the lower bound, and reports found iff the name there equals the target's. |
| ExportRegistry.InsertSortedExport | exporter/exports/exports.go:84-89 | The result is the record inserted at the lower bound. |
| ExportRegistry.SortedInsertKeepsOrder | exporter/exports/exports.go:84-89 | A list sorted by export name under `strings.Compare` stays sorted. |
| ExportRegistry.SortedInsertAddsExactlyOne | exporter/exports/exports.go:84-89 | One element more, the same multiset plus the new record, the record at the insert position, and the old list once it is removed. |
| ExportRegistry.NewestFirstAmongEqualNames | exporter/exports/exports.go:85-88 | The new record goes before every record of the same export name, and those records are kept. |
| ExportRegistry.StepKeepsConsistent | exporter/exports/exports.go:33-81 | Every registry call keeps the imports duplicate-free and the three symbol lists sorted. |
| ExportRegistry.RunKeepsConsistent | exporter/exports/exports.go:33-81 | Any sequence of registry calls keeps the registry consistent. |
| ExportRegistry.FunctionsInCallOrder | exporter/exports/exports.go:71-81 | The function list is the old one followed by the added functions in call order. |
| Exporter.ResolveImportCases | exporter/exporter.go:61-63 | An import starting with `./` becomes the package name joined with the rest; any other import is unchanged. |
| Exporter.ResolveRelativeImport | exporter/exporter.go:61-63 | For plain paths, `./sub` becomes `pkgName/sub`. |
| Exporter.ProcessExportSpec | exporter/exporter.go:59-83 | The entry's own import is always the first record. A loader error ends the entry with that error, and package errors end it with `ErrLoadingPackages`; in both cases nothing else is recorded. An entry succeeds iff the loader succeeds without package errors. |
| Exporter.DependencyImportsHaveDots | exporter/exporter.go:88-94 | Only dependency IDs with a dot are registered, and all of them are. |
| Exporter.PackageRecordsShape | exporter/exporter.go:86-101 | A package gives its dotted dependency imports first. All its other records are symbols carrying the last segment of the package ID. |
| Exporter.SymbolRecordsOfFiles | exporter/exporter.go:97-101 | Walking files records only symbols, all of the given package. |
| Exporter.SymbolRecordsOfDecls | exporter/exporter.go:108-151 | Walking declarations records only symbols, all of the given package. |
| Exporter.SymbolRecordsOfSpecs | exporter/exporter.go:120-142 | A general declaration records only symbols, all of the given package. |
| Exporter.NameRecordsAreSymbols | exporter/exporter.go:128-140 | A value spec records only symbols, all of the given package. |
| Exporter.FileStemOfPath | exporter/exporter.go:112-113 | The name the file filters see for a file at `dir/stem.go` is `stem`, for any `stem` without a separator. |
| Exporter.ExcludedFileRecordsNothing | exporter/exporter.go:112-117 | No declaration of a file matched by a file filter is recorded. |
| Exporter.RejectedDeclsRecordNothing | exporter/exporter.go:108-117 | No declaration of a rejected file is recorded. |
| Exporter.ValueSpecRecordsAccepted | exporter/exporter.go:127-140 | Each record of a value spec is a constant under `const` and a variable otherwise. It is for one of the spec's names that `ExportAs` accepts under the matching kind, with that export name, the declaration's doc, the spec's line comment and the package. |
| Exporter.AcceptedValueNamesRecorded | exporter/exporter.go:127-140 | Every name of a value spec that `ExportAs` accepts is recorded. |
| Exporter.NameRecord | exporter/exporter.go:129-139 | A name gives one record iff `ExportAs` accepts it under the token's kind, else none. The record is a constant under `const` and a variable otherwise, with the export name, the declaration's doc, the spec's line comment and the package. |
| Exporter.SpecRecords | exporter/exporter.go:122-141 | An import spec gives nothing. A type spec gives at most one record, and one iff `ExportAs` accepts its name as a type. A value spec gives at most one record per name. |
| Exporter.TypeSpecRecorded | exporter/exporter.go:123-126 | An accepted type spec gives exactly the type record with the export name, the declaration's doc, the spec's line comment and the package; a rejected one gives nothing. |
| Exporter.DeclRecords | exporter/exporter.go:119-149 | A function with a receiver gives nothing, and so does a declaration of another kind. A function without a receiver is recorded iff `ExportAs` accepts it. The record has the export name, the doc comment, no line comment, and the signature of its type. |
| Exporter.CollectAll | exporter/exporter.go:37-41 | The collection ends without error iff every entry is processed without error. |
| Exporter.CollectStopsAtFirstFailure | exporter/exporter.go:37-41 | Once an entry fails, later entries change neither the records nor the error. |
| Exporter.CollectAppend | exporter/exporter.go:37-41 | While no entry has failed, one more entry appends its records and sets the error to its own. |
| Exporter.RegistryNamedAfterPackage | exporter/exporter.go:34 | The registry is named after the last path segment of the package name and stays consistent whatever is recorded. |
| Exporter.GenerateSpec | exporter/exporter.go:33-56 | A collection failure is the result. Otherwise a render failure is the result. Otherwise the result is the formatted code, or a formatting error that holds the formatter's error and the rendered code. |
| Exporter.Exporter.New | exporter/exporter.go:28-30 | An exporter with the given entries, directory and package name, and no registry yet. |
| Exporter.Exporter.Generate | exporter/exporter.go:33-56 | A fresh, consistent registry is built from the collected records. The code and error are those of `GenerateSpec`: `""` and the error on failure, the formatted code and no error on success. The configuration fields are unchanged. |
| Exporter.Exporter.CollectExports | exporter/exporter.go:37-41 | The loop over the entries builds the records of `CollectAll` and stops with its error. |
| Exporter.Exporter.ProcessExport | exporter/exporter.go:59-105 | One entry registers exactly the records of `ProcessExportSpec` and returns its error. |
| Exporter.Exporter.InspectPackages | exporter/exporter.go:86-102 | The package loop registers each package's records in order. |
| Exporter.Exporter.InspectPackage | exporter/exporter.go:87-101 | A package registers its dependency imports, then its files' symbols. |
| Exporter.Exporter.AddDependencyImports | exporter/exporter.go:88-94 | The import loop registers exactly `DependencyImports`. |
| Exporter.Exporter.InspectFiles | exporter/exporter.go:97-101 | The file loop registers each file's records in order. |
| Exporter.Exporter.InspectFile | exporter/exporter.go:98-100 | `ast.Inspect` of a file registers each top-level declaration's records in order. |
| Exporter.Exporter.InspectDecl | exporter/exporter.go:108-151 | A declaration registers nothing in a rejected file, else its accepted symbols. The walk descends iff the file is rejected or the declaration is of another kind. |
| Exporter.Exporter.InspectSpecs | exporter/exporter.go:121-142 | The spec loop registers each spec's records in order. |
| Exporter.Exporter.InspectSpec | exporter/exporter.go:122-141 | An import spec registers nothing, a type spec its accepted type, and a value spec its accepted names. |
| Exporter.Exporter.InspectNames | exporter/exporter.go:128-140 | The name loop registers each accepted name in order. |
| Exporter.Exporter.InspectName | exporter/exporter.go:129-139 | An accepted name becomes a constant under `const` and a variable otherwise. |
| Template.Parenthesize | exporter/template.go:76-127 | The helper as written. Zero or more than three arguments give `""`. A false condition gives the content unchanged. Otherwise it fails iff the bracket string has fewer than two bytes. |
| Template.ParenthesizeRunes | exporter/template.go:76-127 | The intended helper. When wrapping, it wraps the content in the first two characters of the bracket string and fails when there are fewer than two. Otherwise it gives what the code gives. |
| Template.SingleArgument | exporter/template.go:81-126 | One argument is wrapped in `(` and `)`. |
| Template.TwoArguments | exporter/template.go:87-94 | With two arguments the condition always holds. A string first argument is the bracket string; anything else leaves `()`. |
| Template.FalseConditionKeepsContent | exporter/template.go:94-124 | A false middle argument of three gives the content unchanged. |
| Template.AsciiBracketsWrap | exporter/template.go:126 | ASCII brackets wrap the content in their first two characters, and there the code and the intended helper agree. |
| Template.ShortBracketsFail | exporter/template.go:126 | A bracket string of fewer than two ASCII characters fails once wrapping is asked for. |
| Template.NonAsciiBracketsMisencoded | exporter/template.go:126 | With `«»` the code wraps `x` in U+00C2 and U+00AB; the intended helper wraps it in `«` and `»`. |
| Format.ErrorText | exporter/format.go:18-25 | A formatting error's message is the header, the original error's text and a line break, followed directly by the listing of the code's lines, with nothing in between. `ErrLoadingPackages` reads "failed to load packages", and a collaborator's error and a run-time panic are their own text. |
| Format.FormatterErrorText | exporter/format.go:18-25 | The builder loop writes exactly `ErrorText` of the formatting error: the header line, then the listing. |
| Format.Unwrap | exporter/format.go:28-30 | A formatting error unwraps to its original error; other errors wrap nothing. |
| Format.FormatCode | exporter/format.go:34-40 | It fails iff the formatter fails. On success it returns the formatter's output. On failure it returns a formatting error that holds the unchanged code and unwraps to the formatter's error. |
| Format.ListingLineLayout | exporter/format.go:22 | For numbers below 10000, a listing line is two spaces, the number right-aligned in four columns, `": "`, the line and `\n`. |
| Format.NumberedLines | exporter/format.go:21-23 | One numbered line per piece, numbered from 1. |
| Format.ListingIsJoin | exporter/format.go:21-23 | The listing is the numbered pieces, each followed by a line break. |
| Format.NumberedKeepsOneLine | exporter/format.go:22 | Numbering a piece adds no line break. |
| Format.ListingLines | exporter/format.go:21-23 | Splitting the listing at line breaks gives the numbered pieces of the code in order, then `""`. The listing has one line break more than the code. |
| Format.OneLineMessage | exporter/format.go:18-25 | The error `e` over the code `x` reads `Error formatting generated code: e`, then `     1: x`. |

## Left out

- `main.go` and `module/module.go` are not part of this model. They walk
  directories, search for `go.mod`, and read and write files.
- The YAML reading of `FromFile` (config/config.go:90-100) is left out. The
  model starts from an already decoded configuration.
- The regular expression engine, `packages.Load`, `packages.PrintErrors`,
  the template renderer (`renderTemplate`, the embedded template, sprig,
  `sync.OnceValue`) and `imports.Process` are parameters of the model, not
  models of those libraries.
- `templateMapProperty` is left out: it works by run-time reflection over
  arbitrary Go values.
- `go/ast` and `token.FileSet` are replaced by a list of files, each with its
  name and top-level declarations. `ast.Inspect` visits those declarations
  in order. It also visits nested nodes, and neither the code nor the model
  records anything for those, so the model does not walk them.
- `types.ExprString` is taken as the type text of a field, and
  `CommentGroup.Text()` as a comment group's text with its comment count.
- Config.ExportAs: `ast.Ident.IsExported` is approximated by an ASCII upper
  case first letter, as the Unicode letter tables are not modelled.
- Exporter.Exporter.ProcessExport: `pkg.Imports` is a Go map, so its order
  of iteration is unspecified. The model takes the imports in the order the
  loader gives them.
- Template.Parenthesize: `fmt.Sprintf("%v")` of a non-string value is given
  as the value's text, not computed. Slices, maps, arrays and other values
  are known only by their length or whether they are zero.
- Go strings that are not valid UTF-8 are not modelled: a string is a
  sequence of code points, encoded as UTF-8 when the code looks at bytes.
- `e.fset` in `Generate` is left out. It only maps positions to file names,
  and the model gives each declaration its file's name directly.

## Findings

| source | as written | input that shows it | evidently intended | confidence | as-written member | corrected member |
|---|---|---|---|---|---|---|
| config/config.go:123 | `maps.Copy(es.Rename, config.Common.Rename)` writes into the entry's map, which is nil when the entry has no `rename` block. | An entry without renames and a common `rename: {MyVar: ExportedVar}`: the write panics with "assignment to entry in nil map". | The common renames are merged into every entry, winning on shared keys. | not executed | Config.CopyRenames, Config.NilRenameMapPanics | Config.MergeRenames, Config.CopyRenamesIsIntendedMerge |
| exporter/template.go:126 | `string(parentheses[0]) + s + string(parentheses[1])` takes BYTES of the bracket string and turns each into a code point. | Brackets `«»` and content `x`: the byte values give U+00C2 and U+00AB, so the result is `Âx«`. | The first two characters wrap the content: `«x»`. | not executed | Template.Parenthesize, Template.NonAsciiBracketsMisencoded | Template.ParenthesizeRunes, Template.AsciiBracketsWrap |
