/**
 * Formatting of the generated code and the error a failed formatting gives
 * (exporter/format.go). The formatter itself (`imports.Process`) is a
 * parameter that may fail.
 */
module Format {
  import opened Wrappers
  import opened GoStrings
  import opened Errors

  const FormattingHeader := "Error formatting generated code: "

  /**
   * The message of an error, as its `Error()` method gives it. A formatting
   * error's message is a header line naming the formatter's own message,
   * followed by the listing of the unformatted code.
   */
  function ErrorText(e: Error): (r: string)
    ensures e.Message? ==> r == e.text
    ensures e.LoadingPackages? ==> r == "failed to load packages"
    ensures e.Formatting? ==> HasPrefix(r, FormattingHeader + ErrorText(e.OrigErr) + "\n")
    ensures e.Formatting? ==> HasSuffix(r, Listing(Split(e.Code, '\n')))
    ensures e.Formatting? ==> |r| == |FormattingHeader + ErrorText(e.OrigErr) + "\n"| + |Listing(Split(e.Code, '\n'))|
    ensures e.Panic? ==> r == e.reason
  {
    match e
    case Message(text) => text
    case LoadingPackages => "failed to load packages"
    case Formatting(orig, code) => FormattingHeader + ErrorText(orig) + "\n" + Listing(Split(code, '\n'))
    case Panic(reason) => reason
  }

  /** A listing line without its final line break. */
  function Numbered(n: nat, line: string): string {
    "  " + PadLeft(Decimal(n), 4) + ": " + line
  }

  /** `fmt.Sprintf("  %4d: %s\n", n, line)`. */
  function ListingLine(n: nat, line: string): string {
    Numbered(n, line) + "\n"
  }

  /** The lines numbered from 1, each as `ListingLine` writes it. */
  function Listing(lines: seq<string>): string {
    if lines == [] then "" else Listing(lines[..|lines| - 1]) + ListingLine(|lines|, lines[|lines| - 1])
  }

  /** `(*FormatterError).Error()`: the header, then the code's lines numbered from 1. */
  method FormatterErrorText(origErr: Error, code: string) returns (text: string)
    ensures text == ErrorText(Formatting(origErr, code))
  {
    var header := FormattingHeader + ErrorText(origErr) + "\n";
    var lines := Split(code, '\n');
    var written := "";
    for n := 0 to |lines|
      invariant written == Listing(lines[..n])
    {
      var line := ListingLine(n + 1, lines[n]);
      assert lines[..n + 1][..n] == lines[..n];
      written := written + line;
    }
    assert lines[..|lines|] == lines;
    text := header + written;
  }

  /** `(*FormatterError).Unwrap()`: the formatter's own error; other errors wrap nothing. */
  function Unwrap(e: Error): (r: Option<Error>)
    ensures r.Some? <==> e.Formatting?
    ensures e.Formatting? ==> r == Some(e.OrigErr)
  {
    if e.Formatting? then Some(e.OrigErr) else None
  }

  /**
   * `formatCode`: the formatted code, or a formatting error that holds the
   * formatter's error and the unformatted code unchanged.
   */
  function FormatCode(code: string, formatter: string -> Result<string, Error>): (r: Result<string, Error>)
    ensures r.Failure? <==> formatter(code).Failure?
    ensures r.Success? ==> r.value == formatter(code).value
    ensures r.Failure? ==> r.error.Formatting? && r.error.Code == code && Unwrap(r.error) == Some(formatter(code).error)
  {
    match formatter(code)
    case Success(formatted) => Success(formatted)
    case Failure(err) => Failure(Formatting(err, code))
  }

  // ---------------------------------------------------------------------
  // Properties of the message.

  /** A number below 10000 takes exactly four columns, so every line's text starts in column 9. */
  lemma ListingLineLayout(n: nat, line: string)
    requires n < 10000
    ensures |ListingLine(n, line)| == |line| + 9
    ensures ListingLine(n, line)[8..8 + |line|] == line
    ensures ListingLine(n, line)[..8] == "  " + PadLeft(Decimal(n), 4) + ": "
    ensures ListingLine(n, line)[|line| + 8] == '\n'
  {
  }

  /** `Join` of a list with one more element at the end. */
  lemma {:induction false} JoinSnoc(parts: seq<string>, x: string, sep: char)
    requires |parts| >= 1
    ensures Join(parts + [x], sep) == Join(parts, sep) + [sep] + x
    decreases |parts|
  {
    if |parts| == 1 {
      assert (parts + [x])[1..] == [x];
    } else {
      assert (parts + [x])[1..] == parts[1..] + [x];
      JoinSnoc(parts[1..], x, sep);
    }
  }

  /** The listing's lines, without line breaks. */
  function NumberedLines(lines: seq<string>): (r: seq<string>)
    ensures |r| == |lines|
    ensures forall i :: 0 <= i < |lines| ==> r[i] == Numbered(i + 1, lines[i])
  {
    seq(|lines|, i requires 0 <= i < |lines| => Numbered(i + 1, lines[i]))
  }

  /** The listing is its numbered lines, each followed by a line break. */
  lemma {:induction false} ListingIsJoin(lines: seq<string>)
    ensures Listing(lines) == Join(NumberedLines(lines) + [""], '\n')
  {
    if lines != [] {
      var init := lines[..|lines| - 1];
      var last := Numbered(|lines|, lines[|lines| - 1]);
      assert NumberedLines(lines) == NumberedLines(init) + [last];
      assert Listing(lines) == Listing(init) + (last + "\n");
      ListingIsJoin(init);
      JoinTerminatedSnoc(NumberedLines(init), last, '\n');
    }
  }

  /** Adding a line to the front of the empty last piece of a joined text. */
  lemma JoinTerminatedSnoc(parts: seq<string>, x: string, sep: char)
    ensures Join(parts + [""], sep) + (x + [sep]) == Join(parts + [x] + [""], sep)
  {
    if parts == [] {
      assert parts + [x] + [""] == [x, ""];
    } else {
      JoinSnoc(parts, "", sep);
      JoinSnoc(parts, x, sep);
      JoinSnoc(parts + [x], "", sep);
    }
  }

  /** A piece without a line break stays without one once numbered. */
  lemma NumberedKeepsOneLine(n: nat, line: string)
    requires '\n' !in line
    ensures '\n' !in Numbered(n, line)
  {
    var d := PadLeft(Decimal(n), 4);
    PadLeftShape(Decimal(n), 4);
    assert '\n' !in d by {
      forall j | 0 <= j < |d| ensures d[j] != '\n' {
        if j >= |d| - |Decimal(n)| {
          assert d[j] == Decimal(n)[j - (|d| - |Decimal(n)|)];
        }
      }
    }
    assert Numbered(n, line) == "  " + d + ": " + line;
  }

  /**
   * Every piece of the code gets its own line of the listing, in order and
   * numbered from 1: cutting the listing at its line breaks gives the
   * numbered pieces and the empty text after the final line break. In
   * particular the listing has one line per line break of the code, plus one.
   */
  lemma ListingLines(code: string)
    ensures var pieces := Split(code, '\n');
      && Split(Listing(pieces), '\n') == NumberedLines(pieces) + [""]
      && Count(Listing(pieces), '\n') == Count(code, '\n') + 1
  {
    var pieces := Split(code, '\n');
    var parts := NumberedLines(pieces) + [""];
    ListingIsJoin(pieces);
    SplitPiecesLackSeparator(code, '\n');
    forall i | 0 <= i < |parts| ensures '\n' !in parts[i] {
      if i < |pieces| {
        NumberedKeepsOneLine(i + 1, pieces[i]);
      }
    }
    SplitJoin(parts, '\n');
    SplitLength(Listing(pieces), '\n');
    SplitLength(code, '\n');
  }

  /** The one-line code `x` failing with the error `e`: the header with `e`, then `x` as line 1. */
  lemma OneLineMessage()
    ensures ErrorText(Formatting(Message("e"), "x"))
      == FormattingHeader + "e\n" + "     1: x\n"
  {
    SplitWithoutSeparator("x", '\n');
    assert ["x"][..0] == [];
    assert Decimal(1) == "1";
  }
}
