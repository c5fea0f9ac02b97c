/**
 * Documentation and line comments of a symbol (exporter/exports/comments.go).
 */
module Comments {
  import opened Wrappers
  import opened GoStrings

  /**
   * An `*ast.CommentGroup`: how many comments its list holds, and the text
   * `CommentGroup.Text()` gives for it (taken as an input).
   */
  datatype CommentGroup = CommentGroup(Size: nat, Text: string)

  /** A nil `Doc` slice is the empty sequence; a parsed `Doc` is never empty. */
  datatype Comment = Comment(Doc: seq<string>, Line: string)

  /** A comment group that is present and holds at least one comment. */
  predicate Present(g: Option<CommentGroup>) {
    g.Some? && g.value.Size > 0
  }

  /**
   * `ParseComment`: the trimmed line comment, and the trimmed documentation
   * cut into lines. Either part is left empty when its group is nil or holds
   * no comment.
   */
  function ParseComment(doc: Option<CommentGroup>, lineComment: Option<CommentGroup>): (c: Comment)
    ensures !Present(lineComment) ==> c.Line == ""
    ensures Present(lineComment) ==> c.Line == TrimSpace(lineComment.value.Text)
    ensures !Present(doc) ==> c.Doc == []
    ensures Present(doc) ==>
      && |c.Doc| >= 1
      && (forall i :: 0 <= i < |c.Doc| ==> '\n' !in c.Doc[i])
      && Join(c.Doc, '\n') == TrimSpace(doc.value.Text)
  {
    var line := if Present(lineComment) then TrimSpace(lineComment.value.Text) else "";
    if Present(doc) then
      var text := TrimSpace(doc.value.Text);
      JoinSplit(text, '\n');
      SplitPiecesLackSeparator(text, '\n');
      Comment(Split(text, '\n'), line)
    else
      Comment([], line)
  }

  /** The documentation and the line comment are parsed independently of each other. */
  lemma PartsAreIndependent(doc: Option<CommentGroup>, doc': Option<CommentGroup>,
                            line: Option<CommentGroup>, line': Option<CommentGroup>)
    ensures ParseComment(doc, line).Doc == ParseComment(doc, line').Doc
    ensures ParseComment(doc, line).Line == ParseComment(doc', line).Line
  {
  }

  /**
   * Trimming removes nothing but white space: the line comment, and the
   * documentation lines joined again, are each the slice of their group's
   * text that starts after its leading white space, with only white space
   * after it.
   */
  lemma TrimmedParts(doc: Option<CommentGroup>, line: Option<CommentGroup>)
    ensures Present(line) ==> TrimmedOf(line.value.Text, ParseComment(doc, line).Line)
    ensures Present(doc) ==> TrimmedOf(doc.value.Text, Join(ParseComment(doc, line).Doc, '\n'))
  {
    var c := ParseComment(doc, line);
    if Present(line) {
      TrimSpaceIsSlice(line.value.Text);
      assert c.Line == TrimSpace(line.value.Text);
    }
    if Present(doc) {
      TrimSpaceIsSlice(doc.value.Text);
      assert Join(c.Doc, '\n') == TrimSpace(doc.value.Text);
    }
  }

  /** Documentation lines split back into the trimmed text, and only at its line breaks. */
  lemma DocLinesRoundTrip(doc: CommentGroup, line: Option<CommentGroup>)
    requires doc.Size > 0
    ensures ParseComment(Some(doc), line).Doc == Split(TrimSpace(doc.Text), '\n')
    ensures |ParseComment(Some(doc), line).Doc| == Count(TrimSpace(doc.Text), '\n') + 1
  {
    SplitLength(TrimSpace(doc.Text), '\n');
  }
}
