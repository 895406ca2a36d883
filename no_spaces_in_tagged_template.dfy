/**
 * The rule `no-spaces-in-tagged-template`: no white space between the tag of
 * a tagged template and the template, unless a line break follows that white
 * space.
 */
module NoSpacesInTaggedTemplate {

  import opened Source
  import opened Whitespace

  /**
   * A template literal that is the `quasi` of a tagged template: the index of
   * its first token and an identifier of the tagged template around it.
   */
  datatype Quasi = Quasi(firstToken: nat, parent: nat)

  /** The report: on the tagged template, at the end of the token before the template. */
  datatype TemplateReport = TemplateReport(node: nat, loc: Position, fix: Fix)

  /**
   * `checkSpacing`: the removal of the white space between the token before
   * the template and the template. A template with no token before it (the
   * source would fail on it; a quasi always follows its tag) gets no report.
   */
  function CheckSpacing(src: SourceCode, quasi: Quasi): Option<TemplateReport>
    requires quasi.firstToken < |src.tokens|
  {
    var prev := PrevToken(src, quasi.firstToken);
    if prev.None? then None
    else
      var prevToken := src.tokens[prev.value];
      var fix := SeparatorRemoval(src.text, prevToken.endOffset, src.tokens[quasi.firstToken].startOffset);
      if fix.Some? then Some(TemplateReport(quasi.parent, prevToken.end, fix.value)) else None
  }

  /**
   * A report iff the gap between the token before the template and the
   * template, up to its first line terminator, is non-empty white space; the
   * fix removes exactly that white space, after which the gap no longer
   * matches; a gap that starts with a line terminator is never reported; the
   * report is on the tagged template, located at the end of the token before.
   */
  lemma CheckSpacingShape(src: SourceCode, quasi: Quasi)
    requires quasi.firstToken < |src.tokens|
    ensures PrevToken(src, quasi.firstToken).None? ==> CheckSpacing(src, quasi).None?
    ensures PrevToken(src, quasi.firstToken).Some? ==>
      var prev := src.tokens[PrevToken(src, quasi.firstToken).value];
      var start := prev.endOffset;
      var gap := JsSlice(src.text, start, src.tokens[quasi.firstToken].startOffset);
      var r := CheckSpacing(src, quasi);
      && (r.Some? <==> BlankFirstLine(gap))
      && (|gap| > 0 && IsLineTerminator(gap[0]) ==> r.None?)
      && (r.Some? ==>
            && r.value.fix == Fix(start, start + |FirstLine(gap)|, "")
            && SeparatorMatch(gap[|FirstLine(gap)|..]).None?
            && r.value.node == quasi.parent
            && r.value.loc == prev.end)
  {
    if PrevToken(src, quasi.firstToken).Some? {
      var prev := src.tokens[PrevToken(src, quasi.firstToken).value];
      SeparatorRemovalShape(src.text, prev.endOffset, src.tokens[quasi.firstToken].startOffset);
    }
  }

  /** `f.b \n ``;` */
  function SpacedTagSource(): SourceCode
  {
    SourceCode(
      "f.b \n ``;",
      ["f.b ", " ``;"],
      [0, 5],
      [ Token(TokenType.Identifier, "f", Position(1, 0), Position(1, 1), 0, 1),
        Token(Punctuator, ".", Position(1, 1), Position(1, 2), 1, 2),
        Token(TokenType.Identifier, "b", Position(1, 2), Position(1, 3), 2, 3),
        Token(Template, "``", Position(2, 1), Position(2, 3), 6, 8),
        Token(Punctuator, ";", Position(2, 3), Position(2, 4), 8, 9) ],
      _ => NodeInfo(OtherNode, 0))
  }

  /** The space before the line break is removed and the line break stays: `f.b\n ``;`. */
  lemma SpacedTagLosesOnlyTheSpace()
    ensures var src := SpacedTagSource();
      && CheckSpacing(src, Quasi(3, 0)) == Some(TemplateReport(0, Position(1, 3), Fix(3, 4, "")))
      && ApplyFix(src.text, Fix(3, 4, "")) == "f.b\n ``;"
  {
    var src := SpacedTagSource();
    assert PrevToken(src, 3) == Some(2);
    var gap := JsSlice(src.text, 3, 6);
    assert gap == " \n ";
    assert BlankRun(gap[1..]) == 0;
    assert BlankRun(gap) == 1;
    assert src.text[..3] + src.text[4..] == "f.b\n ``;";
  }
}
