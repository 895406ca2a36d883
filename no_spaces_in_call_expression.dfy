/**
 * The rule `no-spaces-in-call-expression`: no white space between the left
 * side of a call or `new` expression and the parenthesis that opens its
 * arguments, unless a line break follows that white space.
 */
module NoSpacesInCallExpression {

  import opened Source
  import opened Whitespace

  datatype CallKind = CallExpression | NewExpression

  /** A call or `new` expression: its kind, the last token of its callee and the end of its range. */
  datatype CallNode = CallNode(kind: CallKind, calleeLastToken: nat, endOffset: nat)

  /** The report: located at the end of the token before the parenthesis, with a removal fix. */
  datatype SpaceReport = SpaceReport(loc: Position, exprTypeName: string, fix: Fix)

  /** The `exprTypeName` each listener passes. */
  function ExprTypeName(kind: CallKind): (r: string)
    ensures r == "call" <==> kind.CallExpression?
    ensures r == "new" <==> kind.NewExpression?
  {
    match kind
    case CallExpression => "call"
    case NewExpression => "new"
  }

  /** What the parser guarantees: the callee's last token is a token. */
  predicate ValidCall(src: SourceCode, node: CallNode)
  {
    node.calleeLastToken < |src.tokens| && !IsComment(src.tokens[node.calleeLastToken])
  }

  /**
   * Token `k` opens the arguments: it is the first `(` after the callee, it
   * ends inside the node, and so does every token between the two.
   */
  predicate IsInvokingParen(src: SourceCode, node: CallNode, k: nat)
  {
    && node.calleeLastToken < k < |src.tokens|
    && !IsComment(src.tokens[k]) && src.tokens[k].value == "(" && src.tokens[k].endOffset < node.endOffset
    && forall j :: node.calleeLastToken < j < k && !IsComment(src.tokens[j]) ==>
         src.tokens[j].value != "(" && src.tokens[j].endOffset < node.endOffset
  }

  /** There is at most one such parenthesis. */
  lemma InvokingParenIsUnique(src: SourceCode, node: CallNode, k1: nat, k2: nat)
    requires IsInvokingParen(src, node, k1) && IsInvokingParen(src, node, k2)
    ensures k1 == k2
  {
  }

  /** The report for the parenthesis `paren`, made from the gap after the token before it. */
  function CallReport(src: SourceCode, node: CallNode, paren: nat): Option<SpaceReport>
    requires ValidCall(src, node) && IsInvokingParen(src, node, paren)
  {
    var prev := PrevToken(src, paren);
    assert prev.Some?;
    var prevToken := src.tokens[prev.value];
    var fix := SeparatorRemoval(src.text, prevToken.endOffset, src.tokens[paren].startOffset);
    if fix.Some? then Some(SpaceReport(prevToken.end, ExprTypeName(node.kind), fix.value)) else None
  }

  /**
   * `checkSpacing`: walks the tokens after the callee to the parenthesis that
   * opens the arguments, giving up at the first token that reaches the end of
   * the node, and reports the white space before it.
   */
  method CheckSpacing(src: SourceCode, node: CallNode) returns (report: Option<SpaceReport>)
    requires ValidCall(src, node)
    ensures (forall k: nat :: !IsInvokingParen(src, node, k)) ==> report.None?
    ensures forall k: nat :: IsInvokingParen(src, node, k) ==> report == CallReport(src, node, k)
  {
    var prevToken := node.calleeLastToken;
    var parenToken := NextToken(src, prevToken);
    while true
      invariant node.calleeLastToken <= prevToken < |src.tokens| && !IsComment(src.tokens[prevToken])
      invariant parenToken == NextToken(src, prevToken)
      invariant forall j :: node.calleeLastToken < j <= prevToken && !IsComment(src.tokens[j]) ==>
                  src.tokens[j].value != "(" && src.tokens[j].endOffset < node.endOffset
      decreases |src.tokens| - prevToken
    {
      if !(parenToken.Some? && src.tokens[parenToken.value].endOffset < node.endOffset) {
        assert forall k: nat :: !IsInvokingParen(src, node, k);
        return None;
      }
      if src.tokens[parenToken.value].value == "(" {
        break;
      }
      prevToken := parenToken.value;
      parenToken := NextToken(src, parenToken.value);
    }
    var paren := parenToken.value;
    assert IsInvokingParen(src, node, paren);
    PrevOfNext(src, prevToken);
    forall k: nat | IsInvokingParen(src, node, k)
      ensures k == paren
    {
      InvokingParenIsUnique(src, node, k, paren);
    }
    var separatorStart := src.tokens[prevToken].endOffset;
    var separatorEnd := src.tokens[paren].startOffset;
    var separator := JsSlice(src.text, separatorStart, separatorEnd);
    var matched := SeparatorMatch(separator);
    if matched.Some? {
      var rangeToRemove := Fix(separatorStart, separatorStart + matched.value, "");
      report := Some(SpaceReport(src.tokens[prevToken].end, ExprTypeName(node.kind), rangeToRemove));
    } else {
      report := None;
    }
  }

  /**
   * For the parenthesis that opens the arguments: a report iff the gap before
   * it, up to its first line terminator, is non-empty white space; the fix
   * removes exactly that white space, after which the gap no longer matches; a
   * gap that starts with a line terminator is never reported; the report is
   * located at the end of the token before the parenthesis and names the
   * expression's kind.
   */
  lemma CallReportShape(src: SourceCode, node: CallNode, paren: nat)
    requires ValidCall(src, node) && IsInvokingParen(src, node, paren)
    ensures PrevToken(src, paren).Some?
    ensures var prev := src.tokens[PrevToken(src, paren).value];
      var start := prev.endOffset;
      var gap := JsSlice(src.text, start, src.tokens[paren].startOffset);
      var r := CallReport(src, node, paren);
      && (r.Some? <==> BlankFirstLine(gap))
      && (|gap| > 0 && IsLineTerminator(gap[0]) ==> r.None?)
      && (r.Some? ==>
            && r.value.fix == Fix(start, start + |FirstLine(gap)|, "")
            && SeparatorMatch(gap[|FirstLine(gap)|..]).None?
            && r.value.loc == prev.end
            && r.value.exprTypeName == (if node.kind.CallExpression? then "call" else "new"))
  {
    assert !IsComment(src.tokens[node.calleeLastToken]);
    var prev := src.tokens[PrevToken(src, paren).value];
    SeparatorRemovalShape(src.text, prev.endOffset, src.tokens[paren].startOffset);
  }

  /** `f.b \n ();` */
  function SpacedCallSource(): SourceCode
  {
    SourceCode(
      "f.b \n ();",
      ["f.b ", " ();"],
      [0, 5],
      [ Token(TokenType.Identifier, "f", Position(1, 0), Position(1, 1), 0, 1),
        Token(Punctuator, ".", Position(1, 1), Position(1, 2), 1, 2),
        Token(TokenType.Identifier, "b", Position(1, 2), Position(1, 3), 2, 3),
        Token(Punctuator, "(", Position(2, 1), Position(2, 2), 6, 7),
        Token(Punctuator, ")", Position(2, 2), Position(2, 3), 7, 8),
        Token(Punctuator, ";", Position(2, 3), Position(2, 4), 8, 9) ],
      _ => NodeInfo(OtherNode, 0))
  }

  /** The space before the line break is removed and the line break stays: `f.b\n ();`. */
  lemma SpacedCallLosesOnlyTheSpace()
    ensures var src := SpacedCallSource();
      var node := CallNode(CallExpression, 2, 8);
      && IsInvokingParen(src, node, 3)
      && CallReport(src, node, 3) == Some(SpaceReport(Position(1, 3), "call", Fix(3, 4, "")))
      && ApplyFix(src.text, Fix(3, 4, "")) == "f.b\n ();"
  {
    var src := SpacedCallSource();
    var node := CallNode(CallExpression, 2, 8);
    assert PrevToken(src, 3) == Some(2);
    var gap := JsSlice(src.text, 3, 6);
    assert gap == " \n ";
    assert BlankRun(gap[1..]) == 0;
    assert BlankRun(gap) == 1;
    assert src.text[..3] + src.text[4..] == "f.b\n ();";
  }
}
