/**
 * The rule `no-leading-binary-operator`: an operator that starts a line must
 * not be followed by its right operand on that line; the fix moves the
 * operand to a new line with the operator line's indentation.
 */
module NoLeadingBinaryOperator {

  import opened Source
  import opened Utils

  /** The right operand: its first token, and the node the report goes to (its parent). */
  datatype RightNode = RightNode(firstToken: nat, parent: nat)

  /** The report: on the operand's parent, at the operator's `loc`, with the fix when there is one. */
  datatype OperatorReport = OperatorReport(node: nat, start: Position, end: Position, operator: string, fix: Option<Fix>)

  /** Every token lies on lines that exist and its offsets agree with its positions. */
  predicate TokensOnLines(src: SourceCode)
  {
    forall i :: 0 <= i < |src.tokens| ==> TokenWellFormed(src, src.tokens[i])
  }

  /** The filter `token => token.value === operator`. */
  function IsOperator(operator: string): Token -> bool
  {
    (t: Token) => t.value == operator
  }

  /** What the parser guarantees: the operand's first token is a token. */
  predicate ValidRight(src: SourceCode, right: RightNode)
  {
    right.firstToken < |src.tokens| && !IsComment(src.tokens[right.firstToken])
  }

  /**
   * `getFix(operatorToken, tokenBefore, tokenAfter)`: no fix when a comment
   * sits next to the operator on its line; otherwise the text between the
   * operator and the token after it becomes a line break followed by the
   * operator line's text up to the operator.
   */
  function GetFix(src: SourceCode, op: nat, before: nat, after: nat): Option<Fix>
    requires before < op < after < |src.tokens| && TokenWellFormed(src, src.tokens[op])
  {
    var operatorToken := src.tokens[op];
    var tokenOrCommentBefore := PrevTokenOrComment(src, op).value;
    if tokenOrCommentBefore != before && IsTokenOnSameLine(src.tokens[tokenOrCommentBefore], operatorToken) then None
    else
      var tokenOrCommentAfter := NextTokenOrComment(src, op).value;
      if tokenOrCommentAfter != after && IsTokenOnSameLine(operatorToken, src.tokens[tokenOrCommentAfter]) then None
      else Some(LineBreakFix(src, op, after))
  }

  /** The replacement of the text between `op` and `after` by a line break and `op`'s line up to `op`. */
  function LineBreakFix(src: SourceCode, op: nat, after: nat): Fix
    requires op < after < |src.tokens| && TokenWellFormed(src, src.tokens[op])
  {
    var operatorToken := src.tokens[op];
    var lineStart := IndexFromLoc(src, operatorToken.start.line, 0);
    var replacement := "\n" + JsSlice(src.text, lineStart, operatorToken.startOffset);
    Fix(operatorToken.endOffset, src.tokens[after].startOffset, replacement)
  }

  /** `validateNode(rightNode, operator)` */
  function ValidateNode(src: SourceCode, rightNode: RightNode, operator: string): Option<OperatorReport>
    requires ValidRight(src, rightNode) && TokensOnLines(src)
  {
    var operatorToken := PrevTokenWhere(src, rightNode.firstToken, IsOperator(operator));
    if operatorToken.None? then None
    else
      var op := operatorToken.value;
      var leftToken := PrevToken(src, op);
      if leftToken.None? || IsTokenOnSameLine(src.tokens[leftToken.value], src.tokens[op]) then None
      else
        var rightToken := NextToken(src, op);
        if rightToken.None? || !IsTokenOnSameLine(src.tokens[op], src.tokens[rightToken.value]) then None
        else
          var fix := GetFix(src, op, leftToken.value, rightToken.value);
          Some(OperatorReport(rightNode.parent, src.tokens[op].start, src.tokens[op].end, operator, fix))
  }

  /**
   * With `op` the nearest token before the operand whose value is the
   * operator: a report iff the token before `op` ends on an earlier line and
   * the token after `op` starts on `op`'s line; it names the operator, sits at
   * `op` and goes to the operand's parent.
   */
  lemma ValidateNodeShape(src: SourceCode, rightNode: RightNode, operator: string)
    requires ValidRight(src, rightNode) && TokensOnLines(src)
    ensures var operatorToken := PrevTokenWhere(src, rightNode.firstToken, IsOperator(operator));
      var r := ValidateNode(src, rightNode, operator);
      && (operatorToken.None? ==> r.None?)
      && (operatorToken.Some? ==>
            var op := operatorToken.value;
            && src.tokens[op].value == operator
            && (r.Some? <==>
                  && PrevToken(src, op).Some? && NextToken(src, op).Some?
                  && src.tokens[PrevToken(src, op).value].end.line != src.tokens[op].start.line
                  && src.tokens[op].end.line == src.tokens[NextToken(src, op).value].start.line)
            && (r.Some? ==>
                  && r.value.node == rightNode.parent && r.value.operator == operator
                  && r.value.start == src.tokens[op].start && r.value.end == src.tokens[op].end
                  && r.value.fix == GetFix(src, op, PrevToken(src, op).value, NextToken(src, op).value)))
  {
  }

  lemma ReportNamesItsOperator(src: SourceCode, rightNode: RightNode, operator: string)
    requires ValidRight(src, rightNode) && TokensOnLines(src)
    ensures ValidateNode(src, rightNode, operator).Some? ==> ValidateNode(src, rightNode, operator).value.operator == operator
  {
  }

  /** The token `k` is a comment that shares a line with the operator `op`. */
  predicate CommentOnOperatorLine(src: SourceCode, op: nat, k: nat)
    requires op < |src.tokens| && k < |src.tokens|
  {
    IsComment(src.tokens[k])
    && (if k < op then IsTokenOnSameLine(src.tokens[k], src.tokens[op]) else IsTokenOnSameLine(src.tokens[op], src.tokens[k]))
  }

  /**
   * For the operator `op` between its neighbouring tokens: no fix iff a
   * comment right before or right after the operator shares its line;
   * otherwise the fix is the line-break fix.
   */
  lemma GetFixShape(src: SourceCode, op: nat)
    requires op < |src.tokens| && TokenWellFormed(src, src.tokens[op])
    requires PrevToken(src, op).Some? && NextToken(src, op).Some?
    ensures var before := PrevToken(src, op).value;
      var after := NextToken(src, op).value;
      var t := src.tokens[op];
      var r := GetFix(src, op, before, after);
      && (r.None? <==> CommentOnOperatorLine(src, op, op - 1) || CommentOnOperatorLine(src, op, op + 1))
      && (r.Some? ==> r.value == LineBreakFix(src, op, after))
  {
    var before := PrevToken(src, op).value;
    var after := NextToken(src, op).value;
    assert before == op - 1 <==> !IsComment(src.tokens[op - 1]);
    assert after == op + 1 <==> !IsComment(src.tokens[op + 1]);
  }

  /** Lines never go back from one token or comment to the next. */
  predicate LinesInOrder(src: SourceCode)
  {
    forall i :: 0 <= i < |src.tokens| - 1 ==> LineOrderedAt(src, i)
  }

  predicate LineOrderedAt(src: SourceCode, i: nat)
    requires i + 1 < |src.tokens|
  {
    src.tokens[i].end.line <= src.tokens[i + 1].start.line
  }

  lemma {:induction false} LinesMonotone(src: SourceCode, i: nat, j: nat)
    requires TokensOnLines(src) && LinesInOrder(src) && i < j < |src.tokens|
    ensures src.tokens[i].end.line <= src.tokens[j].start.line
    decreases j - i
  {
    assert LineOrderedAt(src, i);
    if i + 1 < j {
      LinesMonotone(src, i + 1, j);
      assert TokenWellFormed(src, src.tokens[i + 1]);
    }
  }

  /**
   * When there is a fix, no comment lies between the operator and the token
   * after it: the replaced text is only the space between two adjacent tokens.
   */
  lemma FixRemovesNoComment(src: SourceCode, op: nat)
    requires TokensOnLines(src) && LinesInOrder(src) && op < |src.tokens|
    requires PrevToken(src, op).Some? && NextToken(src, op).Some?
    requires IsTokenOnSameLine(src.tokens[op], src.tokens[NextToken(src, op).value])
    requires GetFix(src, op, PrevToken(src, op).value, NextToken(src, op).value).Some?
    ensures NextToken(src, op).value == op + 1
  {
    var after := NextToken(src, op).value;
    if after != op + 1 {
      GetFixShape(src, op);
      LinesMonotone(src, op, op + 1);
      LinesMonotone(src, op + 1, after);
      assert false;
    }
  }

  /** Offsets never go back from one token or comment to the next. */
  predicate OffsetsInOrder(src: SourceCode)
  {
    forall i :: 0 <= i < |src.tokens| - 1 ==> OffsetOrderedAt(src, i)
  }

  predicate OffsetOrderedAt(src: SourceCode, i: nat)
    requires i + 1 < |src.tokens|
  {
    src.tokens[i].endOffset <= src.tokens[i + 1].startOffset
  }

  lemma {:induction false} OffsetsMonotone(src: SourceCode, i: nat, j: nat)
    requires TokensOnLines(src) && OffsetsInOrder(src) && i < j < |src.tokens|
    ensures src.tokens[i].endOffset <= src.tokens[j].startOffset
    decreases j - i
  {
    assert OffsetOrderedAt(src, i);
    if i + 1 < j {
      OffsetsMonotone(src, i + 1, j);
      assert TokenWellFormed(src, src.tokens[i + 1]);
    }
  }

  /**
   * Applying the fix ends the operator's line right after the operator and
   * starts the operand on a new line that repeats the operator line's text up
   * to the operator (its indentation).
   */
  lemma FixBreaksAfterOperator(src: SourceCode, op: nat, after: nat)
    requires TokensOnLines(src) && OffsetsInOrder(src) && op < after < |src.tokens|
    ensures var t := src.tokens[op];
      var a := src.tokens[after];
      var f := LineBreakFix(src, op, after);
      var lineStart := src.lineStarts[t.start.line - 1];
      && lineStart <= t.startOffset < t.endOffset <= a.startOffset <= |src.text|
      && f.start <= f.end <= |src.text|
      && ApplyFix(src.text, f) ==
           src.text[..t.endOffset] + "\n" + src.text[lineStart..t.startOffset] + src.text[a.startOffset..]
  {
    var t := src.tokens[op];
    assert TokenWellFormed(src, t);
    assert TokenWellFormed(src, src.tokens[after]);
    TokenWithinText(src, t);
    TokenWithinText(src, src.tokens[after]);
    OffsetsMonotone(src, op, after);
    var lineStart := src.lineStarts[t.start.line - 1];
    var f := LineBreakFix(src, op, after);
    var indent := src.text[lineStart..t.startOffset];
    assert JsSlice(src.text, lineStart, t.startOffset) == indent;
    ApplyLineBreak(src.text, f, indent);
  }

  lemma ApplyLineBreak(text: string, f: Fix, indent: string)
    requires f.start <= f.end <= |text| && f.text == "\n" + indent
    ensures ApplyFix(text, f) == text[..f.start] + "\n" + indent + text[f.end..]
  {
    assert text[..f.start] + ("\n" + indent) + text[f.end..] == text[..f.start] + "\n" + indent + text[f.end..];
  }

  /**
   * `validateConditionalExpression(trueNode, falseNode)`: the `?` before the
   * consequent, then the `:` before the alternate.
   */
  function ValidateConditionalExpression(src: SourceCode, trueNode: RightNode, falseNode: RightNode): seq<OperatorReport>
    requires ValidRight(src, trueNode) && ValidRight(src, falseNode) && TokensOnLines(src)
  {
    ReportsInOrder(ValidateNode(src, trueNode, "?"), ValidateNode(src, falseNode, ":"))
  }

  /** The reports of two validations, the first one's before the second one's. */
  function ReportsInOrder(first: Option<OperatorReport>, second: Option<OperatorReport>): seq<OperatorReport>
  {
    (if first.Some? then [first.value] else []) + (if second.Some? then [second.value] else [])
  }

  /** Two reports on different operators keep their order and can be told apart by their operator. */
  lemma ReportsInOrderByOperator(first: Option<OperatorReport>, second: Option<OperatorReport>, a: string, b: string)
    requires a != b
    requires first.Some? ==> first.value.operator == a
    requires second.Some? ==> second.value.operator == b
    ensures var r := ReportsInOrder(first, second);
      && |r| <= 2
      && (forall k :: 0 <= k < |r| ==> r[k].operator == a || r[k].operator == b)
      && (|r| == 2 ==> r[0].operator == a && r[1].operator == b)
      && ((exists k :: 0 <= k < |r| && r[k].operator == a) <==> first.Some?)
      && ((exists k :: 0 <= k < |r| && r[k].operator == b) <==> second.Some?)
  {
    var r := ReportsInOrder(first, second);
    if first.Some? {
      assert r[0] == first.value;
    }
    if second.Some? {
      assert r[|r| - 1] == second.value;
    }
  }

  /**
   * A conditional gets at most one report on its `?` and one on its `:`, each
   * exactly when that operator leads its line, the `?` first.
   */
  lemma ConditionalReportsInOrder(src: SourceCode, trueNode: RightNode, falseNode: RightNode)
    requires ValidRight(src, trueNode) && ValidRight(src, falseNode) && TokensOnLines(src)
    ensures var r := ValidateConditionalExpression(src, trueNode, falseNode);
      && |r| <= 2
      && (forall k :: 0 <= k < |r| ==> r[k].operator == "?" || r[k].operator == ":")
      && (|r| == 2 ==> r[0].operator == "?" && r[1].operator == ":")
      && ((exists k :: 0 <= k < |r| && r[k].operator == "?") <==> ValidateNode(src, trueNode, "?").Some?)
      && ((exists k :: 0 <= k < |r| && r[k].operator == ":") <==> ValidateNode(src, falseNode, ":").Some?)
  {
    ReportNamesItsOperator(src, trueNode, "?");
    ReportNamesItsOperator(src, falseNode, ":");
    ReportsInOrderByOperator(ValidateNode(src, trueNode, "?"), ValidateNode(src, falseNode, ":"), "?", ":");
  }

  /** `1\n\t -\v2` */
  function LeadingMinusSource(): SourceCode
  {
    SourceCode(
      "1\n\t -\U{000B}2",
      ["1", "\t -\U{000B}2"],
      [0, 2],
      [ Token(Numeric, "1", Position(1, 0), Position(1, 1), 0, 1),
        Token(Punctuator, "-", Position(2, 2), Position(2, 3), 4, 5),
        Token(Numeric, "2", Position(2, 4), Position(2, 5), 6, 7) ],
      _ => NodeInfo(OtherNode, 0))
  }

  /** The operand moves to a new line indented like the operator: `1\n\t -\n\t 2`. */
  lemma LeadingMinusIsFixed()
    ensures var src := LeadingMinusSource();
      && TokensOnLines(src)
      && ValidateNode(src, RightNode(2, 0), "-") ==
           Some(OperatorReport(0, Position(2, 2), Position(2, 3), "-", Some(Fix(5, 6, "\n\t "))))
      && ApplyFix(src.text, Fix(5, 6, "\n\t ")) == "1\n\t -\n\t 2"
  {
    var src := LeadingMinusSource();
    assert TokenWellFormed(src, src.tokens[0]);
    assert TokenWellFormed(src, src.tokens[1]);
    assert TokenWellFormed(src, src.tokens[2]);
    assert PrevTokenWhere(src, 2, IsOperator("-")) == Some(1);
    assert PrevToken(src, 1) == Some(0);
    assert NextToken(src, 1) == Some(2);
    assert IndexFromLoc(src, 2, 0) == 2;
    assert JsSlice(src.text, 2, 4) == "\t ";
    assert "\n" + "\t " == "\n\t ";
    assert GetFix(src, 1, 0, 2) == Some(Fix(5, 6, "\n\t "));
    assert src.text[..5] + "\n\t " + src.text[6..] == "1\n\t -\n\t 2";
  }
}
