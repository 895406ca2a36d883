/**
 * The rule `nice-space-before-function-paren`: named functions (and functions
 * with type parameters) take no space before the parenthesis of their
 * parameters, other functions take one; a line break in between is left as
 * it is.
 */
module NiceSpaceBeforeFunctionParen {

  import opened Source
  import opened Whitespace

  /** The three listeners' node types. */
  datatype FunctionKind = ArrowFunction | FunctionDeclarationNode | FunctionExpressionNode

  /** What `isNamedFunction` asks of the function's parent. */
  datatype Parent =
    | MethodDefinitionParent
    | PropertyParent(kind: PropertyKind, isMethod: bool)
    | OtherParent

  /**
   * A function node: its type, whether it has an `id`, its parent, whether it
   * has `typeParameters`, whether it is `async`, and its first and last tokens.
   */
  datatype FunctionNode = FunctionNode(
    kind: FunctionKind,
    hasId: bool,
    parent: Parent,
    hasTypeParameters: bool,
    isAsync: bool,
    firstToken: nat,
    lastToken: nat)

  datatype FunctionConfig = Always | Never | Ignore

  datatype FunctionMessage = MissingSpace | UnexpectedSpace

  /** The report: located at the end of the token before the parenthesis, with its fix. */
  datatype FunctionReport = FunctionReport(message: FunctionMessage, loc: Position, fix: Fix)

  /** What the parser guarantees: the node's tokens exist and its first token is a token. */
  predicate ValidFunction(src: SourceCode, node: FunctionNode)
  {
    node.firstToken <= node.lastToken < |src.tokens| && !IsComment(src.tokens[node.firstToken])
  }

  /** `isNamedFunction` */
  predicate IsNamedFunction(node: FunctionNode)
  {
    || node.hasId
    || node.parent.MethodDefinitionParent?
    || (node.parent.PropertyParent? && (node.parent.kind == Get || node.parent.kind == Set || node.parent.isMethod))
  }

  /** `isOpeningParenToken` */
  predicate IsOpeningParenToken(t: Token)
  {
    t.value == "(" && t.tokenType == Punctuator
  }

  /** `getFirstToken(node, { skip: 1 })`: the node's second token, if it has one. */
  function SecondToken(src: SourceCode, node: FunctionNode): (r: Option<nat>)
    requires ValidFunction(src, node)
    ensures r.Some? ==> node.firstToken < r.value <= node.lastToken && !IsComment(src.tokens[r.value])
  {
    var k := NextToken(src, node.firstToken);
    if k.Some? && k.value <= node.lastToken then k else None
  }

  /**
   * `getConfigForFunction`: `never` for a named function or one with type
   * parameters; `ignore` for any other arrow function unless it is async and
   * its second token is `(`; `always` for everything else.
   */
  function GetConfigForFunction(src: SourceCode, node: FunctionNode): (r: FunctionConfig)
    requires ValidFunction(src, node)
    ensures r == Never <==> IsNamedFunction(node) || node.hasTypeParameters
    ensures r == Ignore <==>
      && !(IsNamedFunction(node) || node.hasTypeParameters)
      && node.kind.ArrowFunction?
      && !(node.isAsync && SecondToken(src, node).Some? && IsOpeningParenToken(src.tokens[SecondToken(src, node).value]))
  {
    if IsNamedFunction(node) || node.hasTypeParameters then Never
    else if node.kind.ArrowFunction?
         && !(node.isAsync && SecondToken(src, node).Some? && IsOpeningParenToken(src.tokens[SecondToken(src, node).value]))
    then Ignore
    else Always
  }

  /** `getFirstToken(node, isOpeningParenToken)`: the node's first `(` token. */
  function OpeningParen(src: SourceCode, node: FunctionNode): (r: Option<nat>)
    requires ValidFunction(src, node)
    ensures r.Some? ==>
      && node.firstToken <= r.value <= node.lastToken
      && !IsComment(src.tokens[r.value]) && IsOpeningParenToken(src.tokens[r.value])
      && forall k :: node.firstToken <= k < r.value ==> Skips(src, k, IsOpeningParenToken)
  {
    if IsOpeningParenToken(src.tokens[node.firstToken]) then Some(node.firstToken)
    else
      var k := NextTokenWhere(src, node.firstToken, IsOpeningParenToken);
      if k.Some? && k.value <= node.lastToken then k else None
  }

  /**
   * The decision on the gap between the token before the parenthesis and the
   * parenthesis, once its block comments are removed: nothing if it holds a
   * line break; an unexpected space under `never` if it holds white space; a
   * missing space under `always` if it holds none.
   */
  function GapDecision(config: FunctionConfig, gap: string): Option<FunctionMessage>
  {
    var text := StripBlockComments(gap);
    if HasLineBreak(text) then None
    else
      var hasSpacing := HasWhitespace(text);
      if hasSpacing && config == Never then Some(UnexpectedSpace)
      else if !hasSpacing && config == Always then Some(MissingSpace)
      else None
  }

  /** `checkFunction` */
  function CheckFunction(src: SourceCode, node: FunctionNode): Option<FunctionReport>
    requires ValidFunction(src, node)
  {
    var functionConfig := GetConfigForFunction(src, node);
    if functionConfig == Ignore then None
    else
      var rightToken := OpeningParen(src, node);
      if rightToken.None? then None
      else
        var leftToken := PrevToken(src, rightToken.value);
        if leftToken.None? then None
        else
          var left := src.tokens[leftToken.value];
          var right := src.tokens[rightToken.value];
          var decision := GapDecision(functionConfig, JsSlice(src.text, left.endOffset, right.startOffset));
          if decision == Some(UnexpectedSpace) then
            Some(FunctionReport(UnexpectedSpace, left.end, Fix(left.endOffset, right.startOffset, "")))
          else if decision == Some(MissingSpace) then
            Some(FunctionReport(MissingSpace, left.end, Fix(left.endOffset, left.endOffset, " ")))
          else None
  }

  /**
   * What `checkFunction` reports: nothing for an ignored function; otherwise,
   * with `gap` the text between the token before the first `(` and that `(`,
   * a report iff the gap, without its block comments, has no line break and
   * either has white space under `never` (removing the whole gap) or has none
   * under `always` (inserting one space after the token before).
   */
  lemma CheckFunctionShape(src: SourceCode, node: FunctionNode)
    requires ValidFunction(src, node)
    ensures GetConfigForFunction(src, node) == Ignore ==> CheckFunction(src, node).None?
    ensures OpeningParen(src, node).Some? && PrevToken(src, OpeningParen(src, node).value).Some? ==>
      var config := GetConfigForFunction(src, node);
      var left := src.tokens[PrevToken(src, OpeningParen(src, node).value).value];
      var right := src.tokens[OpeningParen(src, node).value];
      var text := StripBlockComments(JsSlice(src.text, left.endOffset, right.startOffset));
      var r := CheckFunction(src, node);
      && (r.Some? <==>
            && config != Ignore && !HasLineBreak(text)
            && ((config == Never && HasWhitespace(text)) || (config == Always && !HasWhitespace(text))))
      && (r.Some? ==> r.value.loc == left.end)
      && (r.Some? && r.value.message == UnexpectedSpace ==>
            config == Never && r.value.fix == Fix(left.endOffset, right.startOffset, ""))
      && (r.Some? && r.value.message == MissingSpace ==>
            config == Always && r.value.fix == Fix(left.endOffset, left.endOffset, " "))
  {
    var config := GetConfigForFunction(src, node);
    var paren := OpeningParen(src, node);
    if config != Ignore && paren.Some? && PrevToken(src, paren.value).Some? {
      var left := src.tokens[PrevToken(src, paren.value).value];
      var right := src.tokens[paren.value];
      var decision := GapDecision(config, JsSlice(src.text, left.endOffset, right.startOffset));
      assert CheckFunction(src, node) ==
        if decision == Some(UnexpectedSpace) then
          Some(FunctionReport(UnexpectedSpace, left.end, Fix(left.endOffset, right.startOffset, "")))
        else if decision == Some(MissingSpace) then
          Some(FunctionReport(MissingSpace, left.end, Fix(left.endOffset, left.endOffset, " ")))
        else None;
    }
  }

  /** The gap as the fix for `m` leaves it: empty after a removal, one space longer after an insertion. */
  function GapAfterFix(m: FunctionMessage, gap: string): string
  {
    match m
    case UnexpectedSpace => ""
    case MissingSpace => " " + gap
  }

  /** The fix for `m` on the gap `[start, end)`: remove it all, or insert one space at its start. */
  function GapFix(m: FunctionMessage, start: nat, end: nat): Fix
  {
    match m
    case UnexpectedSpace => Fix(start, end, "")
    case MissingSpace => Fix(start, start, " ")
  }

  /** Applying the fix for `m` replaces exactly the gap by the fixed gap. */
  lemma ApplyGapFix(text: string, m: FunctionMessage, start: nat, end: nat)
    requires start <= end <= |text|
    ensures ApplyFix(text, GapFix(m, start, end)) == text[..start] + GapAfterFix(m, text[start..end]) + text[end..]
  {
    if m == MissingSpace {
      assert text[start..] == text[start..end] + text[end..];
    }
  }

  /** Applying the fix replaces exactly the gap between the two tokens by the fixed gap. */
  lemma FixRewritesGap(src: SourceCode, node: FunctionNode)
    requires ValidFunction(src, node) && CheckFunction(src, node).Some?
    ensures var left := src.tokens[PrevToken(src, OpeningParen(src, node).value).value];
      var right := src.tokens[OpeningParen(src, node).value];
      var r := CheckFunction(src, node).value;
      left.endOffset <= right.startOffset <= |src.text| ==>
        && r.fix.start <= r.fix.end <= |src.text|
        && ApplyFix(src.text, r.fix) ==
             src.text[..left.endOffset]
             + GapAfterFix(r.message, src.text[left.endOffset..right.startOffset])
             + src.text[right.startOffset..]
  {
    CheckFunctionShape(src, node);
    var left := src.tokens[PrevToken(src, OpeningParen(src, node).value).value];
    var right := src.tokens[OpeningParen(src, node).value];
    var r := CheckFunction(src, node).value;
    if left.endOffset <= right.startOffset <= |src.text| {
      assert r.fix == GapFix(r.message, left.endOffset, right.startOffset);
      ApplyGapFix(src.text, r.message, left.endOffset, right.startOffset);
    }
  }

  /** After its fix, the gap draws no further report under the same configuration. */
  lemma FixSettlesGap(config: FunctionConfig, gap: string)
    requires GapDecision(config, gap).Some?
    ensures GapDecision(config, GapAfterFix(GapDecision(config, gap).value, gap)).None?
  {
    var m := GapDecision(config, gap).value;
    if m == MissingSpace {
      StripKeepsLeadingCharacter(' ', gap);
      var t := StripBlockComments(" " + gap);
      var s := StripBlockComments(gap);
      assert t == [' '] + s;
      assert IsWhitespace(t[0]);
    }
  }

  /** Block comments do not count as a line break or as white space, so a gap of only a comment still misses a space. */
  lemma CommentIsNotSpace()
    ensures GapDecision(Always, "/**/") == Some(MissingSpace)
    ensures GapDecision(Never, "/**/").None?
  {
    assert CommentEnd("/**/", 2) == Some(4);
    assert StripBlockComments("/**/") == "";
  }
}
