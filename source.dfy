/**
 * The host engine's source-code facade, taken as plain input: the text, its
 * lines, the token stream (tokens and comments in source order) and an oracle
 * that answers "which AST node is innermost at this offset".
 */
module Source {

  datatype Option<T> = None | Some(value: T)

  /** Token types as the parser reports them; `Block` and `Line` are comments. */
  datatype TokenType =
    | Boolean | Identifier | Keyword | Null | Numeric | Punctuator | PrivateIdentifier
    | RegularExpression | String | Template | JSXIdentifier | JSXText
    | Block | Line

  /** A `loc` position: 1-based line, 0-based column. */
  datatype Position = Position(line: nat, column: nat)

  /** A token or comment: type, value, `loc.start`/`loc.end` and `range` (half-open). */
  datatype Token = Token(
    tokenType: TokenType,
    value: string,
    start: Position,
    end: Position,
    startOffset: nat,
    endOffset: nat)

  /** The AST node types the rules ask about; every other type is `OtherNode`. */
  datatype NodeType =
    | ArrowFunctionExpression | BlockStatement | FunctionDeclaration | FunctionExpression
    | Identifier | MethodDefinition | Property | ReturnStatement | ThrowStatement
    | YieldExpression | TSArrayType | TSAsExpression | TSIndexedAccessType
    | TSSatisfiesExpression | TSTypeParameterDeclaration | TSTypeParameterInstantiation
    | OtherNode

  /** A property's `kind`; a spread element has none. */
  datatype PropertyKind = Init | Get | Set | NoKind

  /** What `getNodeByRangeIndex` returns: the node's type and the index of its first token. */
  datatype NodeInfo = NodeInfo(nodeType: NodeType, firstToken: nat)

  datatype SourceCode = SourceCode(
    text: string,
    lines: seq<string>,
    lineStarts: seq<nat>,
    tokens: seq<Token>,
    nodeAt: nat -> NodeInfo)

  /** A text edit: replace `[start, end)` by `text`. */
  datatype Fix = Fix(start: nat, end: nat, text: string)

  predicate IsComment(t: Token)
  {
    t.tokenType.Block? || t.tokenType.Line?
  }

  /** `' '.repeat(n)` */
  function Spaces(n: nat): (r: string)
    ensures |r| == n && forall i :: 0 <= i < n ==> r[i] == ' '
  {
    if n == 0 then "" else Spaces(n - 1) + " "
  }

  /** `getIndexFromLoc`: the offset of a position. */
  function IndexFromLoc(src: SourceCode, line: nat, column: nat): nat
    requires 1 <= line <= |src.lineStarts|
  {
    src.lineStarts[line - 1] + column
  }

  predicate TokenWellFormed(src: SourceCode, t: Token)
  {
    && 1 <= t.start.line <= t.end.line <= |src.lines| == |src.lineStarts|
    && t.startOffset < t.endOffset <= |src.text|
    && t.startOffset == src.lineStarts[t.start.line - 1] + t.start.column
    && t.endOffset == src.lineStarts[t.end.line - 1] + t.end.column
  }

  /** A well-formed token starts no earlier than its line and ends within the text. */
  lemma TokenWithinText(src: SourceCode, t: Token)
    requires TokenWellFormed(src, t)
    ensures src.lineStarts[t.start.line - 1] <= t.startOffset < t.endOffset <= |src.text|
  {
  }

  predicate LineWellFormed(src: SourceCode, k: nat)
    requires k < |src.lines| == |src.lineStarts|
  {
    && src.lineStarts[k] + |src.lines[k]| <= |src.text|
    && src.text[src.lineStarts[k]..src.lineStarts[k] + |src.lines[k]|] == src.lines[k]
  }

  /**
   * What the parser guarantees: at least one line, each line is the text at
   * its start offset, every token lies on existing lines with offsets that
   * agree with its positions, and tokens are in order and do not overlap.
   */
  predicate WellFormed(src: SourceCode)
  {
    && |src.lines| >= 1
    && |src.lineStarts| == |src.lines|
    && (forall k :: 0 <= k < |src.lines| ==> LineWellFormed(src, k))
    && (forall i :: 0 <= i < |src.tokens| ==> TokenWellFormed(src, src.tokens[i]))
    && (forall i :: 0 <= i < |src.tokens| - 1 ==> AdjacentInOrder(src, i))
  }

  /** Token `i` ends before token `i + 1` starts. */
  predicate AdjacentInOrder(src: SourceCode, i: nat)
    requires i + 1 < |src.tokens|
  {
    src.tokens[i].endOffset <= src.tokens[i + 1].startOffset
  }

  /** Tokens that are further apart are in order as well. */
  lemma {:induction false} OffsetsOrdered(src: SourceCode, i: nat, j: nat)
    requires WellFormed(src)
    requires i < j < |src.tokens|
    ensures src.tokens[i].endOffset <= src.tokens[j].startOffset
  {
    if j > i + 1 {
      OffsetsOrdered(src, i, j - 1);
      assert TokenWellFormed(src, src.tokens[j - 1]);
    }
    assert AdjacentInOrder(src, j - 1);
  }

  /** `getTokenBefore(tokens[i])`: the nearest token before `i` that is not a comment. */
  function PrevToken(src: SourceCode, i: nat): (r: Option<nat>)
    requires i <= |src.tokens|
    ensures r.Some? ==> r.value < i && !IsComment(src.tokens[r.value])
    ensures r.Some? ==> forall k :: r.value < k < i ==> IsComment(src.tokens[k])
    ensures r.None? ==> forall k :: 0 <= k < i ==> IsComment(src.tokens[k])
    decreases i
  {
    if i == 0 then None
    else if IsComment(src.tokens[i - 1]) then PrevToken(src, i - 1)
    else Some(i - 1)
  }

  /** `getTokenAfter(tokens[i])`: the nearest token after `i` that is not a comment. */
  function NextToken(src: SourceCode, i: nat): (r: Option<nat>)
    requires i < |src.tokens|
    ensures r.Some? ==> i < r.value < |src.tokens| && !IsComment(src.tokens[r.value])
    ensures r.Some? ==> forall k :: i < k < r.value ==> IsComment(src.tokens[k])
    ensures r.None? ==> forall k :: i < k < |src.tokens| ==> IsComment(src.tokens[k])
    decreases |src.tokens| - i
  {
    if i + 1 == |src.tokens| then None
    else if IsComment(src.tokens[i + 1]) then NextToken(src, i + 1)
    else Some(i + 1)
  }

  /** Token `k` is a comment or does not satisfy `p`: a search for a token satisfying `p` passes over it. */
  predicate Skips(src: SourceCode, k: nat, p: Token -> bool)
    requires k < |src.tokens|
  {
    IsComment(src.tokens[k]) || !p(src.tokens[k])
  }

  /** `getTokenAfter(tokens[i], { filter: p })`: the nearest token after `i` that is not a comment and satisfies `p`. */
  function NextTokenWhere(src: SourceCode, i: nat, p: Token -> bool): (r: Option<nat>)
    requires i < |src.tokens|
    ensures r.Some? ==> i < r.value < |src.tokens| && !IsComment(src.tokens[r.value]) && p(src.tokens[r.value])
    ensures r.Some? ==> forall k :: i < k < r.value ==> Skips(src, k, p)
    ensures r.None? ==> forall k :: i < k < |src.tokens| ==> Skips(src, k, p)
    decreases |src.tokens| - i
  {
    if i + 1 == |src.tokens| then None
    else if !IsComment(src.tokens[i + 1]) && p(src.tokens[i + 1]) then Some(i + 1)
    else NextTokenWhere(src, i + 1, p)
  }

  /** `getTokenBefore(tokens[i], { includeComments: true })` */
  function PrevTokenOrComment(src: SourceCode, i: nat): Option<nat>
  {
    if i == 0 then None else Some(i - 1)
  }

  /** `getTokenAfter(tokens[i], { includeComments: true })` */
  function NextTokenOrComment(src: SourceCode, i: nat): Option<nat>
  {
    if i + 1 < |src.tokens| then Some(i + 1) else None
  }

  /** `getTokenBefore(tokens[i], { filter: p })`: the nearest token before `i` that is not a comment and satisfies `p`. */
  function PrevTokenWhere(src: SourceCode, i: nat, p: Token -> bool): (r: Option<nat>)
    requires i <= |src.tokens|
    ensures r.Some? ==> r.value < i && !IsComment(src.tokens[r.value]) && p(src.tokens[r.value])
    ensures r.Some? ==> forall k :: r.value < k < i ==> Skips(src, k, p)
    ensures r.None? ==> forall k :: 0 <= k < i ==> Skips(src, k, p)
    decreases i
  {
    if i == 0 then None
    else if !IsComment(src.tokens[i - 1]) && p(src.tokens[i - 1]) then Some(i - 1)
    else PrevTokenWhere(src, i - 1, p)
  }

  /** Stepping forward to the next token and back again returns to a token. */
  lemma PrevOfNext(src: SourceCode, i: nat)
    requires i < |src.tokens| && !IsComment(src.tokens[i]) && NextToken(src, i).Some?
    ensures PrevToken(src, NextToken(src, i).value) == Some(i)
  {
    var k := NextToken(src, i).value;
    assert !IsComment(src.tokens[i]);
  }

  /**
   * `String.prototype.slice(start, end)` on non-negative bounds: both are
   * clamped to the length, and a reversed range is empty.
   */
  function JsSlice(s: string, start: nat, end: nat): (r: string)
    ensures start <= end <= |s| ==> r == s[start..end]
    ensures end <= start ==> r == ""
  {
    var b := if start > |s| then |s| else start;
    var e := if end > |s| then |s| else end;
    if b <= e then s[b..e] else ""
  }

  /** The text after a fix: `[start, end)` replaced by the fix's text. */
  function ApplyFix(text: string, f: Fix): (r: string)
    requires f.start <= f.end <= |text|
    ensures |r| == |text| - (f.end - f.start) + |f.text|
    ensures r[..f.start] == text[..f.start] && r[f.start..f.start + |f.text|] == f.text
    ensures r[f.start + |f.text|..] == text[f.end..]
  {
    text[..f.start] + f.text + text[f.end..]
  }
}
