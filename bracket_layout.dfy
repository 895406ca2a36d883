/**
 * The `bracket-layout` rule. For every bracket pair that spans more than one
 * line, four checks look at the tokens just outside and just inside the
 * brackets. Each check that fires inserts a line break at the bracket's edge,
 * unless that edge is a junction an IIFE has marked as valid.
 */
module BracketLayout {

  import opened Source
  import opened Utils

  /** Punctuators that may stand first on a line after a bracket: `( . ) ] { } ?.` */
  const PreDetachedPunctuators: set<string> := {"(", ".", ")", "]", "{", "}", "?."}

  /** Punctuators that stay attached to what follows: `! + - ^ ~ ++ -- ... ?.` */
  const PostAttachedPunctuators: set<string> := {"!", "+", "-", "^", "~", "++", "--", "...", "?."}

  /** `isInNodeOfType`: the innermost node at the token's start offset has type `nodeType`. */
  predicate IsInNodeOfType(src: SourceCode, t: Token, nodeType: NodeType)
  {
    src.nodeAt(t.startOffset).nodeType == nodeType
  }

  /** `canBreakAfterToken` */
  predicate CanBreakAfterToken(src: SourceCode, t: Token)
  {
    if t.tokenType.Punctuator? then t.value !in PostAttachedPunctuators
    else if t.tokenType.Identifier? && t.value == "async" then !IsInNodeOfType(src, t, ArrowFunctionExpression)
    else if t.tokenType.Keyword? && t.value == "return" then !IsInNodeOfType(src, t, ReturnStatement)
    else if t.tokenType.Keyword? && t.value == "throw" then !IsInNodeOfType(src, t, ThrowStatement)
    else if t.tokenType.Keyword? && t.value == "yield" then !IsInNodeOfType(src, t, YieldExpression)
    else true
  }

  /** `canBreakBeforeToken` */
  predicate CanBreakBeforeToken(src: SourceCode, t: Token)
  {
    if t.tokenType.Punctuator? && t.value == "[" then !IsInNodeOfType(src, t, TSArrayType)
    else if t.tokenType.Punctuator? then t.value in PreDetachedPunctuators
    else if t.tokenType.Identifier? && t.value == "as" then !IsInNodeOfType(src, t, TSAsExpression)
    else if t.tokenType.Identifier? && t.value == "satisfies" then !IsInNodeOfType(src, t, TSSatisfiesExpression)
    else true
  }

  /** `canBreakBeforeBracket` */
  predicate CanBreakBeforeBracket(src: SourceCode, t: Token)
  {
    if t.value == "<" then !IsInNodeOfType(src, t, TSTypeParameterInstantiation)
    else if t.value == "[" then !IsInNodeOfType(src, t, TSIndexedAccessType)
    else true
  }

  /**
   * Only a keyword in the statement or expression it introduces blocks a break:
   * `return`, `throw` and `yield` used in any other node do not.
   * This spells out the keyword branch of `CanBreakAfterToken` case by case;
   * it adds no fact beyond the table itself.
   */
  lemma KeywordsBlockOnlyInTheirOwnNode(src: SourceCode, t: Token)
    requires t.tokenType.Keyword?
    ensures t.value == "return" ==> (!CanBreakAfterToken(src, t) <==> IsInNodeOfType(src, t, ReturnStatement))
    ensures t.value == "throw" ==> (!CanBreakAfterToken(src, t) <==> IsInNodeOfType(src, t, ThrowStatement))
    ensures t.value == "yield" ==> (!CanBreakAfterToken(src, t) <==> IsInNodeOfType(src, t, YieldExpression))
    ensures t.value !in {"return", "throw", "yield"} ==> CanBreakAfterToken(src, t)
  {
  }

  /**
   * For punctuators: a break may follow any punctuator but `! + - ^ ~ ++ -- ... ?.`,
   * and may precede only `( . ) ] { } ?.`, or a `[` that does not open an array type.
   * This spells out the punctuator tables of `CanBreakAfterToken` and
   * `CanBreakBeforeToken`; it adds no fact beyond the tables themselves.
   */
  lemma PunctuatorBreakRules(src: SourceCode, t: Token)
    requires t.tokenType.Punctuator?
    ensures CanBreakAfterToken(src, t) <==>
      !(t.value == "!" || t.value == "+" || t.value == "-" || t.value == "^" || t.value == "~"
        || t.value == "++" || t.value == "--" || t.value == "..." || t.value == "?.")
    ensures t.value == "[" ==> (CanBreakBeforeToken(src, t) <==> !IsInNodeOfType(src, t, TSArrayType))
    ensures t.value != "[" ==>
      (CanBreakBeforeToken(src, t) <==>
         t.value == "(" || t.value == "." || t.value == ")" || t.value == "]" || t.value == "{"
         || t.value == "}" || t.value == "?.")
  {
  }

  datatype LayoutMessage = SameLineBeforeOpen | SameLineAfterOpen | SameLineBeforeClose | SameLineAfterClose

  /** A report on a bracket (by token index) with its fix. */
  datatype LayoutReport = LayoutReport(bracket: nat, message: LayoutMessage, fix: Fix)

  /** `report`: the fix inserts a single line break at `index`. */
  function Report(bracket: nat, message: LayoutMessage, index: nat): (r: LayoutReport)
    ensures r.fix.start == r.fix.end == index && r.fix.text == "\n"
  {
    LayoutReport(bracket, message, Fix(index, index, "\n"))
  }

  predicate HasMessage(rs: seq<LayoutReport>, m: LayoutMessage)
  {
    exists k :: 0 <= k < |rs| && rs[k].message == m
  }

  function When(c: bool, r: LayoutReport): seq<LayoutReport>
  {
    if c then [r] else []
  }

  /** Check 1: the token before the opening bracket is on its line and a break may go between them. */
  predicate BeforeOpenFires(src: SourceCode, junctions: set<nat>, o: nat)
    requires o < |src.tokens|
  {
    && PrevToken(src, o).Some?
    && IsTokenOnSameLine(src.tokens[PrevToken(src, o).value], src.tokens[o])
    && src.tokens[o].startOffset !in junctions
    && CanBreakAfterToken(src, src.tokens[PrevToken(src, o).value])
    && CanBreakBeforeBracket(src, src.tokens[o])
  }

  /** Check 2: code follows the opening bracket on its line. */
  predicate AfterOpenFires(src: SourceCode, junctions: set<nat>, o: nat)
    requires o < |src.tokens|
  {
    && NextToken(src, o).Some?
    && IsTokenOnSameLine(src.tokens[o], src.tokens[NextToken(src, o).value])
    && src.tokens[o].endOffset !in junctions
  }

  /** Check 3: code precedes the closing bracket on its line. */
  predicate BeforeCloseFires(src: SourceCode, junctions: set<nat>, c: nat)
    requires c < |src.tokens|
  {
    && PrevToken(src, c).Some?
    && IsTokenOnSameLine(src.tokens[PrevToken(src, c).value], src.tokens[c])
    && src.tokens[c].startOffset !in junctions
  }

  /** Check 4: a token that may start a line follows the closing bracket on its line. */
  predicate AfterCloseFires(src: SourceCode, junctions: set<nat>, c: nat)
    requires c < |src.tokens|
  {
    && NextToken(src, c).Some?
    && IsTokenOnSameLine(src.tokens[c], src.tokens[NextToken(src, c).value])
    && src.tokens[c].endOffset !in junctions
    && CanBreakBeforeToken(src, src.tokens[NextToken(src, c).value])
  }

  /** Four optional reports with distinct messages: a message is present iff its condition holds. */
  lemma HasMessageOfChecks(b1: bool, b2: bool, b3: bool, b4: bool,
                           r1: LayoutReport, r2: LayoutReport, r3: LayoutReport, r4: LayoutReport)
    requires r1.message.SameLineBeforeOpen? && r2.message.SameLineAfterOpen?
    requires r3.message.SameLineBeforeClose? && r4.message.SameLineAfterClose?
    ensures var r := When(b1, r1) + When(b2, r2) + When(b3, r3) + When(b4, r4);
      && (HasMessage(r, SameLineBeforeOpen) <==> b1)
      && (HasMessage(r, SameLineAfterOpen) <==> b2)
      && (HasMessage(r, SameLineBeforeClose) <==> b3)
      && (HasMessage(r, SameLineAfterClose) <==> b4)
  {
    var w1, w2, w3, w4 := When(b1, r1), When(b2, r2), When(b3, r3), When(b4, r4);
    HasMessageWhen(b1, r1);
    HasMessageWhen(b2, r2);
    HasMessageWhen(b3, r3);
    HasMessageWhen(b4, r4);
    HasMessageAppend(w1, w2);
    HasMessageAppend(w1 + w2, w3);
    HasMessageAppend(w1 + w2 + w3, w4);
  }

  /** Each of the four optional reports is present only under its condition. */
  lemma ChecksReportOnlyTheirs(b1: bool, b2: bool, b3: bool, b4: bool,
                               r1: LayoutReport, r2: LayoutReport, r3: LayoutReport, r4: LayoutReport)
    ensures var r := When(b1, r1) + When(b2, r2) + When(b3, r3) + When(b4, r4);
      forall k :: 0 <= k < |r| ==>
        (r[k] == r1 && b1) || (r[k] == r2 && b2) || (r[k] == r3 && b3) || (r[k] == r4 && b4)
  {
    var w1, w2, w3, w4 := When(b1, r1), When(b2, r2), When(b3, r3), When(b4, r4);
    var r := w1 + w2 + w3 + w4;
    forall k | 0 <= k < |r|
      ensures r[k] in w1 || r[k] in w2 || r[k] in w3 || r[k] in w4
    {
      assert r[k] in r;
    }
  }

  /** A message is among two runs of reports iff it is in one of them. */
  lemma HasMessageAppend(a: seq<LayoutReport>, b: seq<LayoutReport>)
    ensures forall m :: HasMessage(a + b, m) <==> HasMessage(a, m) || HasMessage(b, m)
  {
    forall m | HasMessage(a + b, m)
      ensures HasMessage(a, m) || HasMessage(b, m)
    {
      var k :| 0 <= k < |a + b| && (a + b)[k].message == m;
      if k >= |a| {
        assert b[k - |a|] == (a + b)[k];
      }
    }
    forall m | HasMessage(b, m)
      ensures HasMessage(a + b, m)
    {
      var k :| 0 <= k < |b| && b[k].message == m;
      assert (a + b)[|a| + k] == b[k];
    }
    forall m | HasMessage(a, m)
      ensures HasMessage(a + b, m)
    {
      var k :| 0 <= k < |a| && a[k].message == m;
      assert (a + b)[k] == a[k];
    }
  }

  /** A report that is present only under `c` has its message present iff `c`. */
  lemma HasMessageWhen(c: bool, r: LayoutReport)
    ensures forall m :: HasMessage(When(c, r), m) <==> c && r.message == m
  {
    if c {
      assert When(c, r)[0] == r;
    }
  }

  /** The bracket a message is about: the opening one for the first two checks. */
  function BracketOf(o: nat, c: nat, m: LayoutMessage): nat
  {
    if m.SameLineBeforeOpen? || m.SameLineAfterOpen? then o else c
  }

  /** The offset where a check inserts its line break: the edge of the bracket it is about. */
  function EdgeOffset(src: SourceCode, o: nat, c: nat, m: LayoutMessage): nat
    requires o < |src.tokens| && c < |src.tokens|
  {
    match m
    case SameLineBeforeOpen => src.tokens[o].startOffset
    case SameLineAfterOpen => src.tokens[o].endOffset
    case SameLineBeforeClose => src.tokens[c].startOffset
    case SameLineAfterClose => src.tokens[c].endOffset
  }

  /** `validateBracketPair(tokens[o], tokens[c])` given the valid junctions `junctions`. */
  function ValidateBracketPair(src: SourceCode, junctions: set<nat>, o: nat, c: nat): seq<LayoutReport>
    requires o < |src.tokens| && c < |src.tokens|
  {
    var opening := src.tokens[o];
    var closing := src.tokens[c];
    if IsTokenOnSameLine(opening, closing) then []
    else
      When(BeforeOpenFires(src, junctions, o), Report(o, SameLineBeforeOpen, opening.startOffset))
      + When(AfterOpenFires(src, junctions, o), Report(o, SameLineAfterOpen, opening.endOffset))
      + When(BeforeCloseFires(src, junctions, c), Report(c, SameLineBeforeClose, closing.startOffset))
      + When(AfterCloseFires(src, junctions, c), Report(c, SameLineAfterClose, closing.endOffset))
  }

  /**
   * A pair on one line gets no report; a pair that spans lines gets each of
   * the four reports exactly when its check fires, at most one per check,
   * each inserting a line break outside the valid junctions at the edge of
   * the bracket it is about.
   */
  lemma ValidateBracketPairShape(src: SourceCode, junctions: set<nat>, o: nat, c: nat)
    requires o < |src.tokens| && c < |src.tokens|
    ensures var r := ValidateBracketPair(src, junctions, o, c);
      && (IsTokenOnSameLine(src.tokens[o], src.tokens[c]) ==> r == [])
      && |r| <= 4
      && (forall k :: 0 <= k < |r| ==>
            r[k] == Report(BracketOf(o, c, r[k].message), r[k].message, EdgeOffset(src, o, c, r[k].message))
            && EdgeOffset(src, o, c, r[k].message) !in junctions)
      && var multiline := !IsTokenOnSameLine(src.tokens[o], src.tokens[c]);
      && (HasMessage(r, SameLineBeforeOpen) <==> multiline && BeforeOpenFires(src, junctions, o))
      && (HasMessage(r, SameLineAfterOpen) <==> multiline && AfterOpenFires(src, junctions, o))
      && (HasMessage(r, SameLineBeforeClose) <==> multiline && BeforeCloseFires(src, junctions, c))
      && (HasMessage(r, SameLineAfterClose) <==> multiline && AfterCloseFires(src, junctions, c))
  {
    var opening := src.tokens[o];
    var closing := src.tokens[c];
    if !IsTokenOnSameLine(opening, closing) {
      var r1 := Report(o, SameLineBeforeOpen, opening.startOffset);
      var r2 := Report(o, SameLineAfterOpen, opening.endOffset);
      var r3 := Report(c, SameLineBeforeClose, closing.startOffset);
      var r4 := Report(c, SameLineAfterClose, closing.endOffset);
      var b1 := BeforeOpenFires(src, junctions, o);
      var b2 := AfterOpenFires(src, junctions, o);
      var b3 := BeforeCloseFires(src, junctions, c);
      var b4 := AfterCloseFires(src, junctions, c);
      HasMessageOfChecks(b1, b2, b3, b4, r1, r2, r3, r4);
      ChecksReportOnlyTheirs(b1, b2, b3, b4, r1, r2, r3, r4);
    }
  }

  /** A larger set of valid junctions only ever removes reports. */
  lemma MoreJunctionsFewerReports(src: SourceCode, j1: set<nat>, j2: set<nat>, o: nat, c: nat)
    requires o < |src.tokens| && c < |src.tokens|
    requires j1 <= j2
    ensures forall k :: 0 <= k < |ValidateBracketPair(src, j2, o, c)| ==>
      ValidateBracketPair(src, j2, o, c)[k] in ValidateBracketPair(src, j1, o, c)
  {
    var r1 := ValidateBracketPair(src, j1, o, c);
    var r2 := ValidateBracketPair(src, j2, o, c);
    ValidateBracketPairShape(src, j1, o, c);
    ValidateBracketPairShape(src, j2, o, c);
    forall k | 0 <= k < |r2|
      ensures r2[k] in r1
    {
      var m := r2[k].message;
      assert HasMessage(r2, m);
      match m
      case SameLineBeforeOpen => assert HasMessage(r1, m);
      case SameLineAfterOpen => assert HasMessage(r1, m);
      case SameLineBeforeClose => assert HasMessage(r1, m);
      case SameLineAfterClose => assert HasMessage(r1, m);
      var x :| 0 <= x < |r1| && r1[x].message == m;
      assert r1[x] == r2[k];
    }
  }

  /** The reports for the pairs `ps`, in order; a pair without an opening token is skipped. */
  function PairReports(src: SourceCode, junctions: set<nat>, ps: seq<BracketPair>): seq<LayoutReport>
  {
    if ps == [] then []
    else
      PairReports(src, junctions, ps[..|ps| - 1]) + PairReport(src, junctions, ps[|ps| - 1])
  }

  /** The reports of one pair: none when its opening bracket is missing. */
  function PairReport(src: SourceCode, junctions: set<nat>, p: BracketPair): seq<LayoutReport>
  {
    if p.opening.Some? && p.opening.value < |src.tokens| && p.closing < |src.tokens|
    then ValidateBracketPair(src, junctions, p.opening.value, p.closing)
    else []
  }

  /** One more pair appends its reports to those of the pairs before it. */
  lemma PairReportsStep(src: SourceCode, junctions: set<nat>, ps: seq<BracketPair>, k: nat)
    requires k < |ps|
    ensures PairReports(src, junctions, ps[..k + 1]) ==
      PairReports(src, junctions, ps[..k]) + PairReport(src, junctions, ps[k])
  {
    assert ps[..k + 1][..k] == ps[..k];
  }

  /** The loop of `validateProgramExit`: each pair in turn, its reports after those of the pairs before. */
  method ValidatePairs(src: SourceCode, junctions: set<nat>, pairs: seq<BracketPair>) returns (found: seq<LayoutReport>)
    ensures found == PairReports(src, junctions, pairs)
  {
    found := [];
    var k := 0;
    while k < |pairs|
      invariant k <= |pairs|
      invariant found == PairReports(src, junctions, pairs[..k])
    {
      PairReportsStep(src, junctions, pairs, k);
      var pair := pairs[k];
      if pair.opening.Some? && pair.opening.value < |src.tokens| && pair.closing < |src.tokens| {
        found := found + ValidateBracketPair(src, junctions, pair.opening.value, pair.closing);
      }
      k := k + 1;
    }
    assert pairs[..|pairs|] == pairs;
  }

  /** `offset` is an edge of one of the brackets of `p`, a pair that spans lines. */
  predicate EdgeOfMultilinePair(src: SourceCode, p: BracketPair, offset: nat)
  {
    && p.opening.Some? && p.opening.value < |src.tokens| && p.closing < |src.tokens|
    && !IsTokenOnSameLine(src.tokens[p.opening.value], src.tokens[p.closing])
    && offset in {src.tokens[p.opening.value].startOffset, src.tokens[p.opening.value].endOffset,
                  src.tokens[p.closing].startOffset, src.tokens[p.closing].endOffset}
  }

  /** `r` inserts one line break outside `junctions` at an edge of a multi-line pair of `ps`. */
  predicate BreaksAtPairEdge(src: SourceCode, junctions: set<nat>, ps: seq<BracketPair>, r: LayoutReport)
  {
    && r.fix.text == "\n" && r.fix.start == r.fix.end && r.fix.start !in junctions
    && exists a :: 0 <= a < |ps| && EdgeOfMultilinePair(src, ps[a], r.fix.start)
  }

  /** Each report of one pair inserts a line break outside `junctions` at an edge of that pair. */
  lemma PairReportBreaksAtEdge(src: SourceCode, junctions: set<nat>, p: BracketPair, k: nat)
    requires k < |PairReport(src, junctions, p)|
    ensures var r := PairReport(src, junctions, p)[k];
      && r.fix.text == "\n" && r.fix.start == r.fix.end && r.fix.start !in junctions
      && EdgeOfMultilinePair(src, p, r.fix.start)
  {
    var o, c := p.opening.value, p.closing;
    var r := ValidateBracketPair(src, junctions, o, c);
    ValidateBracketPairShape(src, junctions, o, c);
    assert r[k] == Report(BracketOf(o, c, r[k].message), r[k].message, EdgeOffset(src, o, c, r[k].message));
  }

  /**
   * Every report of the program-exit pass belongs to a pair that spans lines,
   * and its fix inserts one line break at an edge of that pair's brackets.
   */
  lemma {:induction false} PairReportsInsertLineBreaks(src: SourceCode, junctions: set<nat>, ps: seq<BracketPair>)
    ensures forall k :: 0 <= k < |PairReports(src, junctions, ps)| ==>
      BreaksAtPairEdge(src, junctions, ps, PairReports(src, junctions, ps)[k])
  {
    if ps != [] {
      var init := ps[..|ps| - 1];
      PairReportsInsertLineBreaks(src, junctions, init);
      var prev := PairReports(src, junctions, init);
      var last := PairReport(src, junctions, ps[|ps| - 1]);
      var all := PairReports(src, junctions, ps);
      assert all == prev + last;
      forall k | 0 <= k < |all|
        ensures BreaksAtPairEdge(src, junctions, ps, all[k])
      {
        if k < |prev| {
          assert all[k] == prev[k];
          assert BreaksAtPairEdge(src, junctions, init, prev[k]);
          var a :| 0 <= a < |init| && EdgeOfMultilinePair(src, init[a], prev[k].fix.start);
          assert ps[a] == init[a];
        } else {
          assert all[k] == last[k - |prev|];
          PairReportBreaksAtEdge(src, junctions, ps[|ps| - 1], k - |prev|);
        }
      }
    }
  }

  // ---------------------------------------------------------------------------
  // Immediately invoked function expressions

  /** A function body: whether it is a block, and its first and last tokens. */
  datatype FunctionBody = FunctionBody(isBlock: bool, firstToken: nat, lastToken: nat)

  /** The function or arrow function that is a callee: its first and last tokens and its body. */
  datatype FunctionCallee = FunctionCallee(firstToken: nat, lastToken: nat, body: FunctionBody)

  /** The call expression around the callee: `optional` is `f?.()` and its extent in tokens. */
  datatype CallExpression = CallExpression(optional: bool, firstToken: nat, lastToken: nat)

  predicate ValidIIFE(src: SourceCode, callee: FunctionCallee, call: CallExpression)
  {
    && callee.firstToken <= callee.lastToken < |src.tokens|
    && ValidCalleeBody(src, callee)
    && call.firstToken <= call.lastToken < |src.tokens|
  }

  predicate IsOpeningParenToken(t: Token)
  {
    t.tokenType.Punctuator? && t.value == "("
  }

  predicate IsClosingParenToken(t: Token)
  {
    t.tokenType.Punctuator? && t.value == ")"
  }

  /**
   * For a callee wrapped in its own parentheses, `(function () { })()`: the
   * opening and closing parentheses around it, when the closing one is followed
   * by the argument list's `(`.
   */
  datatype CalleeShape = Bare | Wrapped(openParen: nat, closeParen: nat) | NotExamined

  function ShapeOfCallee(src: SourceCode, callee: FunctionCallee): CalleeShape
    requires callee.firstToken <= callee.lastToken < |src.tokens|
  {
    var after := NextToken(src, callee.lastToken);
    if after.None? || !IsClosingParenToken(src.tokens[after.value]) then Bare
    else
      var afterParen := NextToken(src, after.value);
      var openParen := PrevToken(src, callee.firstToken);
      if afterParen.None? || !IsOpeningParenToken(src.tokens[afterParen.value]) then NotExamined
      else if openParen.None? || src.tokens[openParen.value].end.line < src.tokens[callee.firstToken].start.line then NotExamined
      else Wrapped(openParen.value, after.value)
  }

  /** The callee's own parentheses and edges, for a wrapped callee. */
  function WrappedJunctions(src: SourceCode, callee: FunctionCallee, openParen: nat, closeParen: nat): set<nat>
    requires callee.firstToken <= callee.lastToken < |src.tokens|
    requires openParen < |src.tokens| && closeParen < |src.tokens|
  {
    {src.tokens[openParen].endOffset, src.tokens[callee.firstToken].startOffset,
     src.tokens[callee.lastToken].endOffset, src.tokens[closeParen].startOffset}
  }

  /** The end of the token before the argument list, when the arguments close on its line. */
  function ArgumentsJunction(src: SourceCode, call: CallExpression, beforeParams: nat): set<nat>
    requires call.lastToken < |src.tokens| && beforeParams < |src.tokens|
  {
    if src.tokens[call.lastToken].end.line == src.tokens[beforeParams].end.line
    then {src.tokens[beforeParams].endOffset} else {}
  }

  /** The start of a block body that lies within the callee's first and last lines. */
  function BodyJunction(src: SourceCode, callee: FunctionCallee, beforeParams: nat): set<nat>
    requires ValidCalleeBody(src, callee) && beforeParams < |src.tokens|
  {
    var body := callee.body;
    if body.isBlock && src.tokens[body.firstToken].start.line == src.tokens[callee.firstToken].start.line
      && src.tokens[body.lastToken].end.line == src.tokens[beforeParams].end.line
    then {src.tokens[body.firstToken].startOffset} else {}
  }

  predicate ValidCalleeBody(src: SourceCode, callee: FunctionCallee)
  {
    callee.firstToken < |src.tokens| && callee.body.firstToken <= callee.body.lastToken < |src.tokens|
  }

  /** The edges of a whole call wrapped in parentheses on its own lines, `(function () { }())`. */
  function AroundCallJunctions(src: SourceCode, call: CallExpression): set<nat>
    requires call.firstToken <= call.lastToken < |src.tokens|
  {
    var b := PrevToken(src, call.firstToken);
    var a := NextToken(src, call.lastToken);
    if && b.Some? && IsOpeningParenToken(src.tokens[b.value])
       && IsTokenOnSameLine(src.tokens[b.value], src.tokens[call.firstToken])
       && a.Some? && IsClosingParenToken(src.tokens[a.value])
       && IsTokenOnSameLine(src.tokens[call.lastToken], src.tokens[a.value])
    then {src.tokens[b.value].endOffset, src.tokens[call.firstToken].startOffset,
          src.tokens[call.lastToken].endOffset, src.tokens[a.value].startOffset}
    else {}
  }

  /** The junctions the corrected `validateIIFE` adds to the valid set. */
  function IIFEJunctions(src: SourceCode, callee: FunctionCallee, call: CallExpression): (j: set<nat>)
    requires ValidIIFE(src, callee, call)
    ensures call.optional || ShapeOfCallee(src, callee).NotExamined? ==> j == {}
  {
    if call.optional then {}
    else match ShapeOfCallee(src, callee)
      case NotExamined => {}
      case Bare =>
        ArgumentsJunction(src, call, callee.lastToken) + BodyJunction(src, callee, callee.lastToken)
        + AroundCallJunctions(src, call)
      case Wrapped(openParen, closeParen) =>
        WrappedJunctions(src, callee, openParen, closeParen)
        + ArgumentsJunction(src, call, closeParen) + BodyJunction(src, callee, closeParen)
        + AroundCallJunctions(src, call)
  }

  /** Every junction is an edge of some token. */
  lemma JunctionsAreTokenEdges(src: SourceCode, callee: FunctionCallee, call: CallExpression, x: nat)
    requires ValidIIFE(src, callee, call)
    requires x in IIFEJunctions(src, callee, call)
    ensures exists k :: 0 <= k < |src.tokens| && (x == src.tokens[k].startOffset || x == src.tokens[k].endOffset)
  {
    var b := PrevToken(src, call.firstToken);
    var a := NextToken(src, call.lastToken);
    if x in AroundCallJunctions(src, call) {
      if x == src.tokens[b.value].endOffset {
      } else if x == src.tokens[a.value].startOffset {
      }
    }
    match ShapeOfCallee(src, callee)
    case Wrapped(openParen, closeParen) =>
    case _ =>
  }

  /** The outcome of `validateIIFE` as the source is written. */
  datatype IIFEOutcome = Returned | ThrowsTypeError

  /**
   * `validateIIFE` as written: `isClosingParenToken` and `isOpeningParenToken`
   * are not exported by the utilities module, so they are `undefined`. The first
   * call to one throws, and for a non-optional call that happens before any junction
   * is added. The function is this outcome and nothing more; the finding it
   * supports is shown by `WrappedIIFEThrowsAsWritten`.
   */
  function ValidateIIFEAsWritten(call: CallExpression): (r: IIFEOutcome)
    ensures r.ThrowsTypeError? <==> !call.optional
  {
    if call.optional then Returned else ThrowsTypeError
  }

  /**
   * The callee's own parentheses in `(function () { })()`: once the corrected
   * `validateIIFE` has marked its junctions, no break is asked for just inside them.
   */
  lemma WrappedCalleeParensStayAttached(src: SourceCode, callee: FunctionCallee, call: CallExpression, junctions: set<nat>)
    requires ValidIIFE(src, callee, call) && !call.optional
    requires ShapeOfCallee(src, callee).Wrapped?
    requires IIFEJunctions(src, callee, call) <= junctions
    ensures var shape := ShapeOfCallee(src, callee);
      && shape.openParen < |src.tokens| && shape.closeParen < |src.tokens|
      && !AfterOpenFires(src, junctions, shape.openParen)
      && !BeforeCloseFires(src, junctions, shape.closeParen)
  {
    var shape := ShapeOfCallee(src, callee);
    assert src.tokens[shape.openParen].endOffset in WrappedJunctions(src, callee, shape.openParen, shape.closeParen);
    assert src.tokens[shape.closeParen].startOffset in WrappedJunctions(src, callee, shape.openParen, shape.closeParen);
  }

  /** The one-line program `(function(){})()`, nine tokens on line 1. */
  function WrappedIIFESource(): SourceCode
  {
    SourceCode(
      "(function(){})()", ["(function(){})()"], [0],
      [ Token(Punctuator, "(", Position(1, 0), Position(1, 1), 0, 1),
        Token(Keyword, "function", Position(1, 1), Position(1, 9), 1, 9),
        Token(Punctuator, "(", Position(1, 9), Position(1, 10), 9, 10),
        Token(Punctuator, ")", Position(1, 10), Position(1, 11), 10, 11),
        Token(Punctuator, "{", Position(1, 11), Position(1, 12), 11, 12),
        Token(Punctuator, "}", Position(1, 12), Position(1, 13), 12, 13),
        Token(Punctuator, ")", Position(1, 13), Position(1, 14), 13, 14),
        Token(Punctuator, "(", Position(1, 14), Position(1, 15), 14, 15),
        Token(Punctuator, ")", Position(1, 15), Position(1, 16), 15, 16) ],
      _ => NodeInfo(OtherNode, 0))
  }

  /**
   * On `(function(){})()` the rule as written throws, while the corrected
   * `validateIIFE` marks the callee's parentheses, the argument list and the body.
   */
  lemma WrappedIIFEThrowsAsWritten()
    ensures var src := WrappedIIFESource();
      var callee := FunctionCallee(1, 5, FunctionBody(true, 4, 5));
      var call := CallExpression(false, 0, 8);
      && ValidIIFE(src, callee, call)
      && ValidateIIFEAsWritten(call) == ThrowsTypeError
      && ShapeOfCallee(src, callee) == Wrapped(0, 6)
      && IIFEJunctions(src, callee, call) == {1, 11, 13, 14}
  {
    var src := WrappedIIFESource();
    var callee := FunctionCallee(1, 5, FunctionBody(true, 4, 5));
    var call := CallExpression(false, 0, 8);
    assert NextToken(src, 5) == Some(6);
    assert NextToken(src, 6) == Some(7);
    assert PrevToken(src, 1) == Some(0);
    assert PrevToken(src, 0) == None;
    assert AroundCallJunctions(src, call) == {};
  }

  class BracketLayoutRule {
    const src: SourceCode
    var validJunctionSet: set<nat>
    var reports: seq<LayoutReport>

    constructor (src: SourceCode)
      ensures this.src == src && validJunctionSet == {} && reports == []
    {
      this.src := src;
      validJunctionSet := {};
      reports := [];
    }

    /** The corrected `validateIIFE`: it only adds junctions, and none for an optional call. */
    method ValidateIIFE(callee: FunctionCallee, call: CallExpression)
      requires ValidIIFE(src, callee, call)
      modifies this
      ensures validJunctionSet == old(validJunctionSet) + IIFEJunctions(src, callee, call)
      ensures old(validJunctionSet) <= validJunctionSet
      ensures call.optional ==> validJunctionSet == old(validJunctionSet)
      ensures reports == old(reports)
    {
      if call.optional {
        return;
      }
      var proceed, tokenBeforeParamsOpeningParen := AddCalleeJunctions(callee);
      if proceed {
        AddOuterJunctions(callee, call, tokenBeforeParamsOpeningParen);
      }
    }

    /**
     * The callee part of `validateIIFE`: marks the edges of a callee wrapped in
     * its own parentheses and returns the token before the argument list, or
     * `proceed == false` where the source returns early.
     */
    method AddCalleeJunctions(callee: FunctionCallee) returns (proceed: bool, tokenBeforeParamsOpeningParen: nat)
      requires callee.firstToken <= callee.lastToken < |src.tokens|
      modifies this
      ensures proceed <==> !ShapeOfCallee(src, callee).NotExamined?
      ensures ShapeOfCallee(src, callee).Bare? ==>
        validJunctionSet == old(validJunctionSet) && tokenBeforeParamsOpeningParen == callee.lastToken
      ensures ShapeOfCallee(src, callee).Wrapped? ==>
        var shape := ShapeOfCallee(src, callee);
        && validJunctionSet == old(validJunctionSet) + WrappedJunctions(src, callee, shape.openParen, shape.closeParen)
        && tokenBeforeParamsOpeningParen == shape.closeParen
      ensures ShapeOfCallee(src, callee).NotExamined? ==> validJunctionSet == old(validJunctionSet)
      ensures tokenBeforeParamsOpeningParen < |src.tokens| && reports == old(reports)
    {
      var tokens := src.tokens;
      var outerCalleeFirstLine := tokens[callee.firstToken].start.line;
      var tokenAfterCallee := NextToken(src, callee.lastToken);
      proceed := true;
      if tokenAfterCallee.Some? && IsClosingParenToken(tokens[tokenAfterCallee.value]) {
        var calleeClosingParen := tokenAfterCallee.value;
        tokenBeforeParamsOpeningParen := calleeClosingParen;
        var tokenAfterCalleeClosingParen := NextToken(src, calleeClosingParen);
        if tokenAfterCalleeClosingParen.None? || !IsOpeningParenToken(tokens[tokenAfterCalleeClosingParen.value]) {
          proceed := false;
          return;
        }
        var calleeOpeningParen := PrevToken(src, callee.firstToken);
        if calleeOpeningParen.None? || tokens[calleeOpeningParen.value].end.line < outerCalleeFirstLine {
          proceed := false;
          return;
        }
        validJunctionSet := validJunctionSet + {tokens[calleeOpeningParen.value].endOffset};
        validJunctionSet := validJunctionSet + {tokens[callee.firstToken].startOffset};
        validJunctionSet := validJunctionSet + {tokens[callee.lastToken].endOffset};
        validJunctionSet := validJunctionSet + {tokens[calleeClosingParen].startOffset};
      } else {
        tokenBeforeParamsOpeningParen := callee.lastToken;
      }
    }

    /** The rest of `validateIIFE`: the argument list, the body and parentheses around the whole call. */
    method AddOuterJunctions(callee: FunctionCallee, call: CallExpression, tokenBeforeParamsOpeningParen: nat)
      requires ValidIIFE(src, callee, call) && tokenBeforeParamsOpeningParen < |src.tokens|
      modifies this
      ensures validJunctionSet == old(validJunctionSet)
        + ArgumentsJunction(src, call, tokenBeforeParamsOpeningParen)
        + BodyJunction(src, callee, tokenBeforeParamsOpeningParen)
        + AroundCallJunctions(src, call)
      ensures reports == old(reports)
    {
      var tokens := src.tokens;
      var outerCalleeFirstLine := tokens[callee.firstToken].start.line;
      var outerCalleeLastLine := tokens[tokenBeforeParamsOpeningParen].end.line;
      var paramsClosingParen := tokens[call.lastToken];
      if paramsClosingParen.end.line == outerCalleeLastLine {
        validJunctionSet := validJunctionSet + {tokens[tokenBeforeParamsOpeningParen].endOffset};
      }
      var body := callee.body;
      if body.isBlock {
        if tokens[body.firstToken].start.line == outerCalleeFirstLine
          && tokens[body.lastToken].end.line == outerCalleeLastLine
        {
          validJunctionSet := validJunctionSet + {tokens[body.firstToken].startOffset};
        }
      }
      var tokenBeforeCallExpr := PrevToken(src, call.firstToken);
      var tokenAfterCallExpr := NextToken(src, call.lastToken);
      if && tokenBeforeCallExpr.Some?
         && IsOpeningParenToken(tokens[tokenBeforeCallExpr.value])
         && IsTokenOnSameLine(tokens[tokenBeforeCallExpr.value], tokens[call.firstToken])
         && tokenAfterCallExpr.Some?
         && IsClosingParenToken(tokens[tokenAfterCallExpr.value])
         && IsTokenOnSameLine(tokens[call.lastToken], tokens[tokenAfterCallExpr.value])
      {
        validJunctionSet := validJunctionSet + {tokens[tokenBeforeCallExpr.value].endOffset};
        validJunctionSet := validJunctionSet + {tokens[call.firstToken].startOffset};
        validJunctionSet := validJunctionSet + {tokens[call.lastToken].endOffset};
        validJunctionSet := validJunctionSet + {tokens[tokenAfterCallExpr.value].startOffset};
      }
    }

    /** `validateProgramExit`: every bracket pair is checked against the junctions marked so far. */
    method ValidateProgramExit()
      modifies this
      ensures reports == old(reports) + PairReports(src, validJunctionSet, BracketPairs(src))
      ensures validJunctionSet == old(validJunctionSet)
    {
      var pairs := BracketPairsIn(src);
      var found := ValidatePairs(src, validJunctionSet, pairs);
      reports := reports + found;
    }
  }
}
