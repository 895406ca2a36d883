/**
 * The token predicates every rule reuses, and the bracket-pair resolver: one
 * left-to-right scan with an explicit stack that pairs `()`, `[]` and `{}`,
 * and pairs a `>` with the first token of its node when the node is a
 * type-parameter list.
 */
module Utils {

  import opened Source

  /** `isBracketToken`: a punctuator `(`, `)`, `>`, `[`, `]`, `{` or `}`; `<` is not one. */
  predicate IsBracketToken(t: Token)
  {
    t.tokenType.Punctuator? && t.value in {"(", ")", ">", "[", "]", "{", "}"}
  }

  /**
   * Exactly the seven punctuators `( ) > [ ] { }` are brackets; a `<` never is, nor is any non-punctuator.
   * This restates the table of `IsBracketToken` as a disjunction, for comparison with the source's list.
   */
  lemma BracketTokensAreTheSeven(t: Token)
    ensures IsBracketToken(t) <==>
      t.tokenType == Punctuator
      && (t.value == "(" || t.value == ")" || t.value == ">" || t.value == "[" || t.value == "]"
          || t.value == "{" || t.value == "}")
    ensures t.value == "<" ==> !IsBracketToken(t)
  {
  }

  /** `isColonToken` */
  predicate IsColonToken(t: Token)
  {
    t.value == ":" && t.tokenType.Punctuator?
  }

  /** `isTokenOnSameLine(left, right)`: `left` ends on the line where `right` starts. */
  predicate IsTokenOnSameLine(left: Token, right: Token)
  {
    left.end.line == right.start.line
  }

  /** A bracket that the scan pushes. */
  predicate IsOpening(src: SourceCode, k: nat)
    requires k < |src.tokens|
  {
    IsBracketToken(src.tokens[k]) && src.tokens[k].value in {"(", "[", "{"}
  }

  /** A bracket that the scan pops. */
  predicate IsStackClosing(src: SourceCode, k: nat)
    requires k < |src.tokens|
  {
    IsBracketToken(src.tokens[k]) && src.tokens[k].value in {")", "]", "}"}
  }

  predicate IsTypeParameterNode(n: NodeInfo)
  {
    n.nodeType.TSTypeParameterDeclaration? || n.nodeType.TSTypeParameterInstantiation?
  }

  /** A `>` whose node at its start offset is a type-parameter list. */
  predicate IsTypeClosing(src: SourceCode, k: nat)
    requires k < |src.tokens|
  {
    && IsBracketToken(src.tokens[k]) && src.tokens[k].value == ">"
    && IsTypeParameterNode(src.nodeAt(src.tokens[k].startOffset))
  }

  /**
   * A pair of token indices. `opening` is `None` where the source pops an
   * empty stack and yields `undefined`.
   */
  datatype BracketPair = BracketPair(opening: Option<nat>, closing: nat)

  datatype ScanState = ScanState(stack: seq<nat>, pairs: seq<BracketPair>)

  /** One iteration of the scan, for token `i`. */
  function Step(src: SourceCode, st: ScanState, i: nat): ScanState
    requires i < |src.tokens|
  {
    var t := src.tokens[i];
    if !IsBracketToken(t) then st
    else if t.value in {"(", "[", "{"} then ScanState(st.stack + [i], st.pairs)
    else if t.value == ">" then
      var node := src.nodeAt(t.startOffset);
      if IsTypeParameterNode(node) then ScanState(st.stack, st.pairs + [BracketPair(Some(node.firstToken), i)])
      else st
    else if st.stack == [] then ScanState([], st.pairs + [BracketPair(None, i)])
    else ScanState(st.stack[..|st.stack| - 1], st.pairs + [BracketPair(Some(st.stack[|st.stack| - 1]), i)])
  }

  /** The state of the scan after the first `n` tokens. */
  function ScanPrefix(src: SourceCode, n: nat): ScanState
    requires n <= |src.tokens|
  {
    if n == 0 then ScanState([], []) else Step(src, ScanPrefix(src, n - 1), n - 1)
  }

  /** What `bracketPairsIn` yields, in order. */
  function BracketPairs(src: SourceCode): seq<BracketPair>
  {
    ScanPrefix(src, |src.tokens|).pairs
  }

  /** `bracketPairsIn`: the stack scan itself. */
  method BracketPairsIn(src: SourceCode) returns (pairs: seq<BracketPair>)
    ensures pairs == BracketPairs(src)
  {
    var stack: seq<nat> := [];
    pairs := [];
    var i := 0;
    while i < |src.tokens|
      invariant i <= |src.tokens|
      invariant ScanState(stack, pairs) == ScanPrefix(src, i)
    {
      var token := src.tokens[i];
      if IsBracketToken(token) {
        if token.value == "(" || token.value == "[" || token.value == "{" {
          stack := stack + [i];
        } else if token.value == ">" {
          var node := src.nodeAt(token.startOffset);
          if IsTypeParameterNode(node) {
            pairs := pairs + [BracketPair(Some(node.firstToken), i)];
          }
        } else {
          var openingBracket: Option<nat> := None;
          if stack != [] {
            openingBracket := Some(stack[|stack| - 1]);
            stack := stack[..|stack| - 1];
          }
          pairs := pairs + [BracketPair(openingBracket, i)];
        }
      }
      i := i + 1;
    }
  }

  // ---------------------------------------------------------------------------
  // Properties of the scan

  /** Every pair's closing index lies in the scanned prefix, and closings strictly increase. */
  ghost predicate ClosingsOrdered(src: SourceCode, n: nat, ps: seq<BracketPair>)
  {
    && (forall a :: 0 <= a < |ps| ==> ps[a].closing < n)
    && (forall a, b :: 0 <= a < b < |ps| ==> ps[a].closing < ps[b].closing)
  }

  lemma {:induction false} ScanClosingsOrdered(src: SourceCode, n: nat)
    requires n <= |src.tokens|
    ensures ClosingsOrdered(src, n, ScanPrefix(src, n).pairs)
  {
    if n > 0 {
      ScanClosingsOrdered(src, n - 1);
    }
  }

  /** Pairs come out in the order of their closing tokens, each closing token at most once. */
  lemma PairsInClosingOrder(src: SourceCode)
    ensures forall a, b :: 0 <= a < b < |BracketPairs(src)| ==>
      BracketPairs(src)[a].closing < BracketPairs(src)[b].closing
    ensures forall a :: 0 <= a < |BracketPairs(src)| ==> BracketPairs(src)[a].closing < |src.tokens|
  {
    ScanClosingsOrdered(src, |src.tokens|);
  }

  ghost predicate YieldsClosing(ps: seq<BracketPair>, j: nat)
  {
    exists a :: 0 <= a < |ps| && ps[a].closing == j
  }

  lemma {:induction false} ScanYieldsExactlyTheClosings(src: SourceCode, n: nat)
    requires n <= |src.tokens|
    ensures forall j :: 0 <= j < n ==>
      (YieldsClosing(ScanPrefix(src, n).pairs, j) <==> IsStackClosing(src, j) || IsTypeClosing(src, j))
  {
    if n > 0 {
      ScanYieldsExactlyTheClosings(src, n - 1);
      ScanClosingsOrdered(src, n - 1);
      var prev := ScanPrefix(src, n - 1);
      var cur := ScanPrefix(src, n);
      assert cur == Step(src, prev, n - 1);
      forall j | 0 <= j < n
        ensures YieldsClosing(cur.pairs, j) <==> IsStackClosing(src, j) || IsTypeClosing(src, j)
      {
        if j < n - 1 {
          if YieldsClosing(cur.pairs, j) {
            var a :| 0 <= a < |cur.pairs| && cur.pairs[a].closing == j;
            assert a < |prev.pairs|;
            assert prev.pairs[a] == cur.pairs[a];
          }
          if YieldsClosing(prev.pairs, j) {
            var a :| 0 <= a < |prev.pairs| && prev.pairs[a].closing == j;
            assert cur.pairs[a] == prev.pairs[a];
          }
        } else {
          if YieldsClosing(cur.pairs, j) {
            var a :| 0 <= a < |cur.pairs| && cur.pairs[a].closing == j;
            assert a == |prev.pairs|;
          }
          if IsStackClosing(src, j) || IsTypeClosing(src, j) {
            assert cur.pairs[|prev.pairs|].closing == j;
          }
        }
      }
    }
  }

  /**
   * Every `)`, `]`, `}` and every type-parameter `>` is yielded exactly once,
   * and nothing else is yielded.
   */
  lemma EachClosingYieldedExactlyOnce(src: SourceCode, j: nat)
    requires j < |src.tokens|
    ensures YieldsClosing(BracketPairs(src), j) <==> IsStackClosing(src, j) || IsTypeClosing(src, j)
    ensures forall a, b ::
      (0 <= a < |BracketPairs(src)| && 0 <= b < |BracketPairs(src)| &&
       BracketPairs(src)[a].closing == j && BracketPairs(src)[b].closing == j) ==> a == b
  {
    ScanYieldsExactlyTheClosings(src, |src.tokens|);
    PairsInClosingOrder(src);
  }

  /** The shape of each pair: type pairs open at their node's first token, stack pairs at an opening bracket. */
  ghost predicate PairShapes(src: SourceCode, ps: seq<BracketPair>)
    requires forall a :: 0 <= a < |ps| ==> ps[a].closing < |src.tokens|
  {
    forall a :: 0 <= a < |ps| ==>
      var c := ps[a].closing;
      && (IsStackClosing(src, c) || IsTypeClosing(src, c))
      && (IsTypeClosing(src, c) ==>
            ps[a].opening == Some(src.nodeAt(src.tokens[c].startOffset).firstToken))
      && (IsStackClosing(src, c) && ps[a].opening.Some? ==>
            ps[a].opening.value < c && IsOpening(src, ps[a].opening.value))
  }

  /** The stack holds opening brackets of the scanned prefix, in increasing order. */
  ghost predicate StackShape(src: SourceCode, n: nat, stack: seq<nat>)
    requires n <= |src.tokens|
  {
    && (forall k :: 0 <= k < |stack| ==> stack[k] < n && IsOpening(src, stack[k]))
    && (forall k, l :: 0 <= k < l < |stack| ==> stack[k] < stack[l])
  }

  lemma {:induction false} ScanShapes(src: SourceCode, n: nat)
    requires n <= |src.tokens|
    ensures ClosingsOrdered(src, n, ScanPrefix(src, n).pairs)
    ensures PairShapes(src, ScanPrefix(src, n).pairs)
    ensures StackShape(src, n, ScanPrefix(src, n).stack)
  {
    ScanClosingsOrdered(src, n);
    if n > 0 {
      ScanShapes(src, n - 1);
      ScanClosingsOrdered(src, n - 1);
      StepKeepsShapes(src, ScanPrefix(src, n - 1), n - 1);
    }
  }

  /** One step of the scan keeps the shapes of the pairs and of the stack. */
  lemma StepKeepsShapes(src: SourceCode, prev: ScanState, i: nat)
    requires i < |src.tokens|
    requires ClosingsOrdered(src, i, prev.pairs) && PairShapes(src, prev.pairs) && StackShape(src, i, prev.stack)
    ensures var cur := Step(src, prev, i);
      && (forall a :: 0 <= a < |cur.pairs| ==> cur.pairs[a].closing <= i)
      && PairShapes(src, cur.pairs)
      && StackShape(src, i + 1, cur.stack)
  {
    ClosingShapesDistinct(src, i);
    var cur := Step(src, prev, i);
    if |cur.pairs| > |prev.pairs| {
      assert cur.pairs == prev.pairs + [cur.pairs[|prev.pairs|]];
      assert cur.pairs[|prev.pairs|].closing == i;
    } else {
      assert cur.pairs == prev.pairs;
    }
  }

  lemma ClosingShapesDistinct(src: SourceCode, j: nat)
    requires j < |src.tokens|
    ensures !(IsStackClosing(src, j) && IsTypeClosing(src, j))
    ensures !(IsOpening(src, j) && (IsStackClosing(src, j) || IsTypeClosing(src, j)))
  {
  }

  /** A `>` never pushes or pops: the stack is as it was before it. */
  lemma AngleBracketLeavesStack(src: SourceCode, i: nat)
    requires i < |src.tokens| && src.tokens[i].value == ">"
    ensures ScanPrefix(src, i + 1).stack == ScanPrefix(src, i).stack
    ensures IsTypeClosing(src, i) ==>
      ScanPrefix(src, i + 1).pairs ==
        ScanPrefix(src, i).pairs + [BracketPair(Some(src.nodeAt(src.tokens[i].startOffset).firstToken), i)]
    ensures !IsTypeClosing(src, i) ==> ScanPrefix(src, i + 1).pairs == ScanPrefix(src, i).pairs
  {
  }

  /** `k` is the opening of a stack pair in `ps`. */
  ghost predicate MatchedBy(src: SourceCode, ps: seq<BracketPair>, k: nat)
    requires forall a :: 0 <= a < |ps| ==> ps[a].closing < |src.tokens|
  {
    exists a :: 0 <= a < |ps| && ps[a].opening == Some(k) && IsStackClosing(src, ps[a].closing)
  }

  /**
   * `o` is the most recent opening bracket before `c` that the pairs already
   * yielded, `ps`, have not matched.
   */
  ghost predicate MostRecentUnmatched(src: SourceCode, ps: seq<BracketPair>, c: nat, o: nat)
    requires c < |src.tokens|
    requires forall a :: 0 <= a < |ps| ==> ps[a].closing < |src.tokens|
  {
    && o < c && IsOpening(src, o) && !MatchedBy(src, ps, o)
    && forall k :: o < k < c && IsOpening(src, k) ==> MatchedBy(src, ps, k)
  }

  /** The stack is exactly the unmatched opening brackets of the prefix. */
  ghost predicate StackIsUnmatched(src: SourceCode, n: nat, st: ScanState)
    requires n <= |src.tokens|
    requires forall a :: 0 <= a < |st.pairs| ==> st.pairs[a].closing < |src.tokens|
  {
    forall k :: 0 <= k < n && IsOpening(src, k) ==> (k in st.stack <==> !MatchedBy(src, st.pairs, k))
  }

  /** Each stack pair pairs its closing bracket with the most recent unmatched opening one. */
  ghost predicate StackDiscipline(src: SourceCode, ps: seq<BracketPair>)
    requires forall a :: 0 <= a < |ps| ==> ps[a].closing < |src.tokens|
  {
    forall a :: 0 <= a < |ps| && IsStackClosing(src, ps[a].closing) ==>
      match ps[a].opening
      case Some(o) => MostRecentUnmatched(src, ps[..a], ps[a].closing, o)
      case None => forall k :: 0 <= k < ps[a].closing && IsOpening(src, k) ==> MatchedBy(src, ps[..a], k)
  }

  lemma MatchedByExtend(src: SourceCode, ps: seq<BracketPair>, p: BracketPair, k: nat)
    requires forall a :: 0 <= a < |ps| ==> ps[a].closing < |src.tokens|
    requires p.closing < |src.tokens|
    ensures MatchedBy(src, ps + [p], k) <==>
      MatchedBy(src, ps, k) || (p.opening == Some(k) && IsStackClosing(src, p.closing))
  {
    var qs := ps + [p];
    if MatchedBy(src, qs, k) {
      var a :| 0 <= a < |qs| && qs[a].opening == Some(k) && IsStackClosing(src, qs[a].closing);
      if a < |ps| {
        assert ps[a] == qs[a];
      }
    }
    if MatchedBy(src, ps, k) {
      var a :| 0 <= a < |ps| && ps[a].opening == Some(k) && IsStackClosing(src, ps[a].closing);
      assert qs[a] == ps[a];
    }
    if p.opening == Some(k) && IsStackClosing(src, p.closing) {
      assert qs[|ps|] == p;
    }
  }

  /** Appending a pair that keeps the discipline with respect to the earlier pairs. */
  lemma DisciplineExtend(src: SourceCode, ps: seq<BracketPair>, p: BracketPair)
    requires forall a :: 0 <= a < |ps| ==> ps[a].closing < |src.tokens|
    requires p.closing < |src.tokens|
    requires StackDiscipline(src, ps)
    requires IsStackClosing(src, p.closing) ==>
      match p.opening
      case Some(o) => MostRecentUnmatched(src, ps, p.closing, o)
      case None => forall k :: 0 <= k < p.closing && IsOpening(src, k) ==> MatchedBy(src, ps, k)
    ensures StackDiscipline(src, ps + [p])
  {
    var qs := ps + [p];
    assert qs[..|ps|] == ps;
    forall a | 0 <= a < |ps|
      ensures qs[..a] == ps[..a] && qs[a] == ps[a]
    {
    }
  }

  /** Pushing `i` keeps the stack equal to the unmatched opening brackets. */
  lemma PushKeepsUnmatched(src: SourceCode, i: nat, prev: ScanState)
    requires i < |src.tokens| && IsOpening(src, i)
    requires ClosingsOrdered(src, i, prev.pairs)
    requires PairShapes(src, prev.pairs)
    requires StackIsUnmatched(src, i, prev)
    ensures StackIsUnmatched(src, i + 1, ScanState(prev.stack + [i], prev.pairs))
  {
    assert !MatchedBy(src, prev.pairs, i);
  }

  /** A type-parameter pair leaves the stack alone and matches no stack opening. */
  lemma TypePairKeepsUnmatched(src: SourceCode, i: nat, prev: ScanState, p: BracketPair)
    requires i < |src.tokens| && IsTypeClosing(src, i) && p.closing == i
    requires ClosingsOrdered(src, i, prev.pairs)
    requires StackIsUnmatched(src, i, prev)
    ensures StackIsUnmatched(src, i + 1, ScanState(prev.stack, prev.pairs + [p]))
  {
    ClosingShapesDistinct(src, i);
    forall k | 0 <= k < i + 1 && IsOpening(src, k)
      ensures k in prev.stack <==> !MatchedBy(src, prev.pairs + [p], k)
    {
      MatchedByExtend(src, prev.pairs, p, k);
    }
  }

  /** Popping the top of the stack for closing bracket `i`. */
  lemma PopKeepsUnmatched(src: SourceCode, i: nat, prev: ScanState)
    requires i < |src.tokens| && IsStackClosing(src, i)
    requires ClosingsOrdered(src, i, prev.pairs)
    requires StackShape(src, i, prev.stack)
    requires StackIsUnmatched(src, i, prev)
    ensures var cur := Step(src, prev, i);
      && StackIsUnmatched(src, i + 1, cur)
      && match cur.pairs[|cur.pairs| - 1].opening
         case Some(o) => MostRecentUnmatched(src, prev.pairs, i, o)
         case None => forall k :: 0 <= k < i && IsOpening(src, k) ==> MatchedBy(src, prev.pairs, k)
  {
    var cur := Step(src, prev, i);
    ClosingShapesDistinct(src, i);
    var opening := if prev.stack == [] then None else Some(prev.stack[|prev.stack| - 1]);
    var p := BracketPair(opening, i);
    assert cur.pairs == prev.pairs + [p];
    forall k | 0 <= k < i + 1 && IsOpening(src, k)
      ensures k in cur.stack <==> !MatchedBy(src, cur.pairs, k)
    {
      MatchedByExtend(src, prev.pairs, p, k);
      if prev.stack != [] {
        var top := |prev.stack| - 1;
        if k in cur.stack {
          var x :| 0 <= x < |cur.stack| && cur.stack[x] == k;
          assert prev.stack[x] == k;
        }
        if k in prev.stack && k != prev.stack[top] {
          var x :| 0 <= x < |prev.stack| && prev.stack[x] == k;
          assert x < top;
          assert cur.stack[x] == k;
        }
      }
    }
    match opening
    case Some(o) =>
      forall k | o < k < i && IsOpening(src, k)
        ensures MatchedBy(src, prev.pairs, k)
      {
      }
      assert o in prev.stack;
    case None =>
  }

  lemma {:induction false} ScanStackDiscipline(src: SourceCode, n: nat)
    requires n <= |src.tokens|
    ensures ClosingsOrdered(src, n, ScanPrefix(src, n).pairs)
    ensures StackIsUnmatched(src, n, ScanPrefix(src, n))
    ensures StackDiscipline(src, ScanPrefix(src, n).pairs)
  {
    ScanShapes(src, n);
    if n > 0 {
      var i := n - 1;
      ScanStackDiscipline(src, i);
      ScanShapes(src, i);
      var prev := ScanPrefix(src, i);
      var cur := ScanPrefix(src, n);
      assert cur == Step(src, prev, i);
      var t := src.tokens[i];
      if !IsBracketToken(t) {
      } else if t.value in {"(", "[", "{"} {
        PushKeepsUnmatched(src, i, prev);
      } else if t.value == ">" {
        var node := src.nodeAt(t.startOffset);
        if IsTypeParameterNode(node) {
          var p := BracketPair(Some(node.firstToken), i);
          ClosingShapesDistinct(src, i);
          TypePairKeepsUnmatched(src, i, prev, p);
          DisciplineExtend(src, prev.pairs, p);
        }
      } else {
        PopKeepsUnmatched(src, i, prev);
        DisciplineExtend(src, prev.pairs, cur.pairs[|cur.pairs| - 1]);
        assert cur.pairs == prev.pairs + [cur.pairs[|cur.pairs| - 1]];
      }
    }
  }

  /**
   * Stack discipline: every `)`, `]` or `}` is paired with the most recent
   * opening bracket that no earlier pair has taken, or with nothing (`None`)
   * when every earlier opening bracket is taken.
   */
  lemma PairsFollowStackDiscipline(src: SourceCode)
    ensures forall a :: 0 <= a < |BracketPairs(src)| ==> BracketPairs(src)[a].closing < |src.tokens|
    ensures StackDiscipline(src, BracketPairs(src))
  {
    ScanStackDiscipline(src, |src.tokens|);
  }

  lemma MatchedByPrefix(src: SourceCode, ps: seq<BracketPair>, a: nat, b: nat, k: nat)
    requires a <= b <= |ps|
    requires forall x :: 0 <= x < |ps| ==> ps[x].closing < |src.tokens|
    requires MatchedBy(src, ps[..a], k)
    ensures MatchedBy(src, ps[..b], k)
  {
    var x :| 0 <= x < a && ps[..a][x].opening == Some(k) && IsStackClosing(src, ps[..a][x].closing);
    assert ps[..b][x] == ps[x] == ps[..a][x];
  }

  /** A `()[]{}` pair with an opening token. */
  predicate IsMatchedStackPair(src: SourceCode, p: BracketPair)
  {
    p.closing < |src.tokens| && IsStackClosing(src, p.closing) && p.opening.Some?
  }

  /**
   * Two `()[]{}` pairs are either disjoint or nested: the later-closing pair
   * either opens after the earlier one closed or opens before it.
   */
  lemma PairsNestOrAreDisjoint(src: SourceCode, a: nat, b: nat)
    requires a < b < |BracketPairs(src)|
    requires IsMatchedStackPair(src, BracketPairs(src)[a]) && IsMatchedStackPair(src, BracketPairs(src)[b])
    ensures var ps := BracketPairs(src);
      var oa, ca := ps[a].opening.value, ps[a].closing;
      var ob, cb := ps[b].opening.value, ps[b].closing;
      oa < ca < cb && ob < cb && (ca < ob || ob < oa)
  {
    var ps := BracketPairs(src);
    PairsFollowStackDiscipline(src);
    PairsInClosingOrder(src);
    var oa, ca := ps[a].opening.value, ps[a].closing;
    var ob, cb := ps[b].opening.value, ps[b].closing;
    assert MostRecentUnmatched(src, ps[..a], ca, oa);
    assert MostRecentUnmatched(src, ps[..b], cb, ob);
    assert ps[..b][a] == ps[a];
    assert MatchedBy(src, ps[..b], oa);
    if oa < ob < ca {
      assert MatchedBy(src, ps[..a], ob);
      MatchedByPrefix(src, ps, a, b, ob);
      assert false;
    }
    if ob == ca {
      ClosingShapesDistinct(src, ca);
      assert false;
    }
  }

  /**
   * Opening `(`,`[`,`{` minus closing `)`,`]`,`}` among the first `n` tokens;
   * `>` counts for neither.
   */
  function Excess(src: SourceCode, n: nat): int
    requires n <= |src.tokens|
  {
    if n == 0 then 0
    else if IsOpening(src, n - 1) then Excess(src, n - 1) + 1
    else if IsStackClosing(src, n - 1) then Excess(src, n - 1) - 1
    else Excess(src, n - 1)
  }

  /** Every closing bracket has an opening bracket before it to match. */
  ghost predicate NeverUnderflows(src: SourceCode, n: nat)
    requires n <= |src.tokens|
  {
    forall m :: 0 <= m <= n ==> Excess(src, m) >= 0
  }

  lemma {:induction false} ScanDepth(src: SourceCode, n: nat)
    requires n <= |src.tokens|
    requires NeverUnderflows(src, n)
    ensures |ScanPrefix(src, n).stack| == Excess(src, n)
    ensures forall a :: 0 <= a < |ScanPrefix(src, n).pairs| ==>
      ScanPrefix(src, n).pairs[a].opening.Some?
  {
    if n > 0 {
      assert NeverUnderflows(src, n - 1);
      ScanDepth(src, n - 1);
      ClosingShapesDistinct(src, n - 1);
      assert ScanPrefix(src, n) == Step(src, ScanPrefix(src, n - 1), n - 1);
      assert Excess(src, n) >= 0;
    }
  }

  /**
   * With balanced `()[]{}` the stack is empty after the scan, and every pair
   * has an opening token.
   */
  lemma BalancedInputEmptiesStack(src: SourceCode)
    requires NeverUnderflows(src, |src.tokens|) && Excess(src, |src.tokens|) == 0
    ensures ScanPrefix(src, |src.tokens|).stack == []
    ensures forall a :: 0 <= a < |BracketPairs(src)| ==> BracketPairs(src)[a].opening.Some?
  {
    ScanDepth(src, |src.tokens|);
  }
}
