/**
 * The `indent` rule. An array of expected indents, one entry per 1-based
 * line, starts at `option * 4`. Listeners add 4 for non-block statement
 * bodies and subtract 4 for `case` heads. At program exit the rule adds 4 inside
 * every bracket that is opened at the end of a line, deletes the entries of
 * lines inside templates and multi-line comments, and reconciles every line
 * against its actual leading white space. Block comments are shifted with
 * their line.
 */
module Indent {

  import opened Source
  import opened Whitespace
  import opened Utils

  const IndentUnit: int := 4

  /** `getActualIndent`: the length of the leading `\s*` run of a line. */
  function GetActualIndent(s: string): (n: nat)
    ensures n <= |s|
    ensures forall i :: 0 <= i < n ==> IsWhitespace(s[i])
    ensures n < |s| ==> !IsWhitespace(s[n])
  {
    if s == [] || !IsWhitespace(s[0]) then 0 else 1 + GetActualIndent(s[1..])
  }

  /** The leading run is the only prefix that is white space followed by a non-blank or the end. */
  lemma ActualIndentUnique(s: string, k: nat)
    requires k <= |s|
    requires forall i :: 0 <= i < k ==> IsWhitespace(s[i])
    requires k < |s| ==> !IsWhitespace(s[k])
    ensures GetActualIndent(s) == k
  {
  }

  /**
   * After the line fix, the line's leading white space is exactly `expected`
   * spaces: running the rule again reports nothing for this line.
   */
  lemma LineFixAligns(s: string, expected: nat)
    requires GetActualIndent(s) < |s|
    ensures GetActualIndent(Spaces(expected) + s[GetActualIndent(s)..]) == expected
  {
    var t := Spaces(expected) + s[GetActualIndent(s)..];
    assert t[expected] == s[GetActualIndent(s)];
    ActualIndentUnique(t, expected);
  }

  /** `expectedIndents[line] += d`; a deleted entry stays deleted. */
  function Plus(e: Option<int>, d: int): Option<int>
  {
    if e.Some? then Some(e.value + d) else None
  }

  /** The result of `expectIndents(first, last, d)` on the entries `s`. */
  function AddRange(s: seq<Option<int>>, first: int, last: int, d: int): (r: seq<Option<int>>)
    ensures |r| == |s|
  {
    seq(|s|, l requires 0 <= l < |s| => if 1 <= l && first <= l <= last then Plus(s[l], d) else s[l])
  }

  /** The result of `unexpectIndents(first, last)` on the entries `s`. */
  function DeleteRange(s: seq<Option<int>>, first: int, last: int): (r: seq<Option<int>>)
    ensures |r| == |s|
  {
    seq(|s|, l requires 0 <= l < |s| => if 1 <= l && first <= l <= last then None else s[l])
  }

  datatype LineRange = LineRange(first: int, last: int)

  /** The number of ranges in `rs` that contain line `l`. */
  function Count(rs: seq<LineRange>, l: int): nat
  {
    if rs == [] then 0
    else Count(rs[..|rs| - 1], l) + (if rs[|rs| - 1].first <= l <= rs[|rs| - 1].last then 1 else 0)
  }

  predicate CoveredBy(rs: seq<LineRange>, l: int)
  {
    exists k :: 0 <= k < |rs| && rs[k].first <= l <= rs[k].last
  }

  /** `expectIndents` applied to each range in turn. */
  function AddRanges(s: seq<Option<int>>, rs: seq<LineRange>, d: int): (r: seq<Option<int>>)
    ensures |r| == |s|
  {
    if rs == [] then s
    else AddRange(AddRanges(s, rs[..|rs| - 1], d), rs[|rs| - 1].first, rs[|rs| - 1].last, d)
  }

  /** `unexpectIndents` applied to each range in turn. */
  function DeleteRanges(s: seq<Option<int>>, rs: seq<LineRange>): (r: seq<Option<int>>)
    ensures |r| == |s|
  {
    if rs == [] then s
    else DeleteRange(DeleteRanges(s, rs[..|rs| - 1]), rs[|rs| - 1].first, rs[|rs| - 1].last)
  }

  /** Each line gains `d` once for every range that contains it; line 0 is never touched. */
  lemma {:induction false} AddRangesCounts(s: seq<Option<int>>, rs: seq<LineRange>, d: int, l: int)
    requires 0 <= l < |s|
    ensures AddRanges(s, rs, d)[l] ==
      if 1 <= l && s[l].Some? then Some(s[l].value + d * Count(rs, l)) else s[l]
  {
    if rs != [] {
      AddRangesCounts(s, rs[..|rs| - 1], d, l);
    }
  }

  /** An entry is deleted exactly when some range contains its line. */
  lemma {:induction false} DeleteRangesCovers(s: seq<Option<int>>, rs: seq<LineRange>, l: int)
    requires 0 <= l < |s|
    ensures DeleteRanges(s, rs)[l] == if 1 <= l && CoveredBy(rs, l) then None else s[l]
  {
    if rs != [] {
      var init := rs[..|rs| - 1];
      DeleteRangesCovers(s, init, l);
      if CoveredBy(init, l) {
        var k :| 0 <= k < |init| && init[k].first <= l <= init[k].last;
        assert rs[k] == init[k];
      }
      if CoveredBy(rs, l) && !(rs[|rs| - 1].first <= l <= rs[|rs| - 1].last) {
        var k :| 0 <= k < |rs| && rs[k].first <= l <= rs[k].last;
        assert init[k] == rs[k];
      }
    }
  }

  // ---------------------------------------------------------------------------
  // Token positions

  /** `isFirstTokenOrCommentInLine`: nothing, not even a comment, precedes it on its line. */
  predicate IsFirstTokenOrCommentInLine(src: SourceCode, k: nat)
    requires k < |src.tokens|
  {
    match PrevTokenOrComment(src, k)
    case None => true
    case Some(b) => !IsTokenOnSameLine(src.tokens[b], src.tokens[k])
  }

  /** `isLastTokenInLine`: no token (comments aside) follows it on its line. */
  predicate IsLastTokenInLine(src: SourceCode, k: nat)
    requires k < |src.tokens|
  {
    match NextToken(src, k)
    case None => true
    case Some(a) => !IsTokenOnSameLine(src.tokens[k], src.tokens[a])
  }

  /** The first index of the run of comments that directly precedes token `f` (`getCommentsBefore`). */
  function CommentsBefore(src: SourceCode, f: nat): (c: nat)
    requires f < |src.tokens|
    ensures c <= f
    ensures forall k :: c <= k < f ==> IsComment(src.tokens[k])
    ensures c == 0 || !IsComment(src.tokens[c - 1])
  {
    if f == 0 || !IsComment(src.tokens[f - 1]) then f else CommentsBefore(src, f - 1)
  }

  function FirstInLineFrom(src: SourceCode, k: nat, f: nat): (r: Option<nat>)
    requires k <= f < |src.tokens|
    ensures r.Some? ==> k <= r.value <= f && IsFirstTokenOrCommentInLine(src, r.value)
    ensures r.Some? ==> forall j :: k <= j < r.value ==> !IsFirstTokenOrCommentInLine(src, j)
    ensures r.None? ==> forall j :: k <= j <= f ==> !IsFirstTokenOrCommentInLine(src, j)
    decreases f - k
  {
    if IsFirstTokenOrCommentInLine(src, k) then Some(k)
    else if k == f then None
    else FirstInLineFrom(src, k + 1, f)
  }

  /**
   * `findLeadingNodeOrComment` for a node whose first token is `f`: the first of
   * the comments before the node, and the node itself, that begins its line.
   */
  function FindLeadingNodeOrComment(src: SourceCode, f: nat): (r: Option<nat>)
    requires f < |src.tokens|
    ensures r.Some? ==> CommentsBefore(src, f) <= r.value <= f && IsFirstTokenOrCommentInLine(src, r.value)
    ensures r.Some? ==> forall j :: CommentsBefore(src, f) <= j < r.value ==> !IsFirstTokenOrCommentInLine(src, j)
    ensures r.None? ==> forall j :: CommentsBefore(src, f) <= j <= f ==> !IsFirstTokenOrCommentInLine(src, j)
  {
    FirstInLineFrom(src, CommentsBefore(src, f), f)
  }

  /** A node that begins its own line is its own leading node. */
  lemma LeadingIsNodeWhenNothingPrecedesIt(src: SourceCode, f: nat)
    requires f < |src.tokens| && CommentsBefore(src, f) == f
    ensures FindLeadingNodeOrComment(src, f) == if IsFirstTokenOrCommentInLine(src, f) then Some(f) else None
  {
  }

  // ---------------------------------------------------------------------------
  // The ranges the listeners adjust

  /** The lines that get +4 for the pair `p`, when its opening bracket ends its line. */
  function BracketRange(src: SourceCode, p: BracketPair): Option<LineRange>
  {
    if p.opening.Some? && p.opening.value < |src.tokens| && 0 < p.closing < |src.tokens|
      && IsLastTokenInLine(src, p.opening.value)
    then Some(LineRange(src.tokens[p.opening.value].end.line + 1, src.tokens[p.closing - 1].end.line))
    else None
  }

  function BracketRangesOf(src: SourceCode, ps: seq<BracketPair>): seq<LineRange>
  {
    if ps == [] then []
    else
      var init := BracketRangesOf(src, ps[..|ps| - 1]);
      match BracketRange(src, ps[|ps| - 1])
      case Some(r) => init + [r]
      case None => init
  }

  /** The lines `start + 1 .. end` of every template token. */
  function TemplateRanges(src: SourceCode, n: nat): seq<LineRange>
    requires n <= |src.tokens|
  {
    if n == 0 then []
    else if src.tokens[n - 1].tokenType.Template? then
      TemplateRanges(src, n - 1) + [LineRange(src.tokens[n - 1].start.line + 1, src.tokens[n - 1].end.line)]
    else TemplateRanges(src, n - 1)
  }

  predicate IsMultilineComment(t: Token)
  {
    IsComment(t) && t.start.line < t.end.line
  }

  /** The lines `start + 1 .. end` of every multi-line comment. */
  function CommentRanges(src: SourceCode, n: nat): seq<LineRange>
    requires n <= |src.tokens|
  {
    if n == 0 then []
    else if IsMultilineComment(src.tokens[n - 1]) then
      CommentRanges(src, n - 1) + [LineRange(src.tokens[n - 1].start.line + 1, src.tokens[n - 1].end.line)]
    else CommentRanges(src, n - 1)
  }

  /** `multilineComments`: the multi-line comment that starts on each line. */
  function MultilineComments(src: SourceCode, n: nat): map<nat, nat>
    requires n <= |src.tokens|
  {
    if n == 0 then map[]
    else if IsMultilineComment(src.tokens[n - 1]) then
      MultilineComments(src, n - 1)[src.tokens[n - 1].start.line := n - 1]
    else MultilineComments(src, n - 1)
  }

  lemma {:induction false} MultilineCommentsAreComments(src: SourceCode, n: nat)
    requires n <= |src.tokens|
    ensures forall l :: l in MultilineComments(src, n) ==>
      && MultilineComments(src, n)[l] < n
      && IsMultilineComment(src.tokens[MultilineComments(src, n)[l]])
      && src.tokens[MultilineComments(src, n)[l]].start.line == l
  {
    if n > 0 {
      MultilineCommentsAreComments(src, n - 1);
    }
  }

  // ---------------------------------------------------------------------------
  // Reports and fixes

  /** A block comment's report: unindent when `diff > 0`, indent otherwise. */
  datatype IndentReport =
    | LineIndent(line: nat, actual: nat, expected: nat, fix: Fix)
    | CommentIndent(comment: nat, diff: int, leading: bool, fixes: seq<Fix>)

  datatype LineEdit = LineEdit(fix: Fix, shift: int)

  /** The fix for one line of a block comment, and the shift recorded for that line. */
  function CommentLineEdit(src: SourceCode, line: nat, diff: int): LineEdit
    requires 1 <= line <= |src.lines| == |src.lineStarts|
  {
    var start := src.lineStarts[line - 1];
    if diff > 0 then
      var actual := GetActualIndent(src.lines[line - 1]);
      var shift := if diff < actual then diff else actual;
      LineEdit(Fix(start, start + shift, ""), shift)
    else
      LineEdit(Fix(start, start, Spaces(-diff)), diff)
  }

  /** The fixes `reportBlockComment` yields for the lines `first .. last`. */
  function CommentFixes(src: SourceCode, first: nat, last: nat, diff: int): (r: seq<Fix>)
    requires 1 <= first && last <= |src.lines| == |src.lineStarts|
    ensures |r| == if first <= last then last - first + 1 else 0
    decreases last
  {
    if last < first then [] else CommentFixes(src, first, last - 1, diff) + [CommentLineEdit(src, last, diff).fix]
  }

  /** `shifts` after `reportBlockComment` has recorded the lines `first .. last`. */
  function CommentShifts(src: SourceCode, shifts: map<nat, int>, first: nat, last: nat, diff: int): map<nat, int>
    requires 1 <= first && last <= |src.lines| == |src.lineStarts|
    decreases last
  {
    if last < first then shifts
    else CommentShifts(src, shifts, first, last - 1, diff)[last := CommentLineEdit(src, last, diff).shift]
  }

  /**
   * Fix `k` of a block comment acts at the start of line `first + k`. Unindenting
   * removes `min(diff, actual indent)` characters, all white space. Indenting
   * inserts exactly `-diff` spaces.
   */
  lemma {:induction false} CommentFixesShape(src: SourceCode, first: nat, last: nat, diff: int, k: nat)
    requires WellFormed(src)
    requires 1 <= first && last <= |src.lines|
    requires k < |CommentFixes(src, first, last, diff)|
    ensures var f := CommentFixes(src, first, last, diff)[k];
      var line := first + k;
      var actual := GetActualIndent(src.lines[line - 1]);
      && line <= last
      && f.start == src.lineStarts[line - 1]
      && (diff > 0 ==>
            && f.text == ""
            && f.end - f.start == (if diff < actual then diff else actual)
            && f.end <= |src.text|
            && forall i :: f.start <= i < f.end ==> IsWhitespace(src.text[i]))
      && (diff <= 0 ==> f.end == f.start && f.text == Spaces(-diff))
    decreases last
  {
    var fixes := CommentFixes(src, first, last, diff);
    if k < |fixes| - 1 {
      CommentFixesShape(src, first, last - 1, diff, k);
      assert fixes[k] == CommentFixes(src, first, last - 1, diff)[k];
    } else {
      var line := first + k;
      assert line == last;
      assert LineWellFormed(src, line - 1);
      var f := fixes[k];
      if diff > 0 {
        forall i | f.start <= i < f.end
          ensures IsWhitespace(src.text[i])
        {
          assert src.text[i] == src.lines[line - 1][i - f.start];
        }
      }
    }
  }

  /** Each recorded shift: what was removed from that line, or `diff` when indenting. */
  lemma {:induction false} CommentShiftsRecorded(src: SourceCode, shifts: map<nat, int>, first: nat, last: nat, diff: int, l: nat)
    requires 1 <= first && last <= |src.lines| == |src.lineStarts|
    ensures var m := CommentShifts(src, shifts, first, last, diff);
      && (first <= l <= last ==> l in m && m[l] == CommentLineEdit(src, l, diff).shift)
      && (!(first <= l <= last) ==> (l in m <==> l in shifts) && (l in m ==> m[l] == shifts[l]))
    decreases last
  {
    if first <= last {
      CommentShiftsRecorded(src, shifts, first, last - 1, diff, l);
    }
  }

  /** The first line `reportBlockComment` touches: the start line for a leading comment, else the next. */
  function CommentFirstLine(src: SourceCode, comment: nat, leading: bool): nat
    requires comment < |src.tokens|
  {
    if leading then src.tokens[comment].start.line else src.tokens[comment].start.line + 1
  }

  datatype ReconcileState = ReconcileState(reports: seq<IndentReport>, shifts: map<nat, int>)

  /** The report `reportBlockComment(shifts, comment, diff, leading)` makes: one fix per line it touches. */
  function CommentReport(src: SourceCode, comment: nat, diff: int, leading: bool): IndentReport
    requires WellFormed(src) && comment < |src.tokens|
  {
    assert TokenWellFormed(src, src.tokens[comment]);
    CommentIndent(comment, diff, leading,
      CommentFixes(src, CommentFirstLine(src, comment, leading), src.tokens[comment].end.line, diff))
  }

  /** `reportBlockComment(shifts, comment, diff, leading)`. */
  function BlockCommentStep(src: SourceCode, st: ReconcileState, comment: nat, diff: int, leading: bool): ReconcileState
    requires WellFormed(src) && comment < |src.tokens|
  {
    assert TokenWellFormed(src, src.tokens[comment]);
    var first := CommentFirstLine(src, comment, leading);
    var last := src.tokens[comment].end.line;
    ReconcileState(
      st.reports + [CommentReport(src, comment, diff, leading)],
      CommentShifts(src, st.shifts, first, last, diff))
  }

  /** `multilineComments[line]`, the multi-line comment that starts on `line`, if any. */
  function CommentAt(src: SourceCode, mlc: map<nat, nat>, line: nat): (r: Option<nat>)
    ensures r.Some? ==> r.value < |src.tokens|
  {
    if line in mlc && mlc[line] < |src.tokens| then Some(mlc[line]) else None
  }

  predicate IsLeadingCommentAt(src: SourceCode, mlc: map<nat, nat>, line: nat)
  {
    CommentAt(src, mlc, line).Some? && IsFirstTokenOrCommentInLine(src, CommentAt(src, mlc, line).value)
  }

  /** `max(expected, 0)`: a negative expected indent counts as 0. */
  function Clamp(e: int): nat
  {
    if e < 0 then 0 else e
  }

  /** A code line whose indent must be fixed by a line fix. */
  predicate NeedsLineFix(src: SourceCode, exp: seq<Option<int>>, mlc: map<nat, nat>, line: nat)
    requires 1 <= line <= |src.lines| && |exp| == |src.lines| + 1
  {
    var actual := GetActualIndent(src.lines[line - 1]);
    && exp[line].Some?
    && actual != Clamp(exp[line].value)
    && actual != |src.lines[line - 1]|
    && !IsLeadingCommentAt(src, mlc, line)
  }

  /** The report `reportLine` makes for a line. */
  function ExpectedLineReport(src: SourceCode, exp: seq<Option<int>>, line: nat): IndentReport
    requires 1 <= line <= |src.lines| == |src.lineStarts| && |exp| == |src.lines| + 1
    requires exp[line].Some?
  {
    var actual := GetActualIndent(src.lines[line - 1]);
    var expected := Clamp(exp[line].value);
    var start := src.lineStarts[line - 1];
    LineIndent(line, actual, expected, Fix(start, start + actual, Spaces(expected)))
  }

  /**
   * The first half of an iteration of the per-line loop: a line whose indent
   * differs from its expected indent gets its report (a leading multi-line
   * comment's is that comment's), and the difference is recorded as its shift.
   */
  function IndentStep(src: SourceCode, exp: seq<Option<int>>, mlc: map<nat, nat>, st: ReconcileState, line: nat): ReconcileState
    requires WellFormed(src)
    requires 1 <= line <= |src.lines| && |exp| == |src.lines| + 1
  {
    if exp[line].Some? then
      var expected := Clamp(exp[line].value);
      var actual := GetActualIndent(src.lines[line - 1]);
      var shift := actual - expected;
      if shift != 0 && actual != |src.lines[line - 1]| then
        if IsLeadingCommentAt(src, mlc, line) then BlockCommentStep(src, st, CommentAt(src, mlc, line).value, shift, true)
        else ReconcileState(st.reports + [ExpectedLineReport(src, exp, line)], st.shifts[line := shift])
      else st
    else st
  }

  /** The second half: a trailing multi-line comment follows the shift recorded for its line. */
  function TrailingCommentStep(src: SourceCode, mlc: map<nat, nat>, st: ReconcileState, line: nat): ReconcileState
    requires WellFormed(src)
    requires 1 <= line <= |src.lines|
  {
    var comment := CommentAt(src, mlc, line);
    if comment.Some? && !IsLeadingCommentAt(src, mlc, line) && line in st.shifts && st.shifts[line] != 0 then
      BlockCommentStep(src, st, comment.value, st.shifts[line], false)
    else st
  }

  /** One iteration of the per-line loop of the program-exit handler. */
  function LineStep(src: SourceCode, exp: seq<Option<int>>, mlc: map<nat, nat>, st: ReconcileState, line: nat): ReconcileState
    requires WellFormed(src)
    requires 1 <= line <= |src.lines| && |exp| == |src.lines| + 1
  {
    TrailingCommentStep(src, mlc, IndentStep(src, exp, mlc, st, line), line)
  }

  /** The per-line loop over lines `1 .. n`. */
  function ReconcileUpTo(src: SourceCode, exp: seq<Option<int>>, mlc: map<nat, nat>, n: nat): ReconcileState
    requires WellFormed(src)
    requires n <= |src.lines| && |exp| == |src.lines| + 1
  {
    if n == 0 then ReconcileState([], map[])
    else LineStep(src, exp, mlc, ReconcileUpTo(src, exp, mlc, n - 1), n)
  }

  /** Every multi-line comment recorded for a line starts on that line, as `multilineComments[startLine]` does. */
  predicate CommentsStartOnTheirLines(src: SourceCode, mlc: map<nat, nat>)
  {
    forall l :: l in mlc && CommentAt(src, mlc, l).Some? ==> src.tokens[CommentAt(src, mlc, l).value].start.line == l
  }

  lemma MultilineCommentsStartOnTheirLines(src: SourceCode)
    ensures CommentsStartOnTheirLines(src, MultilineComments(src, |src.tokens|))
  {
    MultilineCommentsAreComments(src, |src.tokens|);
  }

  /** A line that begins with a multi-line comment and whose indent is off: the comment is reindented as a whole. */
  predicate NeedsLeadingCommentFix(src: SourceCode, exp: seq<Option<int>>, mlc: map<nat, nat>, line: nat)
    requires 1 <= line <= |src.lines| && |exp| == |src.lines| + 1
  {
    var actual := GetActualIndent(src.lines[line - 1]);
    && exp[line].Some?
    && actual != Clamp(exp[line].value)
    && actual != |src.lines[line - 1]|
    && IsLeadingCommentAt(src, mlc, line)
  }

  /** The report for a leading comment: all its lines shifted by `actual - expected` of its first line. */
  function LeadingCommentReport(src: SourceCode, exp: seq<Option<int>>, mlc: map<nat, nat>, line: nat): IndentReport
    requires WellFormed(src)
    requires 1 <= line <= |src.lines| && |exp| == |src.lines| + 1
    requires NeedsLeadingCommentFix(src, exp, mlc, line)
  {
    CommentReport(src, CommentAt(src, mlc, line).value, GetActualIndent(src.lines[line - 1]) - Clamp(exp[line].value), true)
  }

  /**
   * The shift in effect for `line` once its own indent is settled, seen from
   * the state before the line: the shift of its own line fix, else the shift
   * an earlier block comment recorded for it, if any.
   */
  function ShiftInEffect(src: SourceCode, exp: seq<Option<int>>, mlc: map<nat, nat>, st: ReconcileState, line: nat): Option<int>
    requires 1 <= line <= |src.lines| && |exp| == |src.lines| + 1
  {
    if NeedsLineFix(src, exp, mlc, line) then Some(GetActualIndent(src.lines[line - 1]) - Clamp(exp[line].value))
    else if line in st.shifts then Some(st.shifts[line])
    else None
  }

  /** A multi-line comment that does not lead its line moves when a nonzero shift is in effect for that line. */
  predicate TrailingCommentMoves(src: SourceCode, mlc: map<nat, nat>, line: nat, shift: Option<int>)
  {
    CommentAt(src, mlc, line).Some? && !IsLeadingCommentAt(src, mlc, line) && shift.Some? && shift.value != 0
  }

  /**
   * What one iteration of the per-line loop reports, in order: the line's own
   * fix, or the fix of the comment that leads it; then the move of a comment
   * that trails on it, by the shift in effect.
   */
  function StepReports(src: SourceCode, exp: seq<Option<int>>, mlc: map<nat, nat>, st: ReconcileState, line: nat): seq<IndentReport>
    requires WellFormed(src)
    requires 1 <= line <= |src.lines| && |exp| == |src.lines| + 1
  {
    var shift := ShiftInEffect(src, exp, mlc, st, line);
    (if NeedsLineFix(src, exp, mlc, line) then [ExpectedLineReport(src, exp, line)] else [])
    + (if NeedsLeadingCommentFix(src, exp, mlc, line) then [LeadingCommentReport(src, exp, mlc, line)] else [])
    + (if TrailingCommentMoves(src, mlc, line, shift) then [CommentReport(src, CommentAt(src, mlc, line).value, shift.value, false)] else [])
  }

  /** An iteration appends exactly its step reports. */
  lemma LineStepReports(src: SourceCode, exp: seq<Option<int>>, mlc: map<nat, nat>, st: ReconcileState, line: nat)
    requires WellFormed(src)
    requires 1 <= line <= |src.lines| && |exp| == |src.lines| + 1
    ensures LineStep(src, exp, mlc, st, line).reports == st.reports + StepReports(src, exp, mlc, st, line)
  {
    var mid := IndentStep(src, exp, mlc, st, line);
    if NeedsLineFix(src, exp, mlc, line) {
      assert mid.shifts == st.shifts[line := GetActualIndent(src.lines[line - 1]) - Clamp(exp[line].value)];
    } else if NeedsLeadingCommentFix(src, exp, mlc, line) {
      assert mid.reports == st.reports + [LeadingCommentReport(src, exp, mlc, line)];
    } else {
      assert mid == st;
    }
  }

  /**
   * A line fix records `actual - expected` as the line's shift, and a
   * multi-line comment that starts later on the line moves with it by that
   * same shift: its report follows the line's, with one fix for each of its
   * further lines.
   */
  lemma LineFixRecordsShift(src: SourceCode, exp: seq<Option<int>>, mlc: map<nat, nat>, st: ReconcileState, line: nat)
    requires WellFormed(src)
    requires 1 <= line <= |src.lines| && |exp| == |src.lines| + 1
    requires NeedsLineFix(src, exp, mlc, line)
    ensures var after := LineStep(src, exp, mlc, st, line);
      var actual := GetActualIndent(src.lines[line - 1]);
      var expected := Clamp(exp[line].value);
      var comment := CommentAt(src, mlc, line);
      && |after.reports| == |st.reports| + (if comment.Some? then 2 else 1)
      && after.reports[|st.reports|] == ExpectedLineReport(src, exp, line)
      && (comment.Some? ==> after.reports[|st.reports| + 1] == CommentReport(src, comment.value, actual - expected, false))
      && (comment.None? ==> after.shifts == st.shifts[line := actual - expected])
      && (CommentsStartOnTheirLines(src, mlc) ==> line in after.shifts && after.shifts[line] == actual - expected)
  {
    LineStepReports(src, exp, mlc, st, line);
    var actual: int := GetActualIndent(src.lines[line - 1]);
    var expected: int := Clamp(exp[line].value);
    var mid := IndentStep(src, exp, mlc, st, line);
    assert mid.shifts == st.shifts[line := actual - expected];
    var comment := CommentAt(src, mlc, line);
    if comment.Some? && CommentsStartOnTheirLines(src, mlc) {
      assert TokenWellFormed(src, src.tokens[comment.value]);
      CommentShiftsRecorded(src, mid.shifts, src.tokens[comment.value].start.line + 1, src.tokens[comment.value].end.line, actual - expected, line);
    }
  }

  /**
   * A multi-line comment that leads a line whose indent is off is reindented
   * as a whole by `actual - expected` of that line, from its first line on;
   * the line gets no report of its own.
   */
  lemma LeadingCommentMovesAsAWhole(src: SourceCode, exp: seq<Option<int>>, mlc: map<nat, nat>, st: ReconcileState, line: nat)
    requires WellFormed(src)
    requires 1 <= line <= |src.lines| && |exp| == |src.lines| + 1
    requires NeedsLeadingCommentFix(src, exp, mlc, line)
    ensures var after := LineStep(src, exp, mlc, st, line);
      var c := CommentAt(src, mlc, line).value;
      var diff := GetActualIndent(src.lines[line - 1]) - Clamp(exp[line].value);
      && after.reports == st.reports + [CommentReport(src, c, diff, true)]
      && after.shifts == CommentShifts(src, st.shifts, src.tokens[c].start.line, src.tokens[c].end.line, diff)
  {
    LineStepReports(src, exp, mlc, st, line);
  }

  /** The reports of a step extend the earlier ones; a line report made there is about that line. */
  lemma StepExtends(src: SourceCode, exp: seq<Option<int>>, mlc: map<nat, nat>, st: ReconcileState, line: nat)
    requires WellFormed(src)
    requires 1 <= line <= |src.lines| && |exp| == |src.lines| + 1
    ensures var after := LineStep(src, exp, mlc, st, line);
      && |st.reports| <= |after.reports|
      && after.reports[..|st.reports|] == st.reports
      && (forall j :: |st.reports| <= j < |after.reports| && after.reports[j].LineIndent? ==>
            NeedsLineFix(src, exp, mlc, line) && after.reports[j] == ExpectedLineReport(src, exp, line))
      && (NeedsLineFix(src, exp, mlc, line) ==> ExpectedLineReport(src, exp, line) in after.reports[|st.reports|..])
      && (forall j :: |st.reports| <= j < |after.reports| ==> IsCommentReportFor(src, after.reports[j]))
  {
    var after := LineStep(src, exp, mlc, st, line);
    if NeedsLineFix(src, exp, mlc, line) {
      LineFixRecordsShift(src, exp, mlc, st, line);
    }
  }

  /**
   * A line gets a line report exactly when it has an expected entry, its actual
   * indent differs from the clamped expected one, it is not blank, and it does
   * not begin with a multi-line comment; the report replaces the leading white
   * space with exactly the expected number of spaces.
   */
  lemma LineReportsExactly(src: SourceCode, exp: seq<Option<int>>, mlc: map<nat, nat>, n: nat)
    requires WellFormed(src)
    requires n <= |src.lines| && |exp| == |src.lines| + 1
    ensures var reports := ReconcileUpTo(src, exp, mlc, n).reports;
      && (forall j :: 0 <= j < |reports| && reports[j].LineIndent? ==>
            1 <= reports[j].line <= n && NeedsLineFix(src, exp, mlc, reports[j].line)
            && reports[j] == ExpectedLineReport(src, exp, reports[j].line))
      && (forall l :: 1 <= l <= n && NeedsLineFix(src, exp, mlc, l) ==> ExpectedLineReport(src, exp, l) in reports)
  {
    LineReportsSound(src, exp, mlc, n);
    assert LineReportsNeeded(src, exp, mlc, ReconcileUpTo(src, exp, mlc, n).reports, n);
    LineReportsComplete(src, exp, mlc, n);
  }

  /** Every line report in `reports` is the expected report of a line up to `n` that needs a fix. */
  predicate LineReportsNeeded(src: SourceCode, exp: seq<Option<int>>, mlc: map<nat, nat>, reports: seq<IndentReport>, n: nat)
    requires WellFormed(src)
    requires n <= |src.lines| && |exp| == |src.lines| + 1
  {
    forall j :: 0 <= j < |reports| && reports[j].LineIndent? ==>
      1 <= reports[j].line <= n && NeedsLineFix(src, exp, mlc, reports[j].line)
      && reports[j] == ExpectedLineReport(src, exp, reports[j].line)
  }

  /** Every line report is the expected report of a line up to `n` that needs a fix. */
  lemma {:induction false} LineReportsSound(src: SourceCode, exp: seq<Option<int>>, mlc: map<nat, nat>, n: nat)
    requires WellFormed(src)
    requires n <= |src.lines| && |exp| == |src.lines| + 1
    ensures LineReportsNeeded(src, exp, mlc, ReconcileUpTo(src, exp, mlc, n).reports, n)
  {
    if n > 0 {
      LineReportsSound(src, exp, mlc, n - 1);
      var st := ReconcileUpTo(src, exp, mlc, n - 1);
      var after := ReconcileUpTo(src, exp, mlc, n);
      assert after == LineStep(src, exp, mlc, st, n);
      StepExtends(src, exp, mlc, st, n);
      assert LineReportsNeeded(src, exp, mlc, st.reports, n - 1);
      forall j | 0 <= j < |after.reports| && after.reports[j].LineIndent?
        ensures 1 <= after.reports[j].line <= n && NeedsLineFix(src, exp, mlc, after.reports[j].line)
          && after.reports[j] == ExpectedLineReport(src, exp, after.reports[j].line)
      {
        if j < |st.reports| {
          assert after.reports[j] == st.reports[j];
        } else {
          assert NeedsLineFix(src, exp, mlc, n) && after.reports[j] == ExpectedLineReport(src, exp, n);
        }
      }
    }
  }

  /** Every line up to `n` that needs a fix has its expected report. */
  lemma {:induction false} LineReportsComplete(src: SourceCode, exp: seq<Option<int>>, mlc: map<nat, nat>, n: nat)
    requires WellFormed(src)
    requires n <= |src.lines| && |exp| == |src.lines| + 1
    ensures var reports := ReconcileUpTo(src, exp, mlc, n).reports;
      forall l :: 1 <= l <= n && NeedsLineFix(src, exp, mlc, l) ==> ExpectedLineReport(src, exp, l) in reports
  {
    if n > 0 {
      LineReportsComplete(src, exp, mlc, n - 1);
      var st := ReconcileUpTo(src, exp, mlc, n - 1);
      var after := ReconcileUpTo(src, exp, mlc, n);
      assert after == LineStep(src, exp, mlc, st, n);
      StepExtends(src, exp, mlc, st, n);
      forall l | 1 <= l <= n && NeedsLineFix(src, exp, mlc, l)
        ensures ExpectedLineReport(src, exp, l) in after.reports
      {
        if l < n {
          var j :| 0 <= j < |st.reports| && st.reports[j] == ExpectedLineReport(src, exp, l);
          assert after.reports[j] == st.reports[j];
        } else {
          var j :| |st.reports| <= j < |after.reports| && after.reports[j] == ExpectedLineReport(src, exp, l);
        }
      }
    }
  }

  /** A line without an expected entry, or made only of white space, never gets a line report. */
  lemma ExemptLinesNeverReported(src: SourceCode, exp: seq<Option<int>>, mlc: map<nat, nat>, l: nat)
    requires WellFormed(src)
    requires 1 <= l <= |src.lines| && |exp| == |src.lines| + 1
    requires exp[l].None? || GetActualIndent(src.lines[l - 1]) == |src.lines[l - 1]|
    ensures forall r :: r in ReconcileUpTo(src, exp, mlc, |src.lines|).reports && r.LineIndent? ==> r.line != l
  {
    LineReportsExactly(src, exp, mlc, |src.lines|);
  }

  /**
   * A block-comment report has a nonzero shift, names a comment, and carries
   * the fixes for the comment's lines.
   */
  predicate IsCommentReportFor(src: SourceCode, r: IndentReport)
  {
    r.CommentIndent? ==>
      && r.diff != 0
      && r.comment < |src.tokens|
      && 1 <= CommentFirstLine(src, r.comment, r.leading)
      && src.tokens[r.comment].end.line <= |src.lines| == |src.lineStarts|
      && r.fixes == CommentFixes(src, CommentFirstLine(src, r.comment, r.leading), src.tokens[r.comment].end.line, r.diff)
  }

  /** Every block-comment report is for a comment, with that comment's fixes. */
  lemma {:induction false} CommentReportsShape(src: SourceCode, exp: seq<Option<int>>, mlc: map<nat, nat>, n: nat)
    requires WellFormed(src)
    requires n <= |src.lines| && |exp| == |src.lines| + 1
    ensures forall j :: 0 <= j < |ReconcileUpTo(src, exp, mlc, n).reports| ==>
      IsCommentReportFor(src, ReconcileUpTo(src, exp, mlc, n).reports[j])
  {
    if n > 0 {
      CommentReportsShape(src, exp, mlc, n - 1);
      var st := ReconcileUpTo(src, exp, mlc, n - 1);
      var after := ReconcileUpTo(src, exp, mlc, n);
      assert after == LineStep(src, exp, mlc, st, n);
      StepExtends(src, exp, mlc, st, n);
      forall j | 0 <= j < |after.reports|
        ensures IsCommentReportFor(src, after.reports[j])
      {
        if j < |st.reports| {
          assert after.reports[j] == st.reports[j];
        }
      }
    }
  }

  /** The shift in effect for `line` during the per-line loop. */
  function ShiftAtLine(src: SourceCode, exp: seq<Option<int>>, mlc: map<nat, nat>, line: nat): Option<int>
    requires WellFormed(src)
    requires 1 <= line <= |src.lines| && |exp| == |src.lines| + 1
  {
    ShiftInEffect(src, exp, mlc, ReconcileUpTo(src, exp, mlc, line - 1), line)
  }

  /** `r` is the block-comment report the loop makes at `line`: for the comment leading it, or trailing on it. */
  predicate IsCommentReportAt(src: SourceCode, exp: seq<Option<int>>, mlc: map<nat, nat>, r: IndentReport, line: nat)
    requires WellFormed(src)
    requires 1 <= line <= |src.lines| && |exp| == |src.lines| + 1
  {
    && r.CommentIndent?
    && if r.leading then
         NeedsLeadingCommentFix(src, exp, mlc, line) && r == LeadingCommentReport(src, exp, mlc, line)
       else
         && TrailingCommentMoves(src, mlc, line, ShiftAtLine(src, exp, mlc, line))
         && r == CommentReport(src, CommentAt(src, mlc, line).value, ShiftAtLine(src, exp, mlc, line).value, false)
  }

  /** Every block-comment report in `reports` is made at some line up to `n`. */
  predicate CommentReportsExplained(src: SourceCode, exp: seq<Option<int>>, mlc: map<nat, nat>, reports: seq<IndentReport>, n: nat)
    requires WellFormed(src)
    requires n <= |src.lines| && |exp| == |src.lines| + 1
  {
    forall j :: 0 <= j < |reports| && reports[j].CommentIndent? ==>
      exists l :: 1 <= l <= n && IsCommentReportAt(src, exp, mlc, reports[j], l)
  }

  /** Every block-comment report up to line `n` is the leading or trailing comment report of such a line. */
  lemma {:induction false} CommentReportsSound(src: SourceCode, exp: seq<Option<int>>, mlc: map<nat, nat>, n: nat)
    requires WellFormed(src)
    requires n <= |src.lines| && |exp| == |src.lines| + 1
    ensures CommentReportsExplained(src, exp, mlc, ReconcileUpTo(src, exp, mlc, n).reports, n)
  {
    if n > 0 {
      CommentReportsSound(src, exp, mlc, n - 1);
      var st := ReconcileUpTo(src, exp, mlc, n - 1);
      var after := ReconcileUpTo(src, exp, mlc, n);
      assert after == LineStep(src, exp, mlc, st, n);
      LineStepReports(src, exp, mlc, st, n);
      var step := StepReports(src, exp, mlc, st, n);
      assert ShiftAtLine(src, exp, mlc, n) == ShiftInEffect(src, exp, mlc, st, n);
      assert CommentReportsExplained(src, exp, mlc, st.reports, n - 1);
      forall j | 0 <= j < |after.reports| && after.reports[j].CommentIndent?
        ensures exists l :: 1 <= l <= n && IsCommentReportAt(src, exp, mlc, after.reports[j], l)
      {
        if j < |st.reports| {
          assert after.reports[j] == st.reports[j];
          assert st.reports[j].CommentIndent?;
          var l :| 1 <= l <= n - 1 && IsCommentReportAt(src, exp, mlc, st.reports[j], l);
        } else {
          assert after.reports[j] == step[j - |st.reports|];
          assert IsCommentReportAt(src, exp, mlc, after.reports[j], n);
        }
      }
    }
  }

  /** Every line up to `n` with a leading comment to reindent, or a trailing comment to move, has that report. */
  lemma {:induction false} CommentReportsComplete(src: SourceCode, exp: seq<Option<int>>, mlc: map<nat, nat>, n: nat)
    requires WellFormed(src)
    requires n <= |src.lines| && |exp| == |src.lines| + 1
    ensures var reports := ReconcileUpTo(src, exp, mlc, n).reports;
      && (forall l :: 1 <= l <= n && NeedsLeadingCommentFix(src, exp, mlc, l) ==>
            LeadingCommentReport(src, exp, mlc, l) in reports)
      && (forall l :: 1 <= l <= n && TrailingCommentMoves(src, mlc, l, ShiftAtLine(src, exp, mlc, l)) ==>
            CommentReport(src, CommentAt(src, mlc, l).value, ShiftAtLine(src, exp, mlc, l).value, false) in reports)
  {
    if n > 0 {
      CommentReportsComplete(src, exp, mlc, n - 1);
      var st := ReconcileUpTo(src, exp, mlc, n - 1);
      var after := ReconcileUpTo(src, exp, mlc, n);
      assert after == LineStep(src, exp, mlc, st, n);
      LineStepReports(src, exp, mlc, st, n);
      var step := StepReports(src, exp, mlc, st, n);
      assert ShiftAtLine(src, exp, mlc, n) == ShiftInEffect(src, exp, mlc, st, n);
      assert forall r :: r in st.reports ==> r in after.reports;
      assert forall r :: r in step ==> r in after.reports;
    }
  }

  // ---------------------------------------------------------------------------
  // Listener inputs

  /** The body of an `if`/`else`/loop/`with` statement: its type, first token and end line. */
  datatype ClauseBody = ClauseBody(nodeType: NodeType, firstToken: nat, endLine: nat)

  /**
   * A `case` clause: its first token (`case` or `default`) and the token after
   * which its colon is searched (the test's last token, or the first token).
   */
  datatype SwitchCase = SwitchCase(firstToken: nat, colonSearchFrom: nat)

  datatype SwitchStatement = SwitchStatement(discriminantLast: nat, cases: seq<SwitchCase>)

  predicate ValidSwitch(src: SourceCode, sw: SwitchStatement)
  {
    && sw.discriminantLast < |src.tokens|
    && forall k :: 0 <= k < |sw.cases| ==>
         sw.cases[k].firstToken < |src.tokens| && sw.cases[k].colonSearchFrom < |src.tokens|
  }

  /** The lines of case `c` that get -4: its leading token or comment through its colon. */
  function CaseRange(src: SourceCode, c: SwitchCase): Option<LineRange>
    requires c.firstToken < |src.tokens| && c.colonSearchFrom < |src.tokens|
  {
    var lead := FindLeadingNodeOrComment(src, c.firstToken);
    var colon := NextTokenWhere(src, c.colonSearchFrom, IsColonToken);
    if lead.Some? && colon.Some? then
      Some(LineRange(src.tokens[lead.value].start.line, src.tokens[colon.value].end.line))
    else None
  }

  function CaseRanges(src: SourceCode, cases: seq<SwitchCase>): seq<LineRange>
    requires forall k :: 0 <= k < |cases| ==>
      cases[k].firstToken < |src.tokens| && cases[k].colonSearchFrom < |src.tokens|
  {
    if cases == [] then []
    else
      var init := CaseRanges(src, cases[..|cases| - 1]);
      match CaseRange(src, cases[|cases| - 1])
      case Some(r) => init + [r]
      case None => init
  }

  /** `expectIndents` over `r`, when there is one. */
  function AddOptionalRange(s: seq<Option<int>>, r: Option<LineRange>, d: int): seq<Option<int>>
  {
    match r
    case Some(x) => AddRange(s, x.first, x.last, d)
    case None => s
  }

  /** One more case adds its range, if it has one, after those of the cases before it. */
  lemma CaseRangesStep(src: SourceCode, cases: seq<SwitchCase>, k: nat, s: seq<Option<int>>, d: int)
    requires k < |cases|
    requires forall j :: 0 <= j < |cases| ==>
      cases[j].firstToken < |src.tokens| && cases[j].colonSearchFrom < |src.tokens|
    ensures AddRanges(s, CaseRanges(src, cases[..k + 1]), d) ==
      AddOptionalRange(AddRanges(s, CaseRanges(src, cases[..k]), d), CaseRange(src, cases[k]), d)
  {
    assert cases[..k + 1][..k] == cases[..k];
    var init := CaseRanges(src, cases[..k]);
    match CaseRange(src, cases[k])
    case Some(r) =>
      assert CaseRanges(src, cases[..k + 1]) == init + [r];
      assert (init + [r])[..|init|] == init;
    case None =>
  }

  predicate IsOpeningBraceToken(t: Token)
  {
    t.tokenType.Punctuator? && t.value == "{"
  }

  /** The case ranges, when the switch's `{` is the last token on its line; none otherwise. */
  function SwitchRanges(src: SourceCode, sw: SwitchStatement): seq<LineRange>
    requires ValidSwitch(src, sw)
  {
    match NextTokenWhere(src, sw.discriminantLast, IsOpeningBraceToken)
    case Some(brace) => if IsLastTokenInLine(src, brace) then CaseRanges(src, sw.cases) else []
    case None => []
  }

  /** The expected indents after bracket, template and comment processing at program exit. */
  function ExitIndents(src: SourceCode, s: seq<Option<int>>): seq<Option<int>>
  {
    var withBrackets := AddRanges(s, BracketRangesOf(src, BracketPairs(src)), IndentUnit);
    var withoutTemplates := DeleteRanges(withBrackets, TemplateRanges(src, |src.tokens|));
    DeleteRanges(withoutTemplates, CommentRanges(src, |src.tokens|))
  }

  /**
   * At program exit a line inside a template or a multi-line comment has no
   * expected entry; every other line has gained 4 for each bracket range
   * around it.
   */
  lemma ExitIndentsPerLine(src: SourceCode, s: seq<Option<int>>, l: nat)
    requires 1 <= l < |s|
    ensures var e := ExitIndents(src, s);
      && ((CoveredBy(TemplateRanges(src, |src.tokens|), l) || CoveredBy(CommentRanges(src, |src.tokens|), l))
          ==> e[l].None?)
      && ((!CoveredBy(TemplateRanges(src, |src.tokens|), l) && !CoveredBy(CommentRanges(src, |src.tokens|), l))
          ==> e[l] == Plus(s[l], IndentUnit * Count(BracketRangesOf(src, BracketPairs(src)), l)))
  {
    var withBrackets := AddRanges(s, BracketRangesOf(src, BracketPairs(src)), IndentUnit);
    var withoutTemplates := DeleteRanges(withBrackets, TemplateRanges(src, |src.tokens|));
    AddRangesCounts(s, BracketRangesOf(src, BracketPairs(src)), IndentUnit, l);
    DeleteRangesCovers(withBrackets, TemplateRanges(src, |src.tokens|), l);
    DeleteRangesCovers(withoutTemplates, CommentRanges(src, |src.tokens|), l);
  }

  // ---------------------------------------------------------------------------
  // The reconciliation at program exit

  /** `reportBlockComment`: the fixes of one block comment and the shifts they record. */
  method ReportBlockComment(src: SourceCode, shifts: map<nat, int>, comment: nat, diffIndent: int, isLeadingComment: bool)
    returns (report: IndentReport, newShifts: map<nat, int>)
    requires WellFormed(src) && comment < |src.tokens|
    ensures BlockCommentStep(src, ReconcileState([], shifts), comment, diffIndent, isLeadingComment)
      == ReconcileState([report], newShifts)
  {
    assert TokenWellFormed(src, src.tokens[comment]);
    var firstLine := CommentFirstLine(src, comment, isLeadingComment);
    var lastLine := src.tokens[comment].end.line;
    var fixes: seq<Fix> := [];
    newShifts := shifts;
    if firstLine <= lastLine {
      var line := firstLine;
      while line <= lastLine
        invariant firstLine <= line <= lastLine + 1
        invariant fixes == CommentFixes(src, firstLine, line - 1, diffIndent)
        invariant newShifts == CommentShifts(src, shifts, firstLine, line - 1, diffIndent)
      {
        ghost var edit := CommentLineEdit(src, line, diffIndent);
        ghost var fixesBefore, shiftsBefore := fixes, newShifts;
        var startIndex := src.lineStarts[line - 1];
        if diffIndent > 0 {
          var actualIndent := GetActualIndent(src.lines[line - 1]);
          var shift := if diffIndent < actualIndent then diffIndent else actualIndent;
          fixes := fixes + [Fix(startIndex, startIndex + shift, "")];
          newShifts := newShifts[line := shift];
        } else {
          fixes := fixes + [Fix(startIndex, startIndex, Spaces(-diffIndent))];
          newShifts := newShifts[line := diffIndent];
        }
        assert fixes == fixesBefore + [edit.fix] && newShifts == shiftsBefore[line := edit.shift];
        line := line + 1;
      }
    }
    report := CommentIndent(comment, diffIndent, isLeadingComment, fixes);
  }

  /** The per-line loop of the program-exit handler. */
  method ReconcileLines(src: SourceCode, expectedIndents: seq<Option<int>>, multilineComments: map<nat, nat>)
    returns (found: seq<IndentReport>)
    requires WellFormed(src) && |expectedIndents| == |src.lines| + 1
    ensures found == ReconcileUpTo(src, expectedIndents, multilineComments, |src.lines|).reports
  {
    var lineCount := |src.lines|;
    var shifts: map<nat, int> := map[];
    found := [];
    var line := 1;
    while line <= lineCount
      invariant 1 <= line <= lineCount + 1
      invariant ReconcileState(found, shifts) == ReconcileUpTo(src, expectedIndents, multilineComments, line - 1)
    {
      ghost var before := ReconcileState(found, shifts);
      var expectedIndent := expectedIndents[line];
      var comment := CommentAt(src, multilineComments, line);
      var isLeadingComment := comment.Some? && IsFirstTokenOrCommentInLine(src, comment.value);
      assert isLeadingComment == IsLeadingCommentAt(src, multilineComments, line);
      if expectedIndent.Some? {
        var expected := Clamp(expectedIndent.value);
        var sourceLine := src.lines[line - 1];
        var actualIndent := GetActualIndent(sourceLine);
        var shift := actualIndent as int - expected as int;
        if shift != 0 && actualIndent != |sourceLine| {
          if isLeadingComment {
            var report;
            report, shifts := ReportBlockComment(src, shifts, comment.value, shift, true);
            found := found + [report];
          } else {
            found := found + [ExpectedLineReport(src, expectedIndents, line)];
            shifts := shifts[line := shift];
          }
        }
      }
      assert ReconcileState(found, shifts) == IndentStep(src, expectedIndents, multilineComments, before, line);
      ghost var middle := ReconcileState(found, shifts);
      if comment.Some? && !isLeadingComment && line in shifts && shifts[line] != 0 {
        var report;
        report, shifts := ReportBlockComment(src, shifts, comment.value, shifts[line], false);
        found := found + [report];
      }
      assert ReconcileState(found, shifts) == TrailingCommentStep(src, multilineComments, middle, line);
      line := line + 1;
    }
  }

  // ---------------------------------------------------------------------------
  // The rule's state

  class IndentRule {
    const src: SourceCode
    const lineCount: nat
    /** `expectedIndents`, indexed by 1-based line; `None` is an unset or deleted entry. */
    const expectedIndents: array<Option<int>>
    var reports: seq<IndentReport>

    ghost predicate Valid()
    {
      && WellFormed(src)
      && lineCount == |src.lines|
      && expectedIndents.Length == lineCount + 1
    }

    /** `Array(lineCount + 1).fill(initialIndentUnits * 4, 1)` */
    constructor (src: SourceCode, initialIndentUnits: int)
      requires WellFormed(src)
      ensures Valid() && this.src == src && reports == []
      ensures fresh(expectedIndents)
      ensures expectedIndents[0] == None
      ensures forall l :: 1 <= l <= lineCount ==> expectedIndents[l] == Some(initialIndentUnits * IndentUnit)
    {
      this.src := src;
      lineCount := |src.lines|;
      expectedIndents := new Option<int>[|src.lines| + 1]
        (l => if l == 0 then None else Some(initialIndentUnits * IndentUnit));
      reports := [];
    }

    /** `expectIndents(firstLine, lastLine, indent)`: exactly the lines `firstLine .. lastLine` gain `indent`. */
    method ExpectIndents(firstLine: int, lastLine: int, indent: int)
      requires Valid()
      modifies expectedIndents
      ensures expectedIndents[..] == AddRange(old(expectedIndents[..]), firstLine, lastLine, indent)
    {
      var line := firstLine;
      while line <= lastLine
        invariant firstLine <= line <= if firstLine <= lastLine then lastLine + 1 else firstLine
        invariant forall l :: 0 <= l < expectedIndents.Length ==>
          expectedIndents[l] ==
            if 1 <= l && firstLine <= l < line then Plus(old(expectedIndents[l]), indent)
            else old(expectedIndents[l])
        decreases lastLine - line
      {
        if 1 <= line < expectedIndents.Length {
          expectedIndents[line] := Plus(expectedIndents[line], indent);
        }
        line := line + 1;
      }
    }

    /** `unexpectIndents(firstLine, lastLine)`: exactly the lines `firstLine .. lastLine` lose their entry. */
    method UnexpectIndents(firstLine: int, lastLine: int)
      requires Valid()
      modifies expectedIndents
      ensures expectedIndents[..] == DeleteRange(old(expectedIndents[..]), firstLine, lastLine)
    {
      var line := firstLine;
      while line <= lastLine
        invariant firstLine <= line <= if firstLine <= lastLine then lastLine + 1 else firstLine
        invariant forall l :: 0 <= l < expectedIndents.Length ==>
          expectedIndents[l] ==
            if 1 <= l && firstLine <= l < line then None else old(expectedIndents[l])
        decreases lastLine - line
      {
        if 1 <= line < expectedIndents.Length {
          expectedIndents[line] := None;
        }
        line := line + 1;
      }
    }

    /** `validateClause`: a non-block body gets +4 from its leading line through its end line. */
    method ValidateClause(body: ClauseBody)
      requires Valid() && body.firstToken < |src.tokens|
      modifies expectedIndents
      ensures expectedIndents[..] ==
        match FindLeadingNodeOrComment(src, body.firstToken)
        case Some(lead) =>
          if body.nodeType.BlockStatement? then old(expectedIndents[..])
          else AddRange(old(expectedIndents[..]), src.tokens[lead].start.line, body.endLine, IndentUnit)
        case None => old(expectedIndents[..])
    {
      if !body.nodeType.BlockStatement? {
        var leading := FindLeadingNodeOrComment(src, body.firstToken);
        if leading.Some? {
          ExpectIndents(src.tokens[leading.value].start.line, body.endLine, IndentUnit);
        }
      }
    }

    /** One case of `validateSwitchStatement`: its leading line through its colon's line gets -4. */
    method ValidateSwitchCase(switchCase: SwitchCase)
      requires Valid() && switchCase.firstToken < |src.tokens| && switchCase.colonSearchFrom < |src.tokens|
      modifies expectedIndents
      ensures expectedIndents[..] == AddOptionalRange(old(expectedIndents[..]), CaseRange(src, switchCase), -IndentUnit)
    {
      var leading := FindLeadingNodeOrComment(src, switchCase.firstToken);
      if leading.Some? {
        var colon := NextTokenWhere(src, switchCase.colonSearchFrom, IsColonToken);
        if colon.Some? {
          ExpectIndents(src.tokens[leading.value].start.line, src.tokens[colon.value].end.line, -IndentUnit);
        }
      }
    }

    /** `validateSwitchStatement`: every case head gets -4 when the `{` ends its line. */
    method ValidateSwitchStatement(sw: SwitchStatement)
      requires Valid() && ValidSwitch(src, sw)
      modifies expectedIndents
      ensures expectedIndents[..] == AddRanges(old(expectedIndents[..]), SwitchRanges(src, sw), -IndentUnit)
    {
      var openingBrace := NextTokenWhere(src, sw.discriminantLast, IsOpeningBraceToken);
      if openingBrace.Some? && IsLastTokenInLine(src, openingBrace.value) {
        ValidateSwitchCases(sw.cases);
      }
    }

    /** The loop over the cases of a switch whose `{` ends its line. */
    method ValidateSwitchCases(cases: seq<SwitchCase>)
      requires Valid()
      requires forall j :: 0 <= j < |cases| ==>
        cases[j].firstToken < |src.tokens| && cases[j].colonSearchFrom < |src.tokens|
      modifies expectedIndents
      ensures expectedIndents[..] == AddRanges(old(expectedIndents[..]), CaseRanges(src, cases), -IndentUnit)
    {
      ghost var s0 := expectedIndents[..];
      var k := 0;
      while k < |cases|
        invariant k <= |cases|
        invariant expectedIndents[..] == AddRanges(s0, CaseRanges(src, cases[..k]), -IndentUnit)
      {
        CaseRangesStep(src, cases, k, s0, -IndentUnit);
        ValidateSwitchCase(cases[k]);
        k := k + 1;
      }
      assert cases[..|cases|] == cases;
    }

    /** The bracket phase of the program-exit handler. */
    method IndentBrackets()
      requires Valid()
      modifies expectedIndents
      ensures expectedIndents[..] ==
        AddRanges(old(expectedIndents[..]), BracketRangesOf(src, BracketPairs(src)), IndentUnit)
    {
      var pairs := BracketPairsIn(src);
      var k := 0;
      while k < |pairs|
        invariant k <= |pairs|
        invariant expectedIndents[..] == AddRanges(old(expectedIndents[..]), BracketRangesOf(src, pairs[..k]), IndentUnit)
      {
        assert pairs[..k + 1][..k] == pairs[..k];
        var pair := pairs[k];
        if pair.opening.Some? && pair.opening.value < |src.tokens| && 0 < pair.closing < |src.tokens|
          && IsLastTokenInLine(src, pair.opening.value)
        {
          var firstLine := src.tokens[pair.opening.value].end.line + 1;
          var lastTokenOrCommentInBracket := src.tokens[pair.closing - 1];
          ExpectIndents(firstLine, lastTokenOrCommentInBracket.end.line, IndentUnit);
        }
        k := k + 1;
      }
      assert pairs[..|pairs|] == pairs;
    }

    /** The template phase: lines `start + 1 .. end` of each template token lose their entry. */
    method UnexpectTemplates()
      requires Valid()
      modifies expectedIndents
      ensures expectedIndents[..] == DeleteRanges(old(expectedIndents[..]), TemplateRanges(src, |src.tokens|))
    {
      var k := 0;
      while k < |src.tokens|
        invariant k <= |src.tokens|
        invariant expectedIndents[..] == DeleteRanges(old(expectedIndents[..]), TemplateRanges(src, k))
      {
        var token := src.tokens[k];
        if token.tokenType.Template? {
          UnexpectIndents(token.start.line + 1, token.end.line);
        }
        k := k + 1;
      }
    }

    /** The comment phase: records each multi-line comment by its start line and deletes its inner lines. */
    method UnexpectComments() returns (multilineComments: map<nat, nat>)
      requires Valid()
      modifies expectedIndents
      ensures expectedIndents[..] == DeleteRanges(old(expectedIndents[..]), CommentRanges(src, |src.tokens|))
      ensures multilineComments == MultilineComments(src, |src.tokens|)
    {
      multilineComments := map[];
      var k := 0;
      while k < |src.tokens|
        invariant k <= |src.tokens|
        invariant expectedIndents[..] == DeleteRanges(old(expectedIndents[..]), CommentRanges(src, k))
        invariant multilineComments == MultilineComments(src, k)
      {
        var comment := src.tokens[k];
        if IsMultilineComment(comment) {
          multilineComments := multilineComments[comment.start.line := k];
          UnexpectIndents(comment.start.line + 1, comment.end.line);
        }
        k := k + 1;
      }
    }

    /**
     * `validateProgramExit`: the bracket, template and comment phases, then the
     * per-line reconciliation, whose reports are appended.
     */
    method ValidateProgramExit()
      requires Valid()
      modifies this, expectedIndents
      ensures Valid()
      ensures expectedIndents[..] == ExitIndents(src, old(expectedIndents[..]))
      ensures reports == old(reports) +
        ReconcileUpTo(src, expectedIndents[..], MultilineComments(src, |src.tokens|), lineCount).reports
    {
      IndentBrackets();
      UnexpectTemplates();
      var multilineComments := UnexpectComments();
      MultilineCommentsAreComments(src, |src.tokens|);
      var found := ReconcileLines(src, expectedIndents[..], multilineComments);
      reports := reports + found;
    }
  }

  /**
   * A line inside a template or a multi-line comment is never reported as a
   * code line at program exit, whatever the listeners did before.
   */
  lemma InnerLinesNeverReported(src: SourceCode, s: seq<Option<int>>, l: nat)
    requires WellFormed(src) && |s| == |src.lines| + 1 && 1 <= l <= |src.lines|
    requires CoveredBy(TemplateRanges(src, |src.tokens|), l) || CoveredBy(CommentRanges(src, |src.tokens|), l)
    ensures forall r ::
      (r in ReconcileUpTo(src, ExitIndents(src, s), MultilineComments(src, |src.tokens|), |src.lines|).reports
       && r.LineIndent?) ==> r.line != l
  {
    ExitIndentsPerLine(src, s, l);
    MultilineCommentsAreComments(src, |src.tokens|);
    ExemptLinesNeverReported(src, ExitIndents(src, s), MultilineComments(src, |src.tokens|), l);
  }
}
