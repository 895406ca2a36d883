/**
 * The `property-colon-spacing` rule: no space before the colon of a key-value
 * property, exactly one space after it, except inside an alignment block
 * (consecutive properties on lines of their own), where the values start in
 * a common column chosen from the columns they already use.
 */
module PropertyColonSpacing {

  import opened Source
  import opened Utils

  // ---------------------------------------------------------------------------
  // findSmallestValueNotBelow

  /** The smallest of `values` that is at least `minimum`, scanning left to right. */
  function SmallestNotBelow(values: seq<int>, minimum: int): (r: Option<int>)
    ensures r.Some? ==> r.value in values && r.value >= minimum
    ensures r.Some? ==> forall k :: 0 <= k < |values| && values[k] >= minimum ==> r.value <= values[k]
    ensures r.None? <==> forall k :: 0 <= k < |values| ==> values[k] < minimum
  {
    if values == [] then None
    else
      var n := |values| - 1;
      var prev := SmallestNotBelow(values[..n], minimum);
      assert forall k :: 0 <= k < n ==> values[..n][k] == values[k];
      var v := values[n];
      if v < minimum || (prev.Some? && v >= prev.value) then prev else Some(v)
  }

  /** `findSmallestValueNotBelow`: `None` stands for `undefined`. */
  method FindSmallestValueNotBelow(values: seq<int>, minimum: int) returns (smallestValue: Option<int>)
    ensures smallestValue == SmallestNotBelow(values, minimum)
  {
    smallestValue := None;
    var i := 0;
    while i < |values|
      invariant i <= |values|
      invariant smallestValue == SmallestNotBelow(values[..i], minimum)
    {
      assert values[..i + 1][..i] == values[..i];
      var value := values[i];
      if value < minimum || (smallestValue.Some? && value >= smallestValue.value) {
      } else {
        smallestValue := Some(value);
      }
      i := i + 1;
    }
    assert values[..i] == values;
  }

  // ---------------------------------------------------------------------------
  // Properties of an object literal

  /** The key node: an identifier (its name), a literal (its value as text) or another expression. */
  datatype PropertyKey = IdentifierKey(name: string) | LiteralKey(value: string) | ExpressionKey

  /**
   * An element of `properties`: its flags and key, the key's range, the key's
   * last token and the value's first token (as token indices) and its `loc`.
   */
  datatype Property = Property(
    kind: PropertyKind,
    isMethod: bool,
    shorthand: bool,
    computed: bool,
    key: PropertyKey,
    keyStart: nat,
    keyEnd: nat,
    keyLastToken: nat,
    valueFirstToken: nat,
    start: Position,
    end: Position)

  /** `isKeyValueProperty` */
  predicate IsKeyValueProperty(p: Property)
  {
    !(p.isMethod || p.shorthand || p.kind != Init)
  }

  /** What the parser guarantees of a key-value property: its key comes before its value. */
  predicate ValidProperty(src: SourceCode, p: Property)
  {
    p.keyLastToken < p.valueFirstToken < |src.tokens|
  }

  predicate ValidObject(src: SourceCode, ps: seq<Property>)
  {
    forall i :: 0 <= i < |ps| && IsKeyValueProperty(ps[i]) ==> ValidProperty(src, ps[i])
  }

  /** `properties.filter(isKeyValueProperty)`, as indices into `ps`. */
  function KeyValueIndices(ps: seq<Property>): (kv: seq<nat>)
    ensures forall j :: 0 <= j < |kv| ==> kv[j] < |ps| && IsKeyValueProperty(ps[kv[j]])
    ensures forall i :: 0 <= i < |ps| && IsKeyValueProperty(ps[i]) ==> i in kv
    ensures forall a, b :: 0 <= a < b < |kv| ==> kv[a] < kv[b]
  {
    if ps == [] then []
    else
      var n := |ps| - 1;
      assert forall i :: 0 <= i < n ==> ps[..n][i] == ps[i];
      KeyValueIndices(ps[..n]) + (if IsKeyValueProperty(ps[n]) then [n] else [])
  }

  /**
   * `getColon`: the first colon token strictly between the key's last token
   * and the value's first token.
   */
  function GetColon(src: SourceCode, p: Property): (r: Option<nat>)
    requires ValidProperty(src, p)
    ensures r.Some? ==> p.keyLastToken < r.value < p.valueFirstToken
    ensures r.Some? ==> !IsComment(src.tokens[r.value]) && IsColonToken(src.tokens[r.value])
    ensures r.Some? ==> forall k :: p.keyLastToken < k < r.value ==> Skips(src, k, IsColonToken)
    ensures r.None? ==> forall k :: p.keyLastToken < k < p.valueFirstToken ==> Skips(src, k, IsColonToken)
  {
    var c := NextTokenWhere(src, p.keyLastToken, IsColonToken);
    if c.Some? && c.value < p.valueFirstToken then c else None
  }

  /** `getKey`: the source text of a computed key, else the identifier's name or the literal's value. */
  function GetKey(src: SourceCode, p: Property): (r: string)
    ensures p.computed && p.keyStart <= p.keyEnd <= |src.text| ==> r == src.text[p.keyStart..p.keyEnd]
    ensures !p.computed && p.key.IdentifierKey? ==> r == p.key.name
    ensures !p.computed && p.key.LiteralKey? ==> r == p.key.value
  {
    if p.computed then JsSlice(src.text, p.keyStart, p.keyEnd)
    else match p.key
      case IdentifierKey(name) => name
      case LiteralKey(value) => value
      case ExpressionKey => ""
  }

  // ---------------------------------------------------------------------------
  // getOverlappingProperties

  /** `isTokenOnSameLine(last, curr)` applied to two consecutive properties. */
  predicate SharesLine(last: Property, curr: Property)
  {
    last.end.line == curr.start.line
  }

  /** Property `j` shares a line with its neighbour, looking only at the first `n` properties. */
  predicate OverlapsWithin(ps: seq<Property>, n: nat, j: nat)
    requires n <= |ps|
  {
    j < n && ((0 < j && SharesLine(ps[j - 1], ps[j])) || (j + 1 < n && SharesLine(ps[j], ps[j + 1])))
  }

  predicate Overlaps(ps: seq<Property>, j: nat)
  {
    OverlapsWithin(ps, |ps|, j)
  }

  function OverlappingOf(ps: seq<Property>): set<nat>
  {
    set j: nat | j < |ps| && Overlaps(ps, j)
  }

  /**
   * `getOverlappingProperties`: a property is in the set iff it shares a line
   * with the property before it or the one after it.
   */
  method GetOverlappingProperties(ps: seq<Property>) returns (overlapping: set<nat>)
    ensures forall j: nat :: j in overlapping ==> j < |ps| && Overlaps(ps, j)
    ensures forall j: nat :: j < |ps| && Overlaps(ps, j) ==> j in overlapping
    ensures overlapping == OverlappingOf(ps)
  {
    overlapping := {};
    var k := 0;
    while k < |ps|
      invariant k <= |ps|
      invariant forall j: nat :: j in overlapping <==> OverlapsWithin(ps, k, j)
    {
      if k > 0 && SharesLine(ps[k - 1], ps[k]) {
        overlapping := overlapping + {k - 1, k};
      }
      k := k + 1;
    }
  }

  // ---------------------------------------------------------------------------
  // getShiftMap

  /**
   * `sourceCode.getText(t, before)`: the text from `before` characters ahead of
   * `t` through its end, clamped to the text as `String.prototype.slice` does.
   */
  function TextWithBefore(src: SourceCode, t: Token, before: nat): string
  {
    var s := if t.startOffset >= before then t.startOffset - before else 0;
    var e := if t.endOffset <= |src.text| then t.endOffset else |src.text|;
    if s <= e then src.text[s..e] else ""
  }

  /** A mapped property's actual shift and the least shift that leaves a space after its colon. */
  datatype Alignment = Alignment(actualShift: int, minShift: int)

  /**
   * The shift of the first token after the colon, when the property starts on
   * that token's line: graphemes through the colon plus the columns between.
   */
  function AlignmentOf(src: SourceCode, p: Property, graphemes: string -> nat): (r: Option<Alignment>)
    requires ValidProperty(src, p)
    ensures r.Some? ==> r.value.minShift >= 1
  {
    var colon := GetColon(src, p);
    if colon.None? then None
    else
      var c := src.tokens[colon.value];
      var a := src.tokens[colon.value + 1];
      if p.start.line == a.start.line then
        var colonShift := graphemes(TextWithBefore(src, c, c.start.column));
        Some(Alignment(colonShift + (a.start.column as int - c.end.column as int), colonShift + 1))
      else None
  }

  /** The key-value properties given by `kv` are all valid properties of `ps`. */
  predicate ValidIndices(src: SourceCode, ps: seq<Property>, kv: seq<nat>)
  {
    forall j :: 0 <= j < |kv| ==> kv[j] < |ps| && ValidProperty(src, ps[kv[j]])
  }

  /** What position `j` of `kv` contributes: nothing if it is excluded, else its alignment. */
  function AlignmentAt(src: SourceCode, ps: seq<Property>, kv: seq<nat>, excluded: set<nat>,
                       graphemes: string -> nat, j: nat): Option<Alignment>
    requires ValidIndices(src, ps, kv) && j < |kv|
  {
    if kv[j] in excluded then None else AlignmentOf(src, ps[kv[j]], graphemes)
  }

  function Alignments(src: SourceCode, ps: seq<Property>, kv: seq<nat>, excluded: set<nat>,
                      graphemes: string -> nat): (als: seq<Option<Alignment>>)
    requires ValidIndices(src, ps, kv)
    ensures |als| == |kv| && PositiveMinima(als)
    ensures forall j :: 0 <= j < |kv| ==> als[j] == AlignmentAt(src, ps, kv, excluded, graphemes, j)
  {
    seq(|kv|, j requires 0 <= j < |kv| => AlignmentAt(src, ps, kv, excluded, graphemes, j))
  }

  /** The state of `getShiftMap`'s loop: the map (by position in `kv`), its values in order, and the largest minimum. */
  datatype ShiftScan = ShiftScan(shifts: map<nat, int>, values: seq<int>, maxMin: int)

  /** One iteration of `getShiftMap`'s loop at position `n`. */
  function ShiftStep(prev: ShiftScan, n: nat, al: Option<Alignment>): ShiftScan
  {
    if al.None? then prev
    else ShiftScan(prev.shifts[n := al.value.actualShift], prev.values + [al.value.actualShift],
                   if prev.maxMin < al.value.minShift then al.value.minShift else prev.maxMin)
  }

  /** The loop of `getShiftMap` over the alignments `als`. */
  function ScanShifts(als: seq<Option<Alignment>>): ShiftScan
  {
    if als == [] then ShiftScan(map[], [], 0)
    else ShiftStep(ScanShifts(als[..|als| - 1]), |als| - 1, als[|als| - 1])
  }

  /** The map holds exactly the positions that have an alignment, with their actual shifts. */
  lemma {:induction false} ScanKeys(als: seq<Option<Alignment>>)
    ensures var s := ScanShifts(als);
      && (forall j: nat :: j in s.shifts <==> j < |als| && als[j].Some?)
      && (forall j: nat :: j in s.shifts ==> j < |als| && s.shifts[j] == als[j].value.actualShift)
  {
    if als != [] {
      var n := |als| - 1;
      ScanKeys(als[..n]);
      assert forall j :: 0 <= j < n ==> als[..n][j] == als[j];
    }
  }

  /** The values are the map's values in insertion order. */
  lemma {:induction false} ScanValues(als: seq<Option<Alignment>>)
    ensures var s := ScanShifts(als);
      && |s.values| == |s.shifts|
      && (forall k :: 0 <= k < |s.values| ==> exists j: nat :: j in s.shifts && s.shifts[j] == s.values[k])
      && (forall j: nat :: j in s.shifts ==> s.shifts[j] in s.values)
  {
    if als != [] {
      var n := |als| - 1;
      var prev := ScanShifts(als[..n]);
      ScanValues(als[..n]);
      ScanKeys(als[..n]);
      assert n !in prev.shifts;
      var s := ScanShifts(als);
      if als[n].Some? {
        forall k | 0 <= k < |s.values|
          ensures exists j: nat :: j in s.shifts && s.shifts[j] == s.values[k]
        {
          if k < |prev.values| {
            assert s.values[k] == prev.values[k];
            var j: nat :| j in prev.shifts && prev.shifts[j] == prev.values[k];
            assert j in s.shifts && s.shifts[j] == s.values[k];
          } else {
            assert s.shifts[n] == s.values[k];
          }
        }
      }
    }
  }

  /** The largest minimum shift: at least every mapped one, equal to one of them, 0 when nothing is mapped. */
  lemma {:induction false} ScanMaxMin(als: seq<Option<Alignment>>)
    requires PositiveMinima(als)
    ensures var s := ScanShifts(als);
      && (forall j: nat :: j < |als| && als[j].Some? ==> als[j].value.minShift <= s.maxMin)
      && (s.shifts == map[] ==> s.maxMin == 0)
      && (s.shifts != map[] ==> exists j: nat :: j < |als| && als[j].Some? && s.maxMin == als[j].value.minShift)
  {
    if als != [] {
      var n := |als| - 1;
      ScanMaxMin(als[..n]);
      ScanKeys(als[..n]);
      assert forall j :: 0 <= j < n ==> als[..n][j] == als[j];
      var prev := ScanShifts(als[..n]);
      var s := ScanShifts(als);
      if prev.shifts != map[] {
        var j: nat :| j < n && als[..n][j].Some? && prev.maxMin == als[..n][j].value.minShift;
        assert j < |als| && als[j].Some? && prev.maxMin == als[j].value.minShift;
      }
      if als[n].Some? {
        assert n in s.shifts;
        if prev.maxMin < als[n].value.minShift {
          assert s.maxMin == als[n].value.minShift;
        }
      }
    }
  }

  /** Every minimum shift is positive, as `colonShift + 1` is. */
  predicate PositiveMinima(als: seq<Option<Alignment>>)
  {
    forall j :: 0 <= j < |als| && als[j].Some? ==> als[j].value.minShift >= 1
  }

  lemma ScanShiftsExtend(als: seq<Option<Alignment>>, j: nat)
    requires j < |als|
    ensures ScanShifts(als[..j + 1]) == ShiftStep(ScanShifts(als[..j]), j, als[j])
  {
    assert als[..j + 1][..j] == als[..j];
    assert als[..j + 1][j] == als[j];
  }

  /** The result of `getShiftMap`: entries by position in `kv`, and `expectedShift` when it is set. */
  datatype ShiftMap = ShiftMap(shifts: map<nat, int>, expectedShift: Option<int>)

  /**
   * `getShiftMap` on a scan: its entries when there is more than one, with
   * `expectedShift` the smallest of their values that is at least the largest
   * minimum, or that minimum; otherwise an empty map.
   */
  function ShiftMapFrom(s: ShiftScan): ShiftMap
  {
    if |s.shifts| > 1 then
      var smallest := SmallestNotBelow(s.values, s.maxMin);
      ShiftMap(s.shifts, Some(if smallest.Some? then smallest.value else s.maxMin))
    else ShiftMap(map[], None)
  }

  function ShiftMapOf(src: SourceCode, ps: seq<Property>, kv: seq<nat>, excluded: set<nat>,
                      graphemes: string -> nat): ShiftMap
    requires ValidIndices(src, ps, kv)
  {
    ShiftMapFrom(ScanShifts(Alignments(src, ps, kv, excluded, graphemes)))
  }

  /**
   * The body of `getShiftMap`'s loop for one property that is not excluded,
   * split out of `GetShiftMap` as straight-line code. It computes the same
   * value as `AlignmentOf`, which specifies it; the two are kept apart as a
   * method and the function that specifies it.
   */
  method PropertyAlignment(src: SourceCode, p: Property, graphemes: string -> nat) returns (al: Option<Alignment>)
    requires ValidProperty(src, p)
    ensures al == AlignmentOf(src, p, graphemes)
  {
    al := None;
    var colon := GetColon(src, p);
    if colon.Some? {
      var c := src.tokens[colon.value];
      var afterColonStart := src.tokens[colon.value + 1].start;
      if p.start.line == afterColonStart.line {
        var colonShift := graphemes(TextWithBefore(src, c, c.start.column));
        var actualSpace := afterColonStart.column as int - c.end.column as int;
        var actualShift := colonShift + actualSpace;
        var expectedMinShift := colonShift + 1;
        al := Some(Alignment(actualShift, expectedMinShift));
      }
    }
  }

  /** `getShiftMap(properties, excludedProperties)`, with `kv` giving the properties as indices into `ps`. */
  method GetShiftMap(src: SourceCode, ps: seq<Property>, kv: seq<nat>, excluded: set<nat>,
                     graphemes: string -> nat) returns (shiftMap: ShiftMap)
    requires ValidIndices(src, ps, kv)
    ensures shiftMap == ShiftMapOf(src, ps, kv, excluded, graphemes)
  {
    ghost var als := Alignments(src, ps, kv, excluded, graphemes);
    var shifts: map<nat, int> := map[];
    var values: seq<int> := [];
    var maxExpectedMinShift := 0;
    var j := 0;
    while j < |kv|
      invariant j <= |kv|
      invariant ShiftScan(shifts, values, maxExpectedMinShift) == ScanShifts(als[..j])
    {
      ghost var before := ShiftScan(shifts, values, maxExpectedMinShift);
      ScanShiftsExtend(als, j);
      if kv[j] !in excluded {
        var al := PropertyAlignment(src, ps[kv[j]], graphemes);
        if al.Some? {
          if maxExpectedMinShift < al.value.minShift {
            maxExpectedMinShift := al.value.minShift;
          }
          shifts := shifts[j := al.value.actualShift];
          values := values + [al.value.actualShift];
        }
      }
      assert ShiftScan(shifts, values, maxExpectedMinShift) == ShiftStep(before, j, als[j]);
      j := j + 1;
    }
    assert als[..j] == als;
    if |shifts| > 1 {
      var smallest := FindSmallestValueNotBelow(values, maxExpectedMinShift);
      shiftMap := ShiftMap(shifts, Some(if smallest.Some? then smallest.value else maxExpectedMinShift));
    } else {
      shiftMap := ShiftMap(map[], None);
    }
  }

  /**
   * The shift map has no single entry; `expectedShift` is set iff it has
   * entries; its entries are exactly the positions with an alignment, with
   * their actual shifts; the expected shift is at least the largest
   * `colonShift + 1`, so it leaves room for a space after every mapped colon;
   * and it is the smallest actual shift that does so, or that largest minimum
   * when none does.
   */
  lemma ShiftMapShape(als: seq<Option<Alignment>>)
    requires PositiveMinima(als)
    ensures var m := ShiftMapFrom(ScanShifts(als));
      && |m.shifts| != 1
      && (m.shifts != map[] <==> m.expectedShift.Some?)
      && (forall j: nat :: j in m.shifts ==> j < |als| && als[j].Some? && m.shifts[j] == als[j].value.actualShift)
      && (m.shifts != map[] ==> forall j: nat :: j < |als| && als[j].Some? ==> j in m.shifts)
    ensures var m := ShiftMapFrom(ScanShifts(als));
      var lo := ScanShifts(als).maxMin;
      m.expectedShift.Some? ==>
        && (forall j: nat :: j in m.shifts ==> als[j].value.minShift <= lo)
        && (exists j: nat :: j in m.shifts && als[j].value.minShift == lo)
        && lo <= m.expectedShift.value
        && (forall j: nat :: j in m.shifts && lo <= m.shifts[j] ==> m.expectedShift.value <= m.shifts[j])
        && ((exists j: nat :: j in m.shifts && lo <= m.shifts[j]) ==>
              exists j: nat :: j in m.shifts && m.shifts[j] == m.expectedShift.value)
        && ((forall j: nat :: j in m.shifts ==> m.shifts[j] < lo) ==> m.expectedShift.value == lo)
  {
    var s := ScanShifts(als);
    ScanKeys(als);
    ScanValues(als);
    ScanMaxMin(als);
    if |s.shifts| > 1 {
      var smallest := SmallestNotBelow(s.values, s.maxMin);
      if smallest.Some? {
        var k :| 0 <= k < |s.values| && s.values[k] == smallest.value;
        var j: nat :| j in s.shifts && s.shifts[j] == s.values[k];
        forall i: nat | i in s.shifts && s.maxMin <= s.shifts[i]
          ensures smallest.value <= s.shifts[i]
        {
          var k' :| 0 <= k' < |s.values| && s.values[k'] == s.shifts[i];
        }
      } else {
        forall j: nat | j in s.shifts
          ensures s.shifts[j] < s.maxMin
        {
          var k :| 0 <= k < |s.values| && s.values[k] == s.shifts[j];
        }
      }
    }
  }

  /**
   * An alignment block whose properties already share one shift that leaves a
   * space after every colon keeps that shift as the expected one.
   */
  lemma AlignedBlockKeepsItsShift(als: seq<Option<Alignment>>, shift: int)
    requires PositiveMinima(als)
    requires |ScanShifts(als).shifts| > 1
    requires forall j :: 0 <= j < |als| && als[j].Some? ==>
      als[j].value.actualShift == shift && als[j].value.minShift <= shift
    ensures ShiftMapFrom(ScanShifts(als)).expectedShift == Some(shift)
  {
    var s := ScanShifts(als);
    ScanKeys(als);
    ScanValues(als);
    ScanMaxMin(als);
    var j: nat :| j < |als| && als[j].Some? && s.maxMin == als[j].value.minShift;
    assert s.values[0] == shift by {
      var i: nat :| i in s.shifts && s.shifts[i] == s.values[0];
    }
    var smallest := SmallestNotBelow(s.values, s.maxMin);
    var k :| 0 <= k < |s.values| && s.values[k] == smallest.value;
    var i: nat :| i in s.shifts && s.shifts[i] == s.values[k];
  }

  // ---------------------------------------------------------------------------
  // verifySpacing

  datatype ColonMessage = ExtraSpaceAfterColon | ExtraSpaceBeforeColon | MissingSpaceAfterColon

  /** A fix replacing `[start, end)` by `text`; `start` is computed and is not known to be an offset. */
  datatype Edit = Edit(start: int, end: int, text: string)

  /** A report on the colon (a token index), with the `computed` flag and key of the message. */
  datatype ColonReport = ColonReport(colon: nat, message: ColonMessage, computed: bool, key: string, fix: Edit)

  predicate HasColonMessage(rs: seq<ColonReport>, m: ColonMessage)
  {
    exists k :: 0 <= k < |rs| && rs[k].message == m
  }

  /** `spaceBeforeColon`: the columns between the token or comment before the colon and the colon, on one line. */
  function SpaceBeforeColon(src: SourceCode, colon: nat): int
    requires 0 < colon < |src.tokens|
  {
    var c := src.tokens[colon];
    var b := src.tokens[colon - 1];
    if c.start.line == b.end.line then c.start.column as int - b.end.column as int else 0
  }

  /**
   * `missingSpace` for the property at position `pos`: against the expected
   * shift when it is mapped, else against one column after the colon. `None`
   * is the `NaN` of a mapped entry without an expected shift.
   */
  function MissingSpace(src: SourceCode, colon: nat, pos: nat, sm: ShiftMap): Option<int>
    requires 0 < colon && colon + 1 < |src.tokens|
  {
    if pos in sm.shifts then
      if sm.expectedShift.Some? then Some(sm.expectedShift.value - sm.shifts[pos] + SpaceBeforeColon(src, colon))
      else None
    else Some(src.tokens[colon].end.column as int + 1 - src.tokens[colon + 1].start.column as int)
  }

  /** The token after the colon starts on the line where the colon ends. */
  predicate AfterColonChecked(src: SourceCode, colon: nat)
    requires colon + 1 < |src.tokens|
  {
    src.tokens[colon].end.line == src.tokens[colon + 1].start.line
  }

  /**
   * The body of `verifySpacing`'s loop for the key-value property `p` at
   * position `pos`: at most one report before the colon and one after it.
   */
  function PropertyReports(src: SourceCode, p: Property, pos: nat, sm: ShiftMap): seq<ColonReport>
    requires ValidProperty(src, p)
  {
    var colonIndex := GetColon(src, p);
    if colonIndex.None? then []
    else
      var colon := colonIndex.value;
      BeforeColonReports(src, p, colon) + AfterColonReports(src, p, colon, pos, sm)
  }

  /** The report on space before the colon, if there is any on its line. */
  function BeforeColonReports(src: SourceCode, p: Property, colon: nat): seq<ColonReport>
    requires 0 < colon < |src.tokens|
  {
    if SpaceBeforeColon(src, colon) != 0
    then [ColonReport(colon, ExtraSpaceBeforeColon, p.computed, GetKey(src, p),
                      Edit(src.tokens[colon - 1].endOffset, src.tokens[colon].startOffset, ""))]
    else []
  }

  /** The report on the space after the colon, when the next token starts on the colon's line. */
  function AfterColonReports(src: SourceCode, p: Property, colon: nat, pos: nat, sm: ShiftMap): seq<ColonReport>
    requires 0 < colon && colon + 1 < |src.tokens|
  {
    var missing := MissingSpace(src, colon, pos, sm);
    if !AfterColonChecked(src, colon) || missing.None? then []
    else if missing.value > 0
    then [ColonReport(colon, MissingSpaceAfterColon, p.computed, GetKey(src, p),
                      Edit(src.tokens[colon].endOffset, src.tokens[colon].endOffset, Spaces(missing.value)))]
    else if missing.value < 0
    then [ColonReport(colon, ExtraSpaceAfterColon, p.computed, GetKey(src, p),
                      Edit(src.tokens[colon + 1].startOffset + missing.value, src.tokens[colon + 1].startOffset, ""))]
    else []
  }

  /**
   * What `verifySpacing` reports for one property: nothing without a colon;
   * a space-before report iff there is space between the colon and what
   * precedes it on its line, removing exactly that space; and, when the next
   * token starts on the colon's line, a missing-space report iff the missing
   * amount is positive, inserting that many spaces after the colon, and an
   * extra-space report iff it is negative, removing that many characters
   * before the next token.
   */
  lemma PropertyReportsShape(src: SourceCode, p: Property, pos: nat, sm: ShiftMap)
    requires ValidProperty(src, p)
    ensures GetColon(src, p).None? ==> PropertyReports(src, p, pos, sm) == []
    ensures |PropertyReports(src, p, pos, sm)| <= 2
    ensures GetColon(src, p).Some? ==>
      var r := PropertyReports(src, p, pos, sm);
      var colon := GetColon(src, p).value;
      var c := src.tokens[colon];
      var a := src.tokens[colon + 1];
      var b := src.tokens[colon - 1];
      var missing := MissingSpace(src, colon, pos, sm);
      && (HasColonMessage(r, ExtraSpaceBeforeColon) <==> SpaceBeforeColon(src, colon) != 0)
      && (HasColonMessage(r, MissingSpaceAfterColon) <==>
            AfterColonChecked(src, colon) && missing.Some? && missing.value > 0)
      && (HasColonMessage(r, ExtraSpaceAfterColon) <==>
            AfterColonChecked(src, colon) && missing.Some? && missing.value < 0)
      && forall k :: 0 <= k < |r| ==>
           && r[k].colon == colon && r[k].computed == p.computed && r[k].key == GetKey(src, p)
           && (r[k].message.ExtraSpaceBeforeColon? ==> r[k].fix == Edit(b.endOffset, c.startOffset, ""))
           && (r[k].message.MissingSpaceAfterColon? ==>
                 missing.Some? && missing.value > 0 && r[k].fix == Edit(c.endOffset, c.endOffset, Spaces(missing.value)))
           && (r[k].message.ExtraSpaceAfterColon? ==>
                 missing.Some? && r[k].fix == Edit(a.startOffset + missing.value, a.startOffset, ""))
  {
    var r := PropertyReports(src, p, pos, sm);
    if GetColon(src, p).Some? {
      var colon := GetColon(src, p).value;
      var n := if SpaceBeforeColon(src, colon) != 0 then 1 else 0;
      assert forall k :: 0 <= k < |r| ==> (k < n <==> r[k].message.ExtraSpaceBeforeColon?);
      if n == 1 { assert r[0].message == ExtraSpaceBeforeColon; }
      if |r| > n { assert r[n].message != ExtraSpaceBeforeColon; }
    }
  }

  /** The reports of each key-value property, by position in `kv`. */
  function PerPosition(src: SourceCode, ps: seq<Property>, kv: seq<nat>, sm: ShiftMap): (parts: seq<seq<ColonReport>>)
    requires ValidIndices(src, ps, kv)
    ensures |parts| == |kv|
    ensures forall j :: 0 <= j < |kv| ==> parts[j] == PropertyReports(src, ps[kv[j]], j, sm)
  {
    seq(|kv|, j requires 0 <= j < |kv| => PropertyReports(src, ps[kv[j]], j, sm))
  }

  /** The concatenation of `parts`, in order. */
  function Flatten<T>(parts: seq<seq<T>>): seq<T>
  {
    if parts == [] then [] else Flatten(parts[..|parts| - 1]) + parts[|parts| - 1]
  }

  lemma FlattenStep<T>(parts: seq<seq<T>>, j: nat)
    requires j < |parts|
    ensures Flatten(parts[..j + 1]) == Flatten(parts[..j]) + parts[j]
  {
    assert parts[..j + 1][..j] == parts[..j];
  }

  lemma ValidObjectIndices(src: SourceCode, ps: seq<Property>)
    requires ValidObject(src, ps)
    ensures ValidIndices(src, ps, KeyValueIndices(ps))
  {
  }

  /** What `verifySpacing` reports for an object literal with properties `ps`. */
  function ObjectReports(src: SourceCode, ps: seq<Property>, graphemes: string -> nat): seq<ColonReport>
    requires ValidObject(src, ps)
  {
    var kv := KeyValueIndices(ps);
    ValidObjectIndices(src, ps);
    Flatten(PerPosition(src, ps, kv, ShiftMapOf(src, ps, kv, OverlappingOf(ps), graphemes)))
  }

  /** `verifySpacing`, the listener for an object literal. */
  method VerifySpacing(src: SourceCode, ps: seq<Property>, graphemes: string -> nat) returns (reports: seq<ColonReport>)
    requires ValidObject(src, ps)
    ensures reports == ObjectReports(src, ps, graphemes)
  {
    var keyValueProperties := KeyValueIndices(ps);
    ValidObjectIndices(src, ps);
    var overlappingProperties := GetOverlappingProperties(ps);
    var shiftMap := GetShiftMap(src, ps, keyValueProperties, overlappingProperties, graphemes);
    reports := VerifyEach(src, ps, keyValueProperties, shiftMap);
  }

  /** The loop of `verifySpacing`: the reports of each key-value property in turn, against the shift map. */
  method VerifyEach(src: SourceCode, ps: seq<Property>, kv: seq<nat>, shiftMap: ShiftMap) returns (reports: seq<ColonReport>)
    requires ValidIndices(src, ps, kv)
    ensures reports == Flatten(PerPosition(src, ps, kv, shiftMap))
  {
    ghost var parts := PerPosition(src, ps, kv, shiftMap);
    reports := [];
    var j := 0;
    while j < |kv|
      invariant j <= |kv|
      invariant reports == Flatten(parts[..j])
    {
      FlattenStep(parts, j);
      reports := reports + PropertyReports(src, ps[kv[j]], j, shiftMap);
      j := j + 1;
    }
    assert parts[..j] == parts;
  }

  // ---------------------------------------------------------------------------
  // What the fixes achieve

  /** The property's colon, and that the tokens beside it exist. */
  predicate HasColon(src: SourceCode, p: Property)
  {
    ValidProperty(src, p) && GetColon(src, p).Some?
  }

  /** The tokens around `i` are well formed and the one before does not overlap it. */
  predicate NeighboursWellFormed(src: SourceCode, i: nat)
    requires 0 < i && i + 1 < |src.tokens|
  {
    && TokenWellFormed(src, src.tokens[i - 1])
    && TokenWellFormed(src, src.tokens[i])
    && TokenWellFormed(src, src.tokens[i + 1])
    && src.tokens[i - 1].endOffset <= src.tokens[i].startOffset
  }

  predicate TokensWellFormed(src: SourceCode)
  {
    forall i: nat :: 0 < i && i + 1 < |src.tokens| ==> NeighboursWellFormed(src, i)
  }

  lemma WellFormedTokens(src: SourceCode)
    requires WellFormed(src)
    ensures TokensWellFormed(src)
  {
    forall i: nat | 0 < i && i + 1 < |src.tokens|
      ensures NeighboursWellFormed(src, i)
    {
      assert AdjacentInOrder(src, i - 1);
    }
  }

  /**
   * Outside an alignment block the after-colon fix leaves exactly one column
   * between the colon and the next token: an insertion fills the gap up to
   * one, a removal starts one past the colon, and no report means the gap is
   * already one.
   */
  lemma OutOfBlockGapBecomesOne(src: SourceCode, p: Property, pos: nat, sm: ShiftMap)
    requires TokensWellFormed(src) && HasColon(src, p) && pos !in sm.shifts
    requires AfterColonChecked(src, GetColon(src, p).value)
    ensures var colon := GetColon(src, p).value;
      var c := src.tokens[colon];
      var a := src.tokens[colon + 1];
      var r := PropertyReports(src, p, pos, sm);
      && (forall k :: 0 <= k < |r| && r[k].message.MissingSpaceAfterColon? ==>
            r[k].fix.start == r[k].fix.end == c.endOffset && a.startOffset - c.endOffset + |r[k].fix.text| == 1)
      && (forall k :: 0 <= k < |r| && r[k].message.ExtraSpaceAfterColon? ==>
            r[k].fix.start == c.endOffset + 1 && r[k].fix.end == a.startOffset)
      && (!HasColonMessage(r, MissingSpaceAfterColon) && !HasColonMessage(r, ExtraSpaceAfterColon) <==>
            a.startOffset == c.endOffset + 1)
  {
    PropertyReportsShape(src, p, pos, sm);
    assert NeighboursWellFormed(src, GetColon(src, p).value);
  }

  /**
   * The colon's spacing agrees with the shift map: a mapped position has an
   * alignment with that actual shift, not below the expected shift's minimum.
   */
  predicate AgreesWithShiftMap(src: SourceCode, p: Property, pos: nat, sm: ShiftMap, graphemes: string -> nat)
    requires ValidProperty(src, p)
  {
    pos in sm.shifts ==>
      && sm.expectedShift.Some?
      && AlignmentOf(src, p, graphemes).Some?
      && sm.shifts[pos] == AlignmentOf(src, p, graphemes).value.actualShift
      && AlignmentOf(src, p, graphemes).value.minShift <= sm.expectedShift.value
  }

  /** A removal after the colon leaves at least one column after it and ends at the next token. */
  predicate KeepsASpace(src: SourceCode, r: ColonReport)
  {
    r.message.ExtraSpaceAfterColon? ==>
      && r.colon + 1 < |src.tokens|
      && r.fix.start >= src.tokens[r.colon].endOffset + 1
      && r.fix.end == src.tokens[r.colon + 1].startOffset
  }

  predicate AllKeepASpace(src: SourceCode, rs: seq<ColonReport>)
  {
    forall r :: r in rs ==> KeepsASpace(src, r)
  }

  /** A removal after the colon never reaches the colon. */
  lemma RemovalKeepsASpace(src: SourceCode, p: Property, pos: nat, sm: ShiftMap, graphemes: string -> nat)
    requires TokensWellFormed(src) && ValidProperty(src, p) && AgreesWithShiftMap(src, p, pos, sm, graphemes)
    ensures AllKeepASpace(src, PropertyReports(src, p, pos, sm))
  {
    if GetColon(src, p).Some? {
      var colon := GetColon(src, p).value;
      var before := BeforeColonReports(src, p, colon);
      var after := AfterColonReports(src, p, colon, pos, sm);
      assert PropertyReports(src, p, pos, sm) == before + after;
      assert forall r :: r in before ==> r.message.ExtraSpaceBeforeColon?;
      AfterColonKeepsASpace(src, p, pos, sm, graphemes);
      ConcatKeepsASpace(src, before, after);
    }
  }

  /** The removal after the colon starts at least one column past the colon. */
  lemma AfterColonKeepsASpace(src: SourceCode, p: Property, pos: nat, sm: ShiftMap, graphemes: string -> nat)
    requires TokensWellFormed(src) && ValidProperty(src, p) && AgreesWithShiftMap(src, p, pos, sm, graphemes)
    requires GetColon(src, p).Some?
    ensures AllKeepASpace(src, AfterColonReports(src, p, GetColon(src, p).value, pos, sm))
  {
    var colon := GetColon(src, p).value;
    var missing := MissingSpace(src, colon, pos, sm);
    if AfterColonChecked(src, colon) && missing.Some? && missing.value < 0 {
      assert NeighboursWellFormed(src, colon);
      assert SpaceBeforeColon(src, colon) >= 0;
      assert src.tokens[colon + 1].startOffset + missing.value >= src.tokens[colon].endOffset + 1;
    }
  }

  /**
   * Within an alignment block, a property whose shift already is the expected
   * one and that has no space before its colon gets no report at all.
   */
  lemma AlignedPropertyNotReported(src: SourceCode, p: Property, pos: nat, sm: ShiftMap)
    requires HasColon(src, p)
    requires pos in sm.shifts && sm.expectedShift == Some(sm.shifts[pos])
    requires SpaceBeforeColon(src, GetColon(src, p).value) == 0
    ensures PropertyReports(src, p, pos, sm) == []
  {
    PropertyReportsShape(src, p, pos, sm);
  }

  /** Every position of `kv` agrees with the shift map `sm`. */
  predicate MapAgrees(src: SourceCode, ps: seq<Property>, kv: seq<nat>, sm: ShiftMap, graphemes: string -> nat)
  {
    ValidIndices(src, ps, kv) && forall j :: 0 <= j < |kv| ==> AgreesAt(src, ps, kv, sm, graphemes, j)
  }

  predicate AgreesAt(src: SourceCode, ps: seq<Property>, kv: seq<nat>, sm: ShiftMap, graphemes: string -> nat, j: nat)
    requires ValidIndices(src, ps, kv) && j < |kv|
  {
    AgreesWithShiftMap(src, ps[kv[j]], j, sm, graphemes)
  }

  /** The shift map `getShiftMap` builds agrees with the spacing of every property it was built from. */
  lemma ShiftMapAgrees(src: SourceCode, ps: seq<Property>, kv: seq<nat>, excluded: set<nat>, graphemes: string -> nat)
    requires ValidIndices(src, ps, kv)
    ensures MapAgrees(src, ps, kv, ShiftMapOf(src, ps, kv, excluded, graphemes), graphemes)
  {
    var als := Alignments(src, ps, kv, excluded, graphemes);
    ShiftMapShape(als);
    var sm := ShiftMapOf(src, ps, kv, excluded, graphemes);
    forall j | 0 <= j < |kv|
      ensures AgreesAt(src, ps, kv, sm, graphemes, j)
    {
      if j in sm.shifts {
        assert als[j] == AlignmentAt(src, ps, kv, excluded, graphemes, j);
      }
    }
  }

  /** Every part holds only reports that keep a space. */
  predicate PartsKeepASpace(src: SourceCode, parts: seq<seq<ColonReport>>)
  {
    forall j :: 0 <= j < |parts| ==> AllKeepASpace(src, parts[j])
  }

  lemma {:induction false} FlattenKeepsASpace(src: SourceCode, parts: seq<seq<ColonReport>>)
    requires PartsKeepASpace(src, parts)
    ensures AllKeepASpace(src, Flatten(parts))
  {
    if parts != [] {
      var n := |parts| - 1;
      assert PartsKeepASpace(src, parts[..n]) by {
        forall j | 0 <= j < n ensures AllKeepASpace(src, parts[..n][j]) {
          assert parts[..n][j] == parts[j];
        }
      }
      FlattenKeepsASpace(src, parts[..n]);
      assert AllKeepASpace(src, parts[n]);
      ConcatKeepsASpace(src, Flatten(parts[..n]), parts[n]);
    }
  }

  lemma ConcatKeepsASpace(src: SourceCode, a: seq<ColonReport>, b: seq<ColonReport>)
    requires AllKeepASpace(src, a) && AllKeepASpace(src, b)
    ensures AllKeepASpace(src, a + b)
  {
  }

  /** In everything `verifySpacing` reports, a removal after a colon leaves at least one column after it. */
  lemma VerifySpacingKeepsASpace(src: SourceCode, ps: seq<Property>, graphemes: string -> nat)
    requires WellFormed(src) && ValidObject(src, ps)
    ensures AllKeepASpace(src, ObjectReports(src, ps, graphemes))
  {
    var kv := KeyValueIndices(ps);
    ValidObjectIndices(src, ps);
    WellFormedTokens(src);
    ShiftMapAgrees(src, ps, kv, OverlappingOf(ps), graphemes);
    var sm := ShiftMapOf(src, ps, kv, OverlappingOf(ps), graphemes);
    forall j | 0 <= j < |kv|
      ensures AllKeepASpace(src, PropertyReports(src, ps[kv[j]], j, sm))
    {
      assert AgreesAt(src, ps, kv, sm, graphemes, j);
      RemovalKeepsASpace(src, ps[kv[j]], j, sm, graphemes);
    }
    var parts := PerPosition(src, ps, kv, sm);
    assert PartsKeepASpace(src, parts);
    FlattenKeepsASpace(src, parts);
  }
}
