/**
 * The rule `property-shorthand`: a property of an object literal whose key
 * and value are the same identifier, with only the colon between them, is
 * written in its shorthand form.
 */
module PropertyShorthand {

  import opened Source

  /**
   * A property's key or value: an identifier (its decoded `name` and its one
   * token) or any other expression (its first and last token).
   */
  datatype PropertyPart =
    | IdentifierPart(name: string, token: nat)
    | OtherPart(firstToken: nat, lastToken: nat)
  {
    function First(): nat
    {
      if IdentifierPart? then token else firstToken
    }

    function Last(): nat
    {
      if IdentifierPart? then token else lastToken
    }
  }

  /**
   * A `Property` node: its flags, key and value, whether its parent is an
   * `ObjectExpression` (rather than an object pattern), and its `loc` and
   * `range`.
   */
  datatype PropertyNode = PropertyNode(
    shorthand: bool,
    computed: bool,
    key: PropertyPart,
    value: PropertyPart,
    inObjectExpression: bool,
    start: Position,
    end: Position,
    startOffset: nat,
    endOffset: nat)

  /** The report: on the property, naming the key, with the fix that rewrites the property as its key. */
  datatype ShorthandReport = ShorthandReport(start: Position, end: Position, name: string, fix: Fix)

  /** What the parser guarantees: the key's and the value's tokens exist, the key's before the value's. */
  predicate ValidPart(src: SourceCode, part: PropertyPart)
  {
    part.First() <= part.Last() < |src.tokens|
  }

  predicate ValidProperty(src: SourceCode, p: PropertyNode)
  {
    ValidPart(src, p.key) && ValidPart(src, p.value) && p.key.Last() < p.value.First()
  }

  /** The guards of `checkProperty` on the node itself: a non-shorthand, non-computed `name: name` with `name` not `__proto__`. */
  predicate RepeatsItsKey(p: PropertyNode)
  {
    && !p.shorthand && !p.computed
    && p.key.IdentifierPart? && p.key.name != "__proto__"
    && p.value.IdentifierPart? && p.value.name == p.key.name
  }

  /** `reportProperty`: the whole property is replaced by the key's source text. */
  function ReportProperty(src: SourceCode, p: PropertyNode): ShorthandReport
    requires ValidProperty(src, p)
  {
    var keyFirst := src.tokens[p.key.First()];
    var keyLast := src.tokens[p.key.Last()];
    var keyText := JsSlice(src.text, keyFirst.startOffset, keyLast.endOffset);
    var name := if p.key.IdentifierPart? then p.key.name else "";
    ShorthandReport(p.start, p.end, name, Fix(p.startOffset, p.endOffset, keyText))
  }

  /**
   * `checkProperty`: after the guards, a report iff the token or comment
   * after the key is the token or comment before the value.
   */
  function CheckProperty(src: SourceCode, p: PropertyNode): Option<ShorthandReport>
    requires ValidProperty(src, p)
  {
    if p.shorthand || p.computed then None
    else if !p.key.IdentifierPart? then None
    else if p.key.name == "__proto__" then None
    else if !p.value.IdentifierPart? then None
    else if p.key.name != p.value.name then None
    else if NextTokenOrComment(src, p.key.Last()) == PrevTokenOrComment(src, p.value.First()) then
      Some(ReportProperty(src, p))
    else None
  }

  /**
   * A report iff the property repeats its key and exactly one token or
   * comment (the colon) separates the key from the value; the report names
   * the key, spans the property and its fix replaces the property's range by
   * the key's source text.
   */
  lemma CheckPropertyShape(src: SourceCode, p: PropertyNode)
    requires ValidProperty(src, p)
    ensures var r := CheckProperty(src, p);
      && (r.Some? <==> RepeatsItsKey(p) && p.value.token == p.key.token + 2)
      && (r.Some? ==>
            var keyToken := src.tokens[p.key.token];
            && r.value.name == p.key.name
            && r.value.start == p.start && r.value.end == p.end
            && r.value.fix == Fix(p.startOffset, p.endOffset, JsSlice(src.text, keyToken.startOffset, keyToken.endOffset)))
  {
    if RepeatsItsKey(p) {
      assert NextTokenOrComment(src, p.key.Last()) == Some(p.key.token + 1);
      assert PrevTokenOrComment(src, p.value.First()) == Some(p.value.token - 1);
    }
  }

  /** Applying the fix leaves the text around the property and puts the key's text in its place. */
  lemma FixReplacesPropertyByKey(src: SourceCode, p: PropertyNode)
    requires ValidProperty(src, p) && CheckProperty(src, p).Some?
    requires p.startOffset <= p.endOffset <= |src.text|
    requires src.tokens[p.key.token].startOffset <= src.tokens[p.key.token].endOffset <= |src.text|
    ensures var keyToken := src.tokens[p.key.token];
      ApplyFix(src.text, CheckProperty(src, p).value.fix) ==
        src.text[..p.startOffset] + src.text[keyToken.startOffset..keyToken.endOffset] + src.text[p.endOffset..]
  {
    CheckPropertyShape(src, p);
    var f := CheckProperty(src, p).value.fix;
    var r := ApplyFix(src.text, f);
    assert r == r[..f.start] + r[f.start..f.start + |f.text|] + r[f.start + |f.text|..];
  }

  /**
   * The listener: `checkProperty` on every property of an object literal, in
   * order, and no listener at all before ECMAScript 2015.
   */
  function Check(ecmaVersion: int, src: SourceCode, properties: seq<PropertyNode>): seq<ShorthandReport>
    requires forall i :: 0 <= i < |properties| ==> ValidProperty(src, properties[i])
  {
    if ecmaVersion < 2015 then [] else PropertyReports(src, properties)
  }

  function PropertyReports(src: SourceCode, properties: seq<PropertyNode>): seq<ShorthandReport>
    requires forall i :: 0 <= i < |properties| ==> ValidProperty(src, properties[i])
  {
    if |properties| == 0 then []
    else
      var p := properties[|properties| - 1];
      var r := CheckProperty(src, p);
      PropertyReports(src, properties[..|properties| - 1])
      + (if p.inObjectExpression && r.Some? then [r.value] else [])
  }

  /** The listener reports the property: it is in an object literal and `checkProperty` reports it. */
  predicate Reported(src: SourceCode, p: PropertyNode)
    requires ValidProperty(src, p)
  {
    p.inObjectExpression && CheckProperty(src, p).Some?
  }

  /** Before ECMAScript 2015 nothing is reported. */
  lemma EarlyVersionsReportNothing(ecmaVersion: int, src: SourceCode, properties: seq<PropertyNode>)
    requires forall i :: 0 <= i < |properties| ==> ValidProperty(src, properties[i])
    requires ecmaVersion < 2015
    ensures Check(ecmaVersion, src, properties) == []
  {
  }

  /** `r` is the report of a property of `properties` that the listener reports. */
  predicate ReportOfSome(src: SourceCode, properties: seq<PropertyNode>, r: ShorthandReport)
    requires forall i :: 0 <= i < |properties| ==> ValidProperty(src, properties[i])
  {
    exists i :: 0 <= i < |properties| && Reported(src, properties[i]) && r == CheckProperty(src, properties[i]).value
  }

  /**
   * `idx` names, in strictly increasing order, the reported property behind
   * each report of `r`: so the reports follow the properties' order and no
   * property has two.
   */
  predicate ReportIndices(src: SourceCode, properties: seq<PropertyNode>, r: seq<ShorthandReport>, idx: seq<nat>)
    requires forall i :: 0 <= i < |properties| ==> ValidProperty(src, properties[i])
  {
    && |idx| == |r|
    && (forall a, b :: 0 <= a < b < |idx| ==> idx[a] < idx[b])
    && forall k :: 0 <= k < |r| ==>
         idx[k] < |properties| && Reported(src, properties[idx[k]]) && r[k] == CheckProperty(src, properties[idx[k]]).value
  }

  /** Some strictly increasing choice of reported properties accounts for the reports `r`, one each. */
  ghost predicate OnePerProperty(src: SourceCode, properties: seq<PropertyNode>, r: seq<ShorthandReport>)
    requires forall i :: 0 <= i < |properties| ==> ValidProperty(src, properties[i])
  {
    exists idx :: ReportIndices(src, properties, r, idx)
  }

  /**
   * From ECMAScript 2015 on, the reports are exactly those of the object
   * literals' reported properties: every report is one of them, every
   * reported property has its report, and there is at most one per property.
   */
  lemma ReportsArePropertyReports(src: SourceCode, properties: seq<PropertyNode>)
    requires forall i :: 0 <= i < |properties| ==> ValidProperty(src, properties[i])
    ensures var r := PropertyReports(src, properties);
      && |r| <= |properties|
      && (forall k :: 0 <= k < |r| ==> ReportOfSome(src, properties, r[k]))
      && OnePerProperty(src, properties, r)
      && (forall i :: 0 <= i < |properties| && Reported(src, properties[i]) ==>
            CheckProperty(src, properties[i]).value in r)
  {
    ReportsSound(src, properties);
    ReportsOnePerProperty(src, properties);
    ReportsComplete(src, properties);
  }

  /** Every report is that of a reported property, and there are no more reports than properties. */
  lemma {:induction false} ReportsSound(src: SourceCode, properties: seq<PropertyNode>)
    requires forall i :: 0 <= i < |properties| ==> ValidProperty(src, properties[i])
    ensures var r := PropertyReports(src, properties);
      && |r| <= |properties|
      && forall k :: 0 <= k < |r| ==> ReportOfSome(src, properties, r[k])
  {
    if |properties| > 0 {
      var n := |properties| - 1;
      var init := properties[..n];
      ReportsSound(src, init);
      var prev := PropertyReports(src, init);
      var p := properties[n];
      var r := PropertyReports(src, properties);
      assert r == prev + (if Reported(src, p) then [CheckProperty(src, p).value] else []);
      forall k | 0 <= k < |r|
        ensures ReportOfSome(src, properties, r[k])
      {
        if k < |prev| {
          assert r[k] == prev[k];
          assert ReportOfSome(src, init, prev[k]);
          var i :| 0 <= i < |init| && Reported(src, init[i]) && prev[k] == CheckProperty(src, init[i]).value;
          assert properties[i] == init[i];
        } else {
          assert Reported(src, properties[n]) && r[k] == CheckProperty(src, properties[n]).value;
        }
      }
    }
  }

  /** The reports follow the properties' order, at most one per property. */
  lemma {:induction false} ReportsOnePerProperty(src: SourceCode, properties: seq<PropertyNode>)
    requires forall i :: 0 <= i < |properties| ==> ValidProperty(src, properties[i])
    ensures OnePerProperty(src, properties, PropertyReports(src, properties))
  {
    if |properties| == 0 {
      assert ReportIndices(src, properties, [], []);
    } else {
      var n := |properties| - 1;
      var init := properties[..n];
      ReportsOnePerProperty(src, init);
      var prev := PropertyReports(src, init);
      var p := properties[n];
      var r := PropertyReports(src, properties);
      assert r == prev + (if Reported(src, p) then [CheckProperty(src, p).value] else []);
      var prevIdx :| ReportIndices(src, init, prev, prevIdx);
      var idx := prevIdx + (if Reported(src, p) then [n] else []);
      forall k | 0 <= k < |r|
        ensures idx[k] < |properties| && Reported(src, properties[idx[k]]) && r[k] == CheckProperty(src, properties[idx[k]]).value
      {
        if k < |prev| {
          assert idx[k] == prevIdx[k] && r[k] == prev[k];
          assert properties[prevIdx[k]] == init[prevIdx[k]];
        }
      }
      assert ReportIndices(src, properties, r, idx);
    }
  }

  /** Every reported property has its report. */
  lemma {:induction false} ReportsComplete(src: SourceCode, properties: seq<PropertyNode>)
    requires forall i :: 0 <= i < |properties| ==> ValidProperty(src, properties[i])
    ensures forall i :: 0 <= i < |properties| && Reported(src, properties[i]) ==>
      CheckProperty(src, properties[i]).value in PropertyReports(src, properties)
  {
    if |properties| > 0 {
      var n := |properties| - 1;
      var init := properties[..n];
      ReportsComplete(src, init);
      var prev := PropertyReports(src, init);
      var p := properties[n];
      var r := PropertyReports(src, properties);
      assert r == prev + (if Reported(src, p) then [CheckProperty(src, p).value] else []);
      forall i | 0 <= i < |properties| && Reported(src, properties[i])
        ensures CheckProperty(src, properties[i]).value in r
      {
        if i < n {
          assert properties[i] == init[i];
        }
      }
    }
  }

  /** `const obj = { f\u006fo: fo\u006f };`, whose key and value both spell `foo` with an escape. */
  function EscapedKeySource(): SourceCode
  {
    var text := "const obj = { " + "f\\u006fo" + ": fo\\u006f" + " };";
    SourceCode(
      text,
      [text],
      [0],
      [ Token(Keyword, "const", Position(1, 0), Position(1, 5), 0, 5),
        Token(TokenType.Identifier, "obj", Position(1, 6), Position(1, 9), 6, 9),
        Token(Punctuator, "=", Position(1, 10), Position(1, 11), 10, 11),
        Token(Punctuator, "{", Position(1, 12), Position(1, 13), 12, 13),
        Token(TokenType.Identifier, "foo", Position(1, 14), Position(1, 22), 14, 22),
        Token(Punctuator, ":", Position(1, 22), Position(1, 23), 22, 23),
        Token(TokenType.Identifier, "foo", Position(1, 24), Position(1, 32), 24, 32),
        Token(Punctuator, "}", Position(1, 33), Position(1, 34), 33, 34),
        Token(Punctuator, ";", Position(1, 34), Position(1, 35), 34, 35) ],
      _ => NodeInfo(OtherNode, 0))
  }

  /**
   * The report names the decoded key `foo` while the fix keeps the key as
   * written: `const obj = { foo };`.
   */
  lemma EscapedKeyKeepsItsSpelling()
    ensures var src := EscapedKeySource();
      var p := PropertyNode(false, false, IdentifierPart("foo", 4), IdentifierPart("foo", 6), true,
                            Position(1, 14), Position(1, 32), 14, 32);
      && CheckProperty(src, p) ==
           Some(ShorthandReport(Position(1, 14), Position(1, 32), "foo", Fix(14, 32, "f\\u006fo")))
      && ApplyFix(src.text, Fix(14, 32, "f\\u006fo")) == "const obj = { f\\u006fo };"
  {
    var t := EscapedKeySource().text;
    assert t[14..22] == "f\\u006fo";
    assert t[..14] + "f\\u006fo" + t[32..] == "const obj = { " + "f\\u006fo" + " };";
  }
}
