/**
 * Every rule's text is the slice of the input it consumed: `store` and the
 * literal tests only ever append what was matched at the cursor. This is
 * what makes the memo tables sound: a recalled match moves the cursor past
 * exactly the text it holds.
 */
module FizzleConsumption {
  import opened Wrappers
  import opened Chars
  import opened PegResult
  import Peg
  import opened FizzleGrammar

  // ---------------------------------------------------------------------------------------------
  // Building blocks.

  /** A rule of the base class consumes what it matches. */
  lemma BaseConsumes(f: (string, nat) -> Option<Match>, rule: string, s: string, i: nat)
    requires Recogniser(f, rule) && i <= |s|
    ensures Peg.Consumes(s, i, f(s, i))
  {
  }

  /** Appending a literal that the input has where a node ends keeps the node a slice of the input. */
  lemma AddTextSpans(s: string, i0: nat, m: Match, t: string)
    requires Spans(s, i0, m) && StartsWith(s, End(i0, m), t)
    ensures Spans(s, i0, AddText(m, t))
  {
    SpanJoin(s, i0, m.text, t);
  }

  /** `store` of a sub-match that begins where the node ends keeps the node a slice of the input. */
  lemma StoreSpans(s: string, i0: nat, m: Match, sub: Match, tag: Option<string>)
    requires Spans(s, i0, m) && Spans(s, End(i0, m), sub) && StoreAllowed(m, sub, tag)
    ensures Spans(s, i0, Store(m, sub, tag))
  {
    SpanJoin(s, i0, m.text, sub.text);
  }

  // ---------------------------------------------------------------------------------------------
  // Leaf rules, operators and operands.

  lemma ObjectIdentifierConsumes(s: string, i: nat)
    requires i <= |s|
    ensures Peg.Consumes(s, i, ObjectIdentifier(s, i))
  {
  }

  lemma UnquotedOperandConsumes(s: string, i: nat)
    requires i <= |s|
    ensures Peg.Consumes(s, i, UnquotedOperand(s, i))
  {
  }

  lemma TokenRuleConsumes(rule: string, token: string, s: string, i: nat)
    requires i <= |s|
    ensures Peg.Consumes(s, i, TokenRule(rule, token, s, i))
  {
  }

  lemma NumberLiteralConsumes(g: Base, s: string, i: nat)
    requires i <= |s|
    ensures Peg.Consumes(s, i, NumberLiteral(g, s, i))
  {
    BaseConsumes(g.numberLiteral, "NumberLiteral", s, i);
  }

  lemma BooleanLiteralConsumes(g: Base, s: string, i: nat)
    requires i <= |s|
    ensures Peg.Consumes(s, i, BooleanLiteral(g, s, i))
  {
    BaseConsumes(g.booleanLiteral, "BooleanLiteral", s, i);
  }

  lemma OperatorConsumes(s: string, i: nat, full: bool)
    requires i <= |s|
    ensures Peg.Consumes(s, i, Operator(s, i, full))
  {
  }

  lemma OperandConsumes(g: Base, s: string, i: nat, full: bool)
    requires i <= |s|
    ensures Peg.Consumes(s, i, Operand(g, s, i, full))
  {
    BaseConsumes(g.stringLiteral, "StringLiteral", s, i);
    NumberLiteralConsumes(g, s, i);
    BooleanLiteralConsumes(g, s, i);
    UnquotedOperandConsumes(s, i);
  }

  // ---------------------------------------------------------------------------------------------
  // Attribute filters.

  lemma ThenSConsumes(g: Base, s: string, i0: nat, m: Match)
    requires Spans(s, i0, m)
    ensures Peg.Consumes(s, i0, ThenS(g, s, i0, m))
  {
    var w := g.s(s, End(i0, m));
    BaseConsumes(g.s, "S", s, End(i0, m));
    if w.Some? {
      StoreSpans(s, i0, m, w.value, None);
    }
  }

  lemma OperandClauseConsumes(g: Base, s: string, i0: nat, m: Match, full: bool)
    requires Spans(s, i0, m) && m.rule == "AttributeFilter"
    ensures Peg.Consumes(s, i0, OperandClause(g, s, i0, m, full))
  {
    var x := Operand(g, s, End(i0, m), full);
    OperandConsumes(g, s, End(i0, m), full);
    if x.Some? {
      StoreSpans(s, i0, m, x.value, Some("Operand"));
      ThenSConsumes(g, s, i0, Store(m, x.value, Some("Operand")));
    }
  }

  lemma OperatorClauseConsumes(g: Base, s: string, i0: nat, m: Match, full: bool)
    requires Spans(s, i0, m) && m.rule == "AttributeFilter"
    ensures Peg.Consumes(s, i0, OperatorClause(g, s, i0, m, full))
  {
    var op := Operator(s, End(i0, m), full);
    OperatorConsumes(s, End(i0, m), full);
    if op.Some? {
      var m0 := Store(m, op.value, Some("Operator"));
      StoreSpans(s, i0, m, op.value, Some("Operator"));
      ThenSConsumes(g, s, i0, m0);
      var m1 := ThenS(g, s, i0, m0);
      if m1.Some? {
        OperandClauseConsumes(g, s, i0, m1.value, full);
      }
    }
  }

  lemma ComparisonConsumes(g: Base, s: string, i0: nat, m: Match)
    requires Spans(s, i0, m) && m.rule == "AttributeFilter"
    ensures Peg.Consumes(s, i0, Comparison(g, s, i0, m))
  {
    var pp := g.propertyPath(s, End(i0, m));
    BaseConsumes(g.propertyPath, "PropertyPath", s, End(i0, m));
    if pp.Some? {
      var m0 := Store(m, pp.value, Some("PropertyPath"));
      StoreSpans(s, i0, m, pp.value, Some("PropertyPath"));
      ThenSConsumes(g, s, i0, m0);
      var m1 := ThenS(g, s, i0, m0);
      if m1.Some? {
        OperatorClauseConsumes(g, s, i0, m1.value, true);
      }
    }
  }

  lemma AttributeBodyConsumes(g: Base, s: string, i0: nat, m: Match)
    requires Spans(s, i0, m) && m.rule == "AttributeFilter"
    ensures Peg.Consumes(s, i0, AttributeBody(g, s, i0, m))
  {
    OperatorClauseConsumes(g, s, i0, m, false);
    ComparisonConsumes(g, s, i0, m);
  }

  lemma CloseAttributeConsumes(g: Base, s: string, i0: nat, m: Match)
    requires Spans(s, i0, m) && m.rule == "AttributeFilter"
    ensures Peg.Consumes(s, i0, CloseAttribute(g, s, i0, m))
  {
    ThenSConsumes(g, s, i0, m);
    var m1 := ThenS(g, s, i0, m);
    if m1.Some? && StartsWith(s, End(i0, m1.value), "]") {
      AddTextSpans(s, i0, m1.value, "]");
    }
  }

  lemma AttributeFilterConsumes(g: Base, s: string, i: nat)
    requires i <= |s|
    ensures Peg.Consumes(s, i, AttributeFilter(g, s, i))
  {
    if StartsWith(s, i, "[") {
      var m0 := AddText(Start("AttributeFilter"), "[");
      AddTextSpans(s, i, Start("AttributeFilter"), "[");
      ThenSConsumes(g, s, i, m0);
      var m1 := ThenS(g, s, i, m0);
      if m1.Some? {
        AttributeBodyConsumes(g, s, i, m1.value);
        var m2 := AttributeBody(g, s, i, m1.value);
        if m2.Some? {
          CloseAttributeConsumes(g, s, i, m2.value);
        }
      }
    }
  }

  // ---------------------------------------------------------------------------------------------
  // Identifier, property name and path filters.

  lemma IdentifierFilterConsumes(s: string, i: nat)
    requires i <= |s|
    ensures Peg.Consumes(s, i, IdentifierFilter(s, i))
  {
    if StartsWith(s, i, "#") {
      var m0 := AddText(Start("IdentifierFilter"), "#");
      AddTextSpans(s, i, Start("IdentifierFilter"), "#");
      var o := ObjectIdentifier(s, End(i, m0));
      ObjectIdentifierConsumes(s, End(i, m0));
      if o.Some? {
        StoreSpans(s, i, m0, o.value, Some("ObjectIdentifier"));
      }
    }
  }

  lemma PropertyNameFilterConsumes(g: Base, s: string, i: nat)
    requires i <= |s|
    ensures Peg.Consumes(s, i, PropertyNameFilter(g, s, i))
  {
    var x := g.identifier(s, i);
    BaseConsumes(g.identifier, "Identifier", s, i);
    if x.Some? {
      StoreSpans(s, i, Start("PropertyNameFilter"), x.value, None);
    }
  }

  lemma PathStepConsumes(g: Base, s: string, i0: nat, m: Match)
    requires Spans(s, i0, m) && m.rule == "PathFilter"
    ensures Peg.Consumes(s, i0, PathStep(g, s, i0, m))
  {
    if StartsWith(s, End(i0, m), "/") {
      var m1 := AddText(m, "/");
      AddTextSpans(s, i0, m, "/");
      var x := g.identifier(s, End(i0, m1));
      BaseConsumes(g.identifier, "Identifier", s, End(i0, m1));
      if x.Some? {
        StoreSpans(s, i0, m1, x.value, None);
      }
    }
  }

  lemma {:induction false} PathTailSpans(g: Base, s: string, i0: nat, m: Match)
    requires Spans(s, i0, m) && m.rule == "PathFilter"
    ensures Spans(s, i0, PathTail(g, s, i0, m))
    decreases |s| - End(i0, m)
  {
    PathStepConsumes(g, s, i0, m);
    var m1 := PathStep(g, s, i0, m);
    if m1.Some? {
      PathTailSpans(g, s, i0, m1.value);
    }
  }

  lemma RootedPathConsumes(g: Base, s: string, i: nat)
    requires i <= |s|
    ensures Peg.Consumes(s, i, RootedPath(g, s, i))
  {
    if StartsWith(s, i, "/") {
      var m1 := AddText(Start("PathFilter"), "/");
      AddTextSpans(s, i, Start("PathFilter"), "/");
      var x := g.identifier(s, End(i, m1));
      BaseConsumes(g.identifier, "Identifier", s, End(i, m1));
      if x.Some? {
        StoreSpans(s, i, m1, x.value, None);
        PathTailSpans(g, s, i, Store(m1, x.value, None));
      }
    }
  }

  lemma RelativePathConsumes(g: Base, s: string, i: nat)
    requires i <= |s|
    ensures Peg.Consumes(s, i, RelativePath(g, s, i))
  {
    var x := g.identifier(s, i);
    BaseConsumes(g.identifier, "Identifier", s, i);
    if x.Some? {
      var m1 := Store(Start("PathFilter"), x.value, None);
      StoreSpans(s, i, Start("PathFilter"), x.value, None);
      PathStepConsumes(g, s, i, m1);
      var m2 := PathStep(g, s, i, m1);
      if m2.Some? {
        PathTailSpans(g, s, i, m2.value);
      }
    }
  }

  lemma PathFilterConsumes(g: Base, s: string, i: nat)
    requires i <= |s|
    ensures Peg.Consumes(s, i, PathFilter(g, s, i))
  {
    RootedPathConsumes(g, s, i);
    RelativePathConsumes(g, s, i);
  }

  // ---------------------------------------------------------------------------------------------
  // Filters and filter groups.

  lemma SubjectConsumes(g: Base, s: string, i: nat)
    requires i <= |s|
    ensures Peg.Consumes(s, i, Subject(g, s, i))
  {
    PathFilterConsumes(g, s, i);
    IdentifierFilterConsumes(s, i);
    PropertyNameFilterConsumes(g, s, i);
  }

  lemma {:induction false} AttributeLoopSpans(g: Base, s: string, i0: nat, m: Match)
    requires Spans(s, i0, m) && m.rule == "Filter"
    ensures Spans(s, i0, AttributeLoop(g, s, i0, m))
    decreases |s| - End(i0, m)
  {
    var a := AttributeFilter(g, s, End(i0, m));
    AttributeFilterConsumes(g, s, End(i0, m));
    if a.Some? {
      StoreSpans(s, i0, m, a.value, Some("AttributeFilters"));
      AttributeLoopSpans(g, s, i0, Store(m, a.value, Some("AttributeFilters")));
    }
  }

  lemma FilterHeadSpans(g: Base, s: string, i: nat)
    requires i <= |s|
    ensures Spans(s, i, FilterHead(g, s, i))
  {
    var x := Subject(g, s, i);
    SubjectConsumes(g, s, i);
    if x.Some? {
      StoreSpans(s, i, Start("Filter"), x.value, None);
    }
  }

  lemma FilterConsumes(g: Base, s: string, i: nat)
    requires i <= |s|
    ensures Peg.Consumes(s, i, Filter(g, s, i))
  {
    FilterHeadSpans(g, s, i);
    AttributeLoopSpans(g, s, i, FilterHead(g, s, i));
  }

  lemma AfterCommaConsumes(g: Base, s: string, i0: nat, m: Match)
    requires Spans(s, i0, m) && m.rule == "FilterGroup"
    ensures Peg.Consumes(s, i0, AfterComma(g, s, i0, m))
  {
    ThenSConsumes(g, s, i0, m);
    var m1 := ThenS(g, s, i0, m);
    if m1.Some? {
      FilterConsumes(g, s, End(i0, m1.value));
      StoreSpans(s, i0, m1.value, Filter(g, s, End(i0, m1.value)).value, Some("Filter"));
    }
  }

  lemma GroupItemConsumes(g: Base, s: string, i0: nat, m: Match)
    requires Spans(s, i0, m) && m.rule == "FilterGroup"
    ensures Peg.Consumes(s, i0, GroupItem(g, s, i0, m))
  {
    ThenSConsumes(g, s, i0, m);
    var m1 := ThenS(g, s, i0, m);
    if m1.Some? && StartsWith(s, End(i0, m1.value), ",") {
      AddTextSpans(s, i0, m1.value, ",");
      AfterCommaConsumes(g, s, i0, AddText(m1.value, ","));
    }
  }

  lemma {:induction false} GroupLoopSpans(g: Base, s: string, i0: nat, m: Match)
    requires Spans(s, i0, m) && m.rule == "FilterGroup"
    ensures Spans(s, i0, GroupLoop(g, s, i0, m))
    decreases |s| - End(i0, m)
  {
    GroupItemConsumes(g, s, i0, m);
    var m1 := GroupItem(g, s, i0, m);
    if m1.Some? {
      GroupLoopSpans(g, s, i0, m1.value);
    }
  }

  lemma FilterGroupConsumes(g: Base, s: string, i: nat)
    requires i <= |s|
    ensures Peg.Consumes(s, i, FilterGroup(g, s, i))
  {
    var f := Filter(g, s, i).value;
    FilterConsumes(g, s, i);
    StoreSpans(s, i, Start("FilterGroup"), f, Some("Filter"));
    GroupLoopSpans(g, s, i, Store(Start("FilterGroup"), f, Some("Filter")));
  }

  // ---------------------------------------------------------------------------------------------
  // The memo keys.

  lemma FizzleTableConsumes(g: Base, s: string, key: string, i: nat)
    requires key in FizzleTable && i <= |s|
    ensures Peg.Consumes(s, i, FizzleTable[key](g, s, i))
  {
    if key == "IdentifierFilter" {
      assert FizzleTable[key](g, s, i) == IdentifierFilter(s, i);
      IdentifierFilterConsumes(s, i);
    } else if key == "PropertyNameFilter" {
      assert FizzleTable[key](g, s, i) == PropertyNameFilter(g, s, i);
      PropertyNameFilterConsumes(g, s, i);
    } else if key == "PathFilter" {
      assert FizzleTable[key](g, s, i) == PathFilter(g, s, i);
      PathFilterConsumes(g, s, i);
    } else if key == "AttributeFilter" {
      assert FizzleTable[key](g, s, i) == AttributeFilter(g, s, i);
      AttributeFilterConsumes(g, s, i);
    } else {
      assert key == "Filter";
      assert FizzleTable[key](g, s, i) == Filter(g, s, i);
      FilterConsumes(g, s, i);
    }
  }

  lemma PatternTableConsumes(g: Base, s: string, key: string, i: nat)
    requires key in PatternTable && i <= |s|
    ensures Peg.Consumes(s, i, PatternTable[key](g, s, i))
  {
    ObjectIdentifierConsumes(s, i);
    UnquotedOperandConsumes(s, i);
  }

  lemma BaseTableConsumes(g: Base, s: string, key: string, i: nat)
    requires key in BaseTable && i <= |s|
    ensures Peg.Consumes(s, i, BaseTable[key](g, s, i))
  {
    BaseConsumes(g.s, "S", s, i);
    BaseConsumes(g.identifier, "Identifier", s, i);
    BaseConsumes(g.propertyPath, "PropertyPath", s, i);
    BaseConsumes(g.stringLiteral, "StringLiteral", s, i);
    NumberLiteralConsumes(g, s, i);
    BooleanLiteralConsumes(g, s, i);
  }

  /** Whatever rule a memo key names consumes exactly its text. */
  lemma RuleAtConsumes(g: Base, s: string, key: string, i: nat)
    requires i <= |s|
    ensures Peg.Consumes(s, i, RuleAt(g, s, key, i))
  {
    if key in FizzleTable {
      FizzleTableConsumes(g, s, key, i);
    } else if key in TokenTable {
      TokenRuleConsumes(key, TokenTable[key], s, i);
    } else if key in PatternTable {
      PatternTableConsumes(g, s, key, i);
    } else if key in BaseTable {
      BaseTableConsumes(g, s, key, i);
    }
  }

  /** Every memo key denotes a rule that consumes exactly its text. */
  lemma MeaningSound(g: Base, s: string)
    ensures Peg.SoundMeaning(s, Meaning(g, s))
  {
    forall key, i: nat | i <= |s|
      ensures Peg.Consumes(s, i, Meaning(g, s)(key, i))
    {
      RuleAtConsumes(g, s, key, i);
    }
  }

  /** A successful parse of a selector spells out the whole input. */
  lemma ParseFilterGroupWhole(g: Base, s: string)
    ensures ParseFilterGroup(g, s).Ok? ==> ParseFilterGroup(g, s).value.text == s
  {
    FilterGroupConsumes(g, s, 0);
    assert s[0..|s|] == s;
  }
}
