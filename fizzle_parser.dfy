/**
 * The generated `match_*` methods of the Fizzle parser, run against the
 * runtime's `Parser` object: they move its cursor, build their result node
 * step by step, save and restore snapshots when an alternative or a loop
 * iteration fails, and go through `packhas` / `packread` / `packwrite` at
 * every rule call. Each is proved to return exactly what the grammar
 * function of the same name in FizzleGrammar denotes, whatever the memo
 * strategy of the parser.
 */
module FizzleParser {
  import opened Wrappers
  import opened Chars
  import opened PegResult
  import opened Peg
  import opened FizzleGrammar
  import Packing
  import FizzleConsumption

  /** A rule of the base class: the cursor moves past what it matched. */
  method MatchBase(p: Parser, f: (string, nat) -> Option<Match>, ghost rule: string) returns (r: Option<Match>)
    requires p.Valid() && Recogniser(f, rule)
    modifies p`pos
    ensures p.Valid()
    ensures r == f(p.input, old(p.pos))
    ensures r.Some? ==> p.pos == old(p.pos) + |r.value.text|
  {
    r := f(p.input, p.pos);
    if r.Some? {
      p.Seek(p.pos + |r.value.text|);
    }
  }

  /** `match_ObjectIdentifier`. */
  method MatchObjectIdentifier(p: Parser) returns (r: Option<Match>)
    requires p.Valid()
    modifies p.Repr
    ensures p.Valid() && fresh(p.Repr - old(p.Repr))
    ensures r == ObjectIdentifier(p.input, old(p.pos))
    ensures r.Some? ==> p.pos == old(p.pos) + |r.value.text|
  {
    var result := Start("ObjectIdentifier");
    var sub := p.Rx(ObjectIdentifierPattern);
    if sub.Some? {
      result := AddText(result, sub.value);
      r := Some(Finalise(result));
    } else {
      r := None;
    }
  }

  /** `match_UnquotedOperand`. */
  method MatchUnquotedOperand(p: Parser) returns (r: Option<Match>)
    requires p.Valid()
    modifies p.Repr
    ensures p.Valid() && fresh(p.Repr - old(p.Repr))
    ensures r == UnquotedOperand(p.input, old(p.pos))
    ensures r.Some? ==> p.pos == old(p.pos) + |r.value.text|
  {
    var result := Start("UnquotedOperand");
    var sub := p.Rx(UnquotedOperandPattern);
    if sub.Some? {
      result := AddText(result, sub.value);
      r := Some(Finalise(result));
    } else {
      r := None;
    }
  }

  /** `match_PrefixMatch` ... `match_GreaterThanMatch`: one literal token each. */
  method MatchToken(p: Parser, rule: string, token: string) returns (r: Option<Match>)
    requires p.Valid()
    modifies p`pos
    ensures p.Valid()
    ensures r == TokenRule(rule, token, p.input, old(p.pos))
    ensures r.Some? ==> p.pos == old(p.pos) + |r.value.text|
  {
    var result := Start(rule);
    var sub := p.Literal(token);
    if sub.Some? {
      result := AddText(result, sub.value);
      r := Some(Finalise(result));
    } else {
      r := None;
    }
  }

  /** `match_NumberLiteral` of the base class, sealed by this grammar's finalise hook. */
  method MatchNumberLiteral(g: Base, p: Parser) returns (r: Option<Match>)
    requires p.Valid()
    modifies p`pos
    ensures p.Valid()
    ensures r == NumberLiteral(g, p.input, old(p.pos))
    ensures r.Some? ==> p.pos == old(p.pos) + |r.value.text|
  {
    r := MatchBase(p, g.numberLiteral, "NumberLiteral");
    if r.Some? {
      r := Some(Finalise(r.value));
    }
  }

  /** `match_BooleanLiteral` of the base class, sealed by this grammar's finalise hook. */
  method MatchBooleanLiteral(g: Base, p: Parser) returns (r: Option<Match>)
    requires p.Valid()
    modifies p`pos
    ensures p.Valid()
    ensures r == BooleanLiteral(g, p.input, old(p.pos))
    ensures r.Some? ==> p.pos == old(p.pos) + |r.value.text|
  {
    r := MatchBase(p, g.booleanLiteral, "BooleanLiteral");
    if r.Some? {
      r := Some(Finalise(r.value));
    }
  }

  /** The parser's memo tables answer for this grammar. */
  ghost predicate Ready(g: Base, p: Parser)
    reads p, p.Repr
  {
    p.Valid() && p.meaning == Meaning(g, p.input)
  }

  /** What the memo tables hold under the key of `S`. */
  lemma SMeaning(g: Base, s: string, i: nat)
    requires i <= |s|
    ensures Meaning(g, s)("S", i) == g.s(s, i)
  {
    MeaningIsRuleAt(g, s, "S", i);
  }

  /** The memoised call of `S`: `packhas`, then `packread` or `packwrite` of `match_S`. */
  method CallS(g: Base, p: Parser) returns (r: Option<Match>)
    requires Ready(g, p)
    modifies p.Repr
    ensures Ready(g, p) && fresh(p.Repr - old(p.Repr))
    ensures r == g.s(p.input, old(p.pos))
    ensures r.Some? ==> p.pos == old(p.pos) + |r.value.text|
  {
    var start := p.pos;
    SMeaning(g, p.input, start);
    var hit;
    hit, r := p.Recall("S");
    if !hit {
      r := MatchBase(p, g.s, "S");
      r := p.Memoise("S", start, r);
    }
  }

  /** What the memo tables hold under the key of `Identifier`. */
  lemma IdentifierMeaning(g: Base, s: string, i: nat)
    requires i <= |s|
    ensures Meaning(g, s)("Identifier", i) == g.identifier(s, i)
  {
    MeaningIsRuleAt(g, s, "Identifier", i);
  }

  /** The memoised call of `Identifier`: `packhas`, then `packread` or `packwrite` of `match_Identifier`. */
  method CallIdentifier(g: Base, p: Parser) returns (r: Option<Match>)
    requires Ready(g, p)
    modifies p.Repr
    ensures Ready(g, p) && fresh(p.Repr - old(p.Repr))
    ensures r == g.identifier(p.input, old(p.pos))
    ensures r.Some? ==> p.pos == old(p.pos) + |r.value.text|
  {
    var start := p.pos;
    IdentifierMeaning(g, p.input, start);
    var hit;
    hit, r := p.Recall("Identifier");
    if !hit {
      r := MatchBase(p, g.identifier, "Identifier");
      r := p.Memoise("Identifier", start, r);
    }
  }

  /** What the memo tables hold under the key of `PropertyPath`. */
  lemma PropertyPathMeaning(g: Base, s: string, i: nat)
    requires i <= |s|
    ensures Meaning(g, s)("PropertyPath", i) == g.propertyPath(s, i)
  {
    MeaningIsRuleAt(g, s, "PropertyPath", i);
  }

  /** The memoised call of `PropertyPath`: `packhas`, then `packread` or `packwrite` of `match_PropertyPath`. */
  method CallPropertyPath(g: Base, p: Parser) returns (r: Option<Match>)
    requires Ready(g, p)
    modifies p.Repr
    ensures Ready(g, p) && fresh(p.Repr - old(p.Repr))
    ensures r == g.propertyPath(p.input, old(p.pos))
    ensures r.Some? ==> p.pos == old(p.pos) + |r.value.text|
  {
    var start := p.pos;
    PropertyPathMeaning(g, p.input, start);
    var hit;
    hit, r := p.Recall("PropertyPath");
    if !hit {
      r := MatchBase(p, g.propertyPath, "PropertyPath");
      r := p.Memoise("PropertyPath", start, r);
    }
  }

  /** What the memo tables hold under the key of `StringLiteral`. */
  lemma StringLiteralMeaning(g: Base, s: string, i: nat)
    requires i <= |s|
    ensures Meaning(g, s)("StringLiteral", i) == g.stringLiteral(s, i)
  {
    MeaningIsRuleAt(g, s, "StringLiteral", i);
  }

  /** The memoised call of `StringLiteral`: `packhas`, then `packread` or `packwrite` of `match_StringLiteral`. */
  method CallStringLiteral(g: Base, p: Parser) returns (r: Option<Match>)
    requires Ready(g, p)
    modifies p.Repr
    ensures Ready(g, p) && fresh(p.Repr - old(p.Repr))
    ensures r == g.stringLiteral(p.input, old(p.pos))
    ensures r.Some? ==> p.pos == old(p.pos) + |r.value.text|
  {
    var start := p.pos;
    StringLiteralMeaning(g, p.input, start);
    var hit;
    hit, r := p.Recall("StringLiteral");
    if !hit {
      r := MatchBase(p, g.stringLiteral, "StringLiteral");
      r := p.Memoise("StringLiteral", start, r);
    }
  }

  /** What the memo tables hold under the key of `NumberLiteral`. */
  lemma NumberLiteralMeaning(g: Base, s: string, i: nat)
    requires i <= |s|
    ensures Meaning(g, s)("NumberLiteral", i) == NumberLiteral(g, s, i)
  {
    MeaningIsRuleAt(g, s, "NumberLiteral", i);
  }

  /** The memoised call of `NumberLiteral`: `packhas`, then `packread` or `packwrite` of `match_NumberLiteral`. */
  method CallNumberLiteral(g: Base, p: Parser) returns (r: Option<Match>)
    requires Ready(g, p)
    modifies p.Repr
    ensures Ready(g, p) && fresh(p.Repr - old(p.Repr))
    ensures r == NumberLiteral(g, p.input, old(p.pos))
    ensures r.Some? ==> p.pos == old(p.pos) + |r.value.text|
  {
    var start := p.pos;
    NumberLiteralMeaning(g, p.input, start);
    var hit;
    hit, r := p.Recall("NumberLiteral");
    if !hit {
      r := MatchNumberLiteral(g, p);
      r := p.Memoise("NumberLiteral", start, r);
    }
  }

  /** What the memo tables hold under the key of `BooleanLiteral`. */
  lemma BooleanLiteralMeaning(g: Base, s: string, i: nat)
    requires i <= |s|
    ensures Meaning(g, s)("BooleanLiteral", i) == BooleanLiteral(g, s, i)
  {
    MeaningIsRuleAt(g, s, "BooleanLiteral", i);
  }

  /** The memoised call of `BooleanLiteral`: `packhas`, then `packread` or `packwrite` of `match_BooleanLiteral`. */
  method CallBooleanLiteral(g: Base, p: Parser) returns (r: Option<Match>)
    requires Ready(g, p)
    modifies p.Repr
    ensures Ready(g, p) && fresh(p.Repr - old(p.Repr))
    ensures r == BooleanLiteral(g, p.input, old(p.pos))
    ensures r.Some? ==> p.pos == old(p.pos) + |r.value.text|
  {
    var start := p.pos;
    BooleanLiteralMeaning(g, p.input, start);
    var hit;
    hit, r := p.Recall("BooleanLiteral");
    if !hit {
      r := MatchBooleanLiteral(g, p);
      r := p.Memoise("BooleanLiteral", start, r);
    }
  }

  /** What the memo tables hold under the key of `ObjectIdentifier`. */
  lemma ObjectIdentifierMeaning(g: Base, s: string, i: nat)
    requires i <= |s|
    ensures Meaning(g, s)("ObjectIdentifier", i) == ObjectIdentifier(s, i)
  {
    MeaningIsRuleAt(g, s, "ObjectIdentifier", i);
  }

  /** The memoised call of `ObjectIdentifier`: `packhas`, then `packread` or `packwrite` of `match_ObjectIdentifier`. */
  method CallObjectIdentifier(g: Base, p: Parser) returns (r: Option<Match>)
    requires Ready(g, p)
    modifies p.Repr
    ensures Ready(g, p) && fresh(p.Repr - old(p.Repr))
    ensures r == ObjectIdentifier(p.input, old(p.pos))
    ensures r.Some? ==> p.pos == old(p.pos) + |r.value.text|
  {
    var start := p.pos;
    ObjectIdentifierMeaning(g, p.input, start);
    var hit;
    hit, r := p.Recall("ObjectIdentifier");
    if !hit {
      r := MatchObjectIdentifier(p);
      r := p.Memoise("ObjectIdentifier", start, r);
    }
  }

  /** What the memo tables hold under the key of `UnquotedOperand`. */
  lemma UnquotedOperandMeaning(g: Base, s: string, i: nat)
    requires i <= |s|
    ensures Meaning(g, s)("UnquotedOperand", i) == UnquotedOperand(s, i)
  {
    MeaningIsRuleAt(g, s, "UnquotedOperand", i);
  }

  /** The memoised call of `UnquotedOperand`: `packhas`, then `packread` or `packwrite` of `match_UnquotedOperand`. */
  method CallUnquotedOperand(g: Base, p: Parser) returns (r: Option<Match>)
    requires Ready(g, p)
    modifies p.Repr
    ensures Ready(g, p) && fresh(p.Repr - old(p.Repr))
    ensures r == UnquotedOperand(p.input, old(p.pos))
    ensures r.Some? ==> p.pos == old(p.pos) + |r.value.text|
  {
    var start := p.pos;
    UnquotedOperandMeaning(g, p.input, start);
    var hit;
    hit, r := p.Recall("UnquotedOperand");
    if !hit {
      r := MatchUnquotedOperand(p);
      r := p.Memoise("UnquotedOperand", start, r);
    }
  }

  /** What the memo tables hold under the key of a single-token rule. */
  lemma TokenMeaning(g: Base, s: string, key: string, i: nat)
    requires key in TokenTable && key !in FizzleTable && i <= |s|
    ensures Meaning(g, s)(key, i) == TokenRule(key, TokenTable[key], s, i)
  {
    MeaningIsRuleAt(g, s, key, i);
  }

  /** What the memo tables hold under the key of the token rule behind operator `k`, and that rule has no store hook in AttributeFilter. */
  lemma OperatorRuleMeaning(g: Base, s: string, k: nat, i: nat)
    requires 2 <= k < |OperatorTokens| && i <= |s|
    ensures !Hooked("AttributeFilter", OperatorRule(k))
    ensures Meaning(g, s)(OperatorRule(k), i) == TokenRule(OperatorRule(k), OperatorTokens[k], s, i)
  {
    OperatorRuleKey(k);
    TokenMeaning(g, s, OperatorRule(k), i);
  }

  /** The memoised call of the token rule behind operator `k` (`PrefixMatch` ... `GreaterThanMatch`). */
  method CallOperatorRule(g: Base, p: Parser, k: nat) returns (r: Option<Match>)
    requires Ready(g, p) && 2 <= k < |OperatorTokens|
    modifies p.Repr
    ensures Ready(g, p) && fresh(p.Repr - old(p.Repr))
    ensures r == TokenRule(OperatorRule(k), OperatorTokens[k], p.input, old(p.pos))
    ensures !Hooked("AttributeFilter", OperatorRule(k))
    ensures r.Some? ==> p.pos == old(p.pos) + |r.value.text|
  {
    var start := p.pos;
    OperatorRuleMeaning(g, p.input, k, start);
    var hit;
    hit, r := p.Recall(OperatorRule(k));
    if !hit {
      r := MatchToken(p, OperatorRule(k), OperatorTokens[k]);
      r := p.Memoise(OperatorRule(k), start, r);
    }
  }

  /**
   * The operator alternatives numbered `k` to `n - 1`, each tried in the
   * failure branch of the one before it, with the cursor restored: a literal
   * for the two `instanceof` forms, a token rule stored into `result` for the others.
   */
  method MatchOperatorFrom(g: Base, p: Parser, result: Match, k: nat, n: nat) returns (r: Option<Match>)
    requires Ready(g, p) && k <= n <= |OperatorTokens| && result.rule == "AttributeFilter"
    modifies p.Repr
    ensures Ready(g, p) && fresh(p.Repr - old(p.Repr))
    ensures r.Some? <==> FirstOperator(p.input, old(p.pos), k, n).Some?
    ensures r.Some? ==> r.value == AddText(result, OperatorTokens[FirstOperator(p.input, old(p.pos), k, n).value])
    ensures r.Some? ==> p.pos == old(p.pos) + |OperatorTokens[FirstOperator(p.input, old(p.pos), k, n).value]|
    decreases n - k
  {
    if k == n {
      return None;
    }
    var i := p.pos;
    if k < 2 {
      var lit := p.Literal(OperatorTokens[k]);
      if lit.Some? {
        return Some(AddText(result, lit.value));
      }
    } else {
      var sub := CallOperatorRule(g, p, k);
      if sub.Some? {
        return Some(Store(result, sub.value, None));
      }
      p.Seek(i);
    }
    r := MatchOperatorFrom(g, p, result, k + 1, n);
  }

  /**
   * `Operator:( 'instanceof' | '!instanceof' | PrefixMatch | ... | GreaterThanMatch )`
   * (only the first two after a bare `instanceof` position): a node built by
   * `construct($matchrule, "Operator")` holding the first alternative that matches.
   */
  method MatchOperator(g: Base, p: Parser, full: bool) returns (r: Option<Match>)
    requires Ready(g, p)
    modifies p.Repr
    ensures Ready(g, p) && fresh(p.Repr - old(p.Repr))
    ensures r == Operator(p.input, old(p.pos), full)
    ensures r.Some? ==> p.pos == old(p.pos) + |r.value.text|
  {
    var result := Construct("AttributeFilter", "Operator");
    r := MatchOperatorFrom(g, p, result, 0, OperatorCount(full));
  }

  /** `( Operand:StringLiteral | Operand:NumberLiteral | Operand:BooleanLiteral | Operand:UnquotedOperand )`. */
  method MatchOperand(g: Base, p: Parser, full: bool) returns (r: Option<Match>)
    requires Ready(g, p)
    modifies p.Repr
    ensures Ready(g, p) && fresh(p.Repr - old(p.Repr))
    ensures r == Operand(g, p.input, old(p.pos), full)
    ensures r.Some? ==> p.pos == old(p.pos) + |r.value.text|
  {
    var i := p.pos;
    r := CallStringLiteral(g, p);
    if r.Some? {
      return;
    }
    p.Seek(i);
    if full {
      r := CallNumberLiteral(g, p);
      if r.Some? {
        return;
      }
      p.Seek(i);
      r := CallBooleanLiteral(g, p);
      if r.Some? {
        return;
      }
      p.Seek(i);
    }
    r := CallUnquotedOperand(g, p);
  }

  /** `S` inside a rule: the whitespace is stored into the node being built. */
  method MatchThenS(g: Base, p: Parser, i0: nat, m: Match) returns (r: Option<Match>)
    requires Ready(g, p) && Fits(p.input, i0, m) && p.pos == End(i0, m)
    modifies p.Repr
    ensures Ready(g, p) && fresh(p.Repr - old(p.Repr))
    ensures r == ThenS(g, p.input, i0, m)
    ensures r.Some? ==> p.pos == End(i0, r.value)
  {
    var w := CallS(g, p);
    if w.None? {
      return None;
    }
    r := Some(Store(m, w.value, None));
  }

  /** `Operator:( ... ) S ( Operand:... ) S`, continuing the AttributeFilter node `m` begun at `i0`. */
  method MatchOperatorClause(g: Base, p: Parser, i0: nat, m: Match, full: bool) returns (r: Option<Match>)
    requires Ready(g, p) && Fits(p.input, i0, m) && m.rule == "AttributeFilter" && p.pos == End(i0, m)
    modifies p.Repr
    ensures Ready(g, p) && fresh(p.Repr - old(p.Repr))
    ensures r == OperatorClause(g, p.input, i0, m, full)
    ensures r.Some? ==> p.pos == End(i0, r.value)
  {
    var op := MatchOperator(g, p, full);
    if op.None? {
      return None;
    }
    var result := Store(m, op.value, Some("Operator"));
    assert p.pos == End(i0, result);
    var m1 := MatchThenS(g, p, i0, result);
    if m1.None? {
      return None;
    }
    r := MatchOperandClause(g, p, i0, m1.value, full);
  }

  /** `( Operand:... ) S` after the operator. */
  method MatchOperandClause(g: Base, p: Parser, i0: nat, m: Match, full: bool) returns (r: Option<Match>)
    requires Ready(g, p) && Fits(p.input, i0, m) && m.rule == "AttributeFilter" && p.pos == End(i0, m)
    modifies p.Repr
    ensures Ready(g, p) && fresh(p.Repr - old(p.Repr))
    ensures r == OperandClause(g, p.input, i0, m, full)
    ensures r.Some? ==> p.pos == End(i0, r.value)
  {
    var x := MatchOperand(g, p, full);
    if x.None? {
      return None;
    }
    var result := Store(m, x.value, Some("Operand"));
    assert p.pos == End(i0, result);
    r := MatchThenS(g, p, i0, result);
  }

  /** `:PropertyPath S ( Operator:( ... ) S ( Operand:... ) S )?`; a failed optional group is undone. */
  method MatchComparison(g: Base, p: Parser, i0: nat, m: Match) returns (r: Option<Match>)
    requires Ready(g, p) && Fits(p.input, i0, m) && m.rule == "AttributeFilter" && p.pos == End(i0, m)
    modifies p.Repr
    ensures Ready(g, p) && fresh(p.Repr - old(p.Repr))
    ensures r == Comparison(g, p.input, i0, m)
    ensures r.Some? ==> p.pos == End(i0, r.value)
  {
    var pp := CallPropertyPath(g, p);
    if pp.None? {
      return None;
    }
    var result := Store(m, pp.value, Some("PropertyPath"));
    assert p.pos == End(i0, result);
    var m1 := MatchThenS(g, p, i0, result);
    if m1.None? {
      return None;
    }
    var saved := p.pos;
    r := MatchOperatorClause(g, p, i0, m1.value, true);
    if r.None? {
      p.Seek(saved);
      r := m1;
    }
  }

  /** The choice inside the brackets of an AttributeFilter. */
  method MatchAttributeBody(g: Base, p: Parser, i0: nat, m: Match) returns (r: Option<Match>)
    requires Ready(g, p) && Fits(p.input, i0, m) && m.rule == "AttributeFilter" && p.pos == End(i0, m)
    modifies p.Repr
    ensures Ready(g, p) && fresh(p.Repr - old(p.Repr))
    ensures r == AttributeBody(g, p.input, i0, m)
    ensures r.Some? ==> p.pos == End(i0, r.value)
  {
    var saved := p.pos;
    r := MatchOperatorClause(g, p, i0, m, false);
    if r.Some? {
      return;
    }
    p.Seek(saved);
    r := MatchComparison(g, p, i0, m);
  }

  /** `S ']'` closing an AttributeFilter, and its finalise. */
  method MatchCloseAttribute(g: Base, p: Parser, i0: nat, m: Match) returns (r: Option<Match>)
    requires Ready(g, p) && Fits(p.input, i0, m) && m.rule == "AttributeFilter" && p.pos == End(i0, m)
    modifies p.Repr
    ensures Ready(g, p) && fresh(p.Repr - old(p.Repr))
    ensures r == CloseAttribute(g, p.input, i0, m)
    ensures r.Some? ==> p.pos == End(i0, r.value)
  {
    var m1 := MatchThenS(g, p, i0, m);
    if m1.None? {
      return None;
    }
    var close := p.Literal("]");
    if close.None? {
      return None;
    }
    var result := AddText(m1.value, "]");
    assert p.pos == End(i0, result);
    r := Some(Finalise(result));
  }

  /** `match_AttributeFilter`. */
  method MatchAttributeFilter(g: Base, p: Parser) returns (r: Option<Match>)
    requires Ready(g, p)
    modifies p.Repr
    ensures Ready(g, p) && fresh(p.Repr - old(p.Repr))
    ensures r == AttributeFilter(g, p.input, old(p.pos))
    ensures r.Some? ==> p.pos == old(p.pos) + |r.value.text|
  {
    var i := p.pos;
    var result := Start("AttributeFilter");
    var open := p.Literal("[");
    if open.None? {
      return None;
    }
    result := AddText(result, "[");
    assert p.pos == End(i, result);
    var m1 := MatchThenS(g, p, i, result);
    if m1.None? {
      return None;
    }
    var m2 := MatchAttributeBody(g, p, i, m1.value);
    if m2.None? {
      return None;
    }
    r := MatchCloseAttribute(g, p, i, m2.value);
  }

  /** `match_IdentifierFilter`. */
  method MatchIdentifierFilter(g: Base, p: Parser) returns (r: Option<Match>)
    requires Ready(g, p)
    modifies p.Repr
    ensures Ready(g, p) && fresh(p.Repr - old(p.Repr))
    ensures r == IdentifierFilter(p.input, old(p.pos))
    ensures r.Some? ==> p.pos == old(p.pos) + |r.value.text|
  {
    var i := p.pos;
    var result := Start("IdentifierFilter");
    var hash := p.Literal("#");
    if hash.None? {
      return None;
    }
    result := AddText(result, "#");
    assert p.pos == End(i, result);
    var o := CallObjectIdentifier(g, p);
    if o.None? {
      return None;
    }
    result := Store(result, o.value, Some("ObjectIdentifier"));
    assert p.pos == End(i, result);
    r := Some(Finalise(result));
  }

  /** `match_PropertyNameFilter`. */
  method MatchPropertyNameFilter(g: Base, p: Parser) returns (r: Option<Match>)
    requires Ready(g, p)
    modifies p.Repr
    ensures Ready(g, p) && fresh(p.Repr - old(p.Repr))
    ensures r == PropertyNameFilter(g, p.input, old(p.pos))
    ensures r.Some? ==> p.pos == old(p.pos) + |r.value.text|
  {
    var result := Start("PropertyNameFilter");
    var x := CallIdentifier(g, p);
    if x.None? {
      return None;
    }
    result := Store(result, x.value, None);
    r := Some(Finalise(result));
  }

  /** One `'/' Identifier` of a path. */
  method MatchPathStep(g: Base, p: Parser, i0: nat, m: Match) returns (r: Option<Match>)
    requires Ready(g, p) && Fits(p.input, i0, m) && m.rule == "PathFilter" && p.pos == End(i0, m)
    modifies p.Repr
    ensures Ready(g, p) && fresh(p.Repr - old(p.Repr))
    ensures r == PathStep(g, p.input, i0, m)
    ensures r.Some? ==> p.pos == End(i0, r.value)
  {
    var slash := p.Literal("/");
    if slash.None? {
      return None;
    }
    var result := AddText(m, "/");
    assert p.pos == End(i0, result);
    var x := CallIdentifier(g, p);
    if x.None? {
      return None;
    }
    r := Some(Store(result, x.value, None));
  }

  /** `( '/' Identifier )*` inside `match_PathFilter`: a failed iteration is undone and ends the loop. */
  method MatchPathTail(g: Base, p: Parser, i0: nat, m: Match) returns (r: Match)
    requires Ready(g, p) && Fits(p.input, i0, m) && m.rule == "PathFilter" && p.pos == End(i0, m)
    modifies p.Repr
    ensures Ready(g, p) && fresh(p.Repr - old(p.Repr))
    ensures r == PathTail(g, p.input, i0, m)
    ensures p.pos == End(i0, r)
  {
    r := m;
    while true
      invariant Ready(g, p) && fresh(p.Repr - old(p.Repr))
      invariant Fits(p.input, i0, r) && r.rule == "PathFilter" && p.pos == End(i0, r)
      invariant PathTail(g, p.input, i0, r) == PathTail(g, p.input, i0, m)
      decreases |p.input| - p.pos
    {
      var savedPos := p.pos;
      var step := MatchPathStep(g, p, i0, r);
      if step.None? {
        p.Seek(savedPos);
        break;
      }
      r := step.value;
    }
  }

  /** The '/'-rooted alternative of `match_PathFilter`. */
  method MatchRootedPath(g: Base, p: Parser) returns (r: Option<Match>)
    requires Ready(g, p)
    modifies p.Repr
    ensures Ready(g, p) && fresh(p.Repr - old(p.Repr))
    ensures r == RootedPath(g, p.input, old(p.pos))
    ensures r.Some? ==> p.pos == old(p.pos) + |r.value.text|
  {
    var i := p.pos;
    var result := Start("PathFilter");
    var slash := p.Literal("/");
    if slash.None? {
      return None;
    }
    result := AddText(result, "/");
    assert p.pos == End(i, result);
    var savedPos := p.pos;
    var x := CallIdentifier(g, p);
    if x.None? {
      p.Seek(savedPos);
      return Some(result);
    }
    result := Store(result, x.value, None);
    assert p.pos == End(i, result);
    result := MatchPathTail(g, p, i, result);
    r := Some(result);
  }

  /** The `Identifier '/' Identifier ...` alternative of `match_PathFilter`. */
  method MatchRelativePath(g: Base, p: Parser) returns (r: Option<Match>)
    requires Ready(g, p)
    modifies p.Repr
    ensures Ready(g, p) && fresh(p.Repr - old(p.Repr))
    ensures r == RelativePath(g, p.input, old(p.pos))
    ensures r.Some? ==> p.pos == old(p.pos) + |r.value.text|
  {
    var i := p.pos;
    var result := Start("PathFilter");
    var x := CallIdentifier(g, p);
    if x.None? {
      return None;
    }
    result := Store(result, x.value, None);
    assert p.pos == End(i, result);
    var step := MatchPathStep(g, p, i, result);
    if step.None? {
      return None;
    }
    result := MatchPathTail(g, p, i, step.value);
    r := Some(result);
  }

  /** `match_PathFilter`: the '/'-rooted alternative first, then `Identifier '/' Identifier ...`. */
  method MatchPathFilter(g: Base, p: Parser) returns (r: Option<Match>)
    requires Ready(g, p)
    modifies p.Repr
    ensures Ready(g, p) && fresh(p.Repr - old(p.Repr))
    ensures r == PathFilter(g, p.input, old(p.pos))
    ensures r.Some? ==> p.pos == old(p.pos) + |r.value.text|
  {
    var i := p.pos;
    r := MatchRootedPath(g, p);
    if r.None? {
      p.Seek(i);
      r := MatchRelativePath(g, p);
    }
    if r.Some? {
      r := Some(Finalise(r.value));
    }
  }

  /** The memo tables' meaning at a key is the rule that key names. */
  lemma MeaningIsRuleAt(g: Base, s: string, key: string, i: nat)
    requires i <= |s|
    ensures Meaning(g, s)(key, i) == RuleAt(g, s, key, i)
  {
  }

  /** The key of `PathFilter` names that rule. */
  lemma PathFilterAt(g: Base, s: string, i: nat)
    requires i <= |s|
    ensures RuleAt(g, s, "PathFilter", i) == PathFilter(g, s, i)
  {
  }

  /** What the memo tables hold under the key of `PathFilter`. */
  lemma PathFilterMeaning(g: Base, s: string, i: nat)
    requires i <= |s|
    ensures Meaning(g, s)("PathFilter", i) == PathFilter(g, s, i)
  {
    MeaningIsRuleAt(g, s, "PathFilter", i);
    PathFilterAt(g, s, i);
  }

  /** The key of `IdentifierFilter` names that rule. */
  lemma IdentifierFilterAt(g: Base, s: string, i: nat)
    requires i <= |s|
    ensures RuleAt(g, s, "IdentifierFilter", i) == IdentifierFilter(s, i)
  {
  }

  /** What the memo tables hold under the key of `IdentifierFilter`. */
  lemma IdentifierFilterMeaning(g: Base, s: string, i: nat)
    requires i <= |s|
    ensures Meaning(g, s)("IdentifierFilter", i) == IdentifierFilter(s, i)
  {
    MeaningIsRuleAt(g, s, "IdentifierFilter", i);
    IdentifierFilterAt(g, s, i);
  }

  /** The key of `PropertyNameFilter` names that rule. */
  lemma PropertyNameFilterAt(g: Base, s: string, i: nat)
    requires i <= |s|
    ensures RuleAt(g, s, "PropertyNameFilter", i) == PropertyNameFilter(g, s, i)
  {
  }

  /** What the memo tables hold under the key of `PropertyNameFilter`. */
  lemma PropertyNameFilterMeaning(g: Base, s: string, i: nat)
    requires i <= |s|
    ensures Meaning(g, s)("PropertyNameFilter", i) == PropertyNameFilter(g, s, i)
  {
    MeaningIsRuleAt(g, s, "PropertyNameFilter", i);
    PropertyNameFilterAt(g, s, i);
  }

  /** The key of `AttributeFilter` names that rule. */
  lemma AttributeFilterAt(g: Base, s: string, i: nat)
    requires i <= |s|
    ensures RuleAt(g, s, "AttributeFilter", i) == AttributeFilter(g, s, i)
  {
  }

  /** What the memo tables hold under the key of `AttributeFilter`. */
  lemma AttributeFilterMeaning(g: Base, s: string, i: nat)
    requires i <= |s|
    ensures Meaning(g, s)("AttributeFilter", i) == AttributeFilter(g, s, i)
  {
    MeaningIsRuleAt(g, s, "AttributeFilter", i);
    AttributeFilterAt(g, s, i);
  }

  /** The key of `Filter` names that rule. */
  lemma FilterAt(g: Base, s: string, i: nat)
    requires i <= |s|
    ensures RuleAt(g, s, "Filter", i) == Filter(g, s, i)
  {
  }

  /** What the memo tables hold under the key of `Filter`. */
  lemma FilterMeaning(g: Base, s: string, i: nat)
    requires i <= |s|
    ensures Meaning(g, s)("Filter", i) == Filter(g, s, i)
  {
    MeaningIsRuleAt(g, s, "Filter", i);
    FilterAt(g, s, i);
  }

  /** The memoised call of `match_PathFilter`. */
  method CallPathFilter(g: Base, p: Parser) returns (r: Option<Match>)
    requires Ready(g, p)
    modifies p.Repr
    ensures Ready(g, p) && fresh(p.Repr - old(p.Repr))
    ensures r == PathFilter(g, p.input, old(p.pos))
    ensures r.Some? ==> p.pos == old(p.pos) + |r.value.text|
  {
    var start := p.pos;
    PathFilterMeaning(g, p.input, start);
    var hit;
    hit, r := p.Recall("PathFilter");
    if !hit {
      r := MatchPathFilter(g, p);
      r := p.Memoise("PathFilter", start, r);
    }
  }

  /** The memoised call of `match_IdentifierFilter`. */
  method CallIdentifierFilter(g: Base, p: Parser) returns (r: Option<Match>)
    requires Ready(g, p)
    modifies p.Repr
    ensures Ready(g, p) && fresh(p.Repr - old(p.Repr))
    ensures r == IdentifierFilter(p.input, old(p.pos))
    ensures r.Some? ==> p.pos == old(p.pos) + |r.value.text|
  {
    var start := p.pos;
    IdentifierFilterMeaning(g, p.input, start);
    var hit;
    hit, r := p.Recall("IdentifierFilter");
    if !hit {
      r := MatchIdentifierFilter(g, p);
      r := p.Memoise("IdentifierFilter", start, r);
    }
  }

  /** The memoised call of `match_PropertyNameFilter`. */
  method CallPropertyNameFilter(g: Base, p: Parser) returns (r: Option<Match>)
    requires Ready(g, p)
    modifies p.Repr
    ensures Ready(g, p) && fresh(p.Repr - old(p.Repr))
    ensures r == PropertyNameFilter(g, p.input, old(p.pos))
    ensures r.Some? ==> p.pos == old(p.pos) + |r.value.text|
  {
    var start := p.pos;
    PropertyNameFilterMeaning(g, p.input, start);
    var hit;
    hit, r := p.Recall("PropertyNameFilter");
    if !hit {
      r := MatchPropertyNameFilter(g, p);
      r := p.Memoise("PropertyNameFilter", start, r);
    }
  }

  /** The memoised call of `match_AttributeFilter`. */
  method CallAttributeFilter(g: Base, p: Parser) returns (r: Option<Match>)
    requires Ready(g, p)
    modifies p.Repr
    ensures Ready(g, p) && fresh(p.Repr - old(p.Repr))
    ensures r == AttributeFilter(g, p.input, old(p.pos))
    ensures r.Some? ==> p.pos == old(p.pos) + |r.value.text|
  {
    var start := p.pos;
    AttributeFilterMeaning(g, p.input, start);
    var hit;
    hit, r := p.Recall("AttributeFilter");
    if !hit {
      r := MatchAttributeFilter(g, p);
      r := p.Memoise("AttributeFilter", start, r);
    }
  }

  /** `( PathFilter | IdentifierFilter | PropertyNameFilter )`, each failed alternative restoring the cursor. */
  method MatchSubject(g: Base, p: Parser) returns (r: Option<Match>)
    requires Ready(g, p)
    modifies p.Repr
    ensures Ready(g, p) && fresh(p.Repr - old(p.Repr))
    ensures r == Subject(g, p.input, old(p.pos))
    ensures r.Some? ==> p.pos == old(p.pos) + |r.value.text|
  {
    var i := p.pos;
    r := CallPathFilter(g, p);
    if r.Some? {
      return;
    }
    p.Seek(i);
    r := CallIdentifierFilter(g, p);
    if r.Some? {
      return;
    }
    p.Seek(i);
    r := CallPropertyNameFilter(g, p);
  }

  /** The start of `match_Filter`: the node with its optional subject stored; no subject leaves the cursor. */
  method MatchFilterHead(g: Base, p: Parser) returns (r: Match)
    requires Ready(g, p)
    modifies p.Repr
    ensures Ready(g, p) && fresh(p.Repr - old(p.Repr))
    ensures r == FilterHead(g, p.input, old(p.pos))
    ensures p.pos == old(p.pos) + |r.text|
  {
    var i := p.pos;
    r := Start("Filter");
    var sub := MatchSubject(g, p);
    if sub.Some? {
      r := Store(r, sub.value, None);
    } else {
      p.Seek(i);
    }
  }

  /** `match_Filter`: an optional subject, then any number of AttributeFilters; it never fails. */
  method MatchFilter(g: Base, p: Parser) returns (r: Option<Match>)
    requires Ready(g, p)
    modifies p.Repr
    ensures Ready(g, p) && fresh(p.Repr - old(p.Repr))
    ensures r == Filter(g, p.input, old(p.pos))
    ensures r.Some? && p.pos == old(p.pos) + |r.value.text|
  {
    var i := p.pos;
    var result := MatchFilterHead(g, p);
    ghost var first := result;
    while true
      invariant Ready(g, p) && fresh(p.Repr - old(p.Repr))
      invariant Fits(p.input, i, result) && result.rule == "Filter" && result.name == "Filter"
      invariant p.pos == End(i, result)
      invariant AttributeLoop(g, p.input, i, result) == AttributeLoop(g, p.input, i, first)
      decreases |p.input| - p.pos
    {
      var savedPos := p.pos;
      var a := CallAttributeFilter(g, p);
      if a.None? {
        p.Seek(savedPos);
        break;
      }
      result := Store(result, a.value, Some("AttributeFilters"));
      assert p.pos == End(i, result);
    }
    r := Some(Finalise(result));
  }

  /** The memoised call of `match_Filter`. */
  method CallFilter(g: Base, p: Parser) returns (r: Option<Match>)
    requires Ready(g, p)
    modifies p.Repr
    ensures Ready(g, p) && fresh(p.Repr - old(p.Repr))
    ensures r == Filter(g, p.input, old(p.pos))
    ensures r.Some? ==> p.pos == old(p.pos) + |r.value.text|
  {
    var start := p.pos;
    FilterMeaning(g, p.input, start);
    var hit;
    hit, r := p.Recall("Filter");
    if !hit {
      r := MatchFilter(g, p);
      r := p.Memoise("Filter", start, r);
    }
  }

  /** `S :Filter` after the comma of a group item. */
  method MatchAfterComma(g: Base, p: Parser, i0: nat, m: Match) returns (r: Option<Match>)
    requires Ready(g, p) && Fits(p.input, i0, m) && m.rule == "FilterGroup" && p.pos == End(i0, m)
    modifies p.Repr
    ensures Ready(g, p) && fresh(p.Repr - old(p.Repr))
    ensures r == AfterComma(g, p.input, i0, m)
    ensures r.Some? ==> p.pos == End(i0, r.value)
  {
    var m1 := MatchThenS(g, p, i0, m);
    if m1.None? {
      return None;
    }
    var f := CallFilter(g, p);
    r := Some(Store(m1.value, f.value, Some("Filter")));
  }

  /** One `S ',' S :Filter` of `match_FilterGroup`. */
  method MatchGroupItem(g: Base, p: Parser, i0: nat, m: Match) returns (r: Option<Match>)
    requires Ready(g, p) && Fits(p.input, i0, m) && m.rule == "FilterGroup" && p.pos == End(i0, m)
    modifies p.Repr
    ensures Ready(g, p) && fresh(p.Repr - old(p.Repr))
    ensures r == GroupItem(g, p.input, i0, m)
    ensures r.Some? ==> p.pos == End(i0, r.value)
  {
    var m1 := MatchThenS(g, p, i0, m);
    if m1.None? {
      return None;
    }
    ghost var at := p.pos;
    var comma := p.Literal(",");
    if comma.None? {
      assert !StartsWith(p.input, at, ",");
      return None;
    }
    assert StartsWith(p.input, at, ",");
    var result := AddText(m1.value, ",");
    assert p.pos == End(i0, result);
    r := MatchAfterComma(g, p, i0, result);
    assert r == AfterComma(g, p.input, i0, result);
  }

  /** `match_FilterGroup`: one Filter, then `( S ',' S :Filter )*`; a failed item is undone and ends the loop. */
  method MatchFilterGroup(g: Base, p: Parser) returns (r: Option<Match>)
    requires Ready(g, p)
    modifies p.Repr
    ensures Ready(g, p) && fresh(p.Repr - old(p.Repr))
    ensures r == FilterGroup(g, p.input, old(p.pos))
    ensures r.Some? && p.pos == old(p.pos) + |r.value.text|
  {
    var i := p.pos;
    var result := Start("FilterGroup");
    var f := CallFilter(g, p);
    result := Store(result, f.value, Some("Filter"));
    assert p.pos == End(i, result);
    ghost var first := result;
    while true
      invariant Ready(g, p) && fresh(p.Repr - old(p.Repr))
      invariant Fits(p.input, i, result) && result.rule == "FilterGroup" && result.name == "FilterGroup"
      invariant p.pos == End(i, result)
      invariant GroupLoop(g, p.input, i, result) == GroupLoop(g, p.input, i, first)
      decreases |p.input| - p.pos
    {
      var savedPos := p.pos;
      var item := MatchGroupItem(g, p, i, result);
      if item.None? {
        p.Seek(savedPos);
        break;
      }
      result := item.value;
    }
    r := Some(Finalise(result));
  }

  /**
   * `FizzleParser::parseFilterGroup`: parses the whole selector with a fresh
   * parser of the given memo strategy, failing with the character number one
   * past the consumed prefix. The outcome does not depend on the strategy.
   */
  method ParseFilterGroup(g: Base, input: string, strategy: Strategy) returns (r: Result<Match, nat>)
    requires strategy == Full ==> |input| <= Packing.MaxLength
    ensures r == FizzleGrammar.ParseFilterGroup(g, input)
  {
    FizzleConsumption.MeaningSound(g, input);
    var p := new Parser(input, strategy, Meaning(g, input));
    var parsed := MatchFilterGroup(g, p);
    if p.pos != |input| {
      r := Err(p.pos + 1);
    } else {
      r := Ok(parsed.value);
    }
  }
}
