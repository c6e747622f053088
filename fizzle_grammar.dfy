/**
 * The reference semantics of the Fizzle selector grammar: one function per
 * rule, following the generated code's sequences, ordered choices,
 * optional groups and `*` repetitions, and the grammar's construct / store /
 * finalise hooks. The imperative parser in module FizzleParser is proved to
 * compute exactly these functions, under every memo strategy.
 *
 * Positions are not threaded separately: a rule that started at `i0` and
 * has built `res` so far stands at `End(i0, res)`, because every consumed
 * character is appended to the result's text. The contracts here bound
 * positions by the input's length; that the text is the very slice of the
 * input consumed is proved in module FizzleConsumption.
 */
module FizzleGrammar {
  import opened Wrappers
  import opened Chars
  import opened PegResult
  import Peg

  // ---------------------------------------------------------------------------------------------
  // Rules of the base parser class that are not part of this model.

  /**
   * `S`, `Identifier`, `PropertyPath`, `StringLiteral`, `NumberLiteral` and
   * `BooleanLiteral` come from the base parser class. Each is a recogniser
   * from (input, position) to an outcome; `NumberLiteral` and
   * `BooleanLiteral` are given before their finalise hooks, which this
   * grammar defines.
   */
  datatype BaseRules = BaseRules(
    s: (string, nat) -> Option<Match>,
    identifier: (string, nat) -> Option<Match>,
    propertyPath: (string, nat) -> Option<Match>,
    stringLiteral: (string, nat) -> Option<Match>,
    numberLiteral: (string, nat) -> Option<Match>,
    booleanLiteral: (string, nat) -> Option<Match>)

  /**
   * The contract of a rule of the base class: it is a function of the input
   * and the position, a success stays within the input and carries the rule's
   * name, and its text is the slice of the input it consumed (stated apart,
   * so that only proofs about consumption see it).
   */
  ghost predicate Recogniser(f: (string, nat) -> Option<Match>, rule: string) {
    && (forall s: string, i: nat {:trigger f(s, i)} :: i <= |s| && f(s, i).Some? ==>
          Fits(s, i, f(s, i).value) && f(s, i).value.rule == rule && f(s, i).value.name == rule)
    && (forall s: string, i: nat {:trigger Peg.Consumes(s, i, f(s, i))} :: i <= |s| ==> Peg.Consumes(s, i, f(s, i)))
  }

  /** A match begun at `i` ends within the input. */
  predicate Fits(s: string, i: nat, m: Match) {
    End(i, m) <= |s|
  }

  predicate FitsOpt(s: string, i: nat, r: Option<Match>) {
    r.Some? ==> Fits(s, i, r.value)
  }

  ghost predicate WellBehaved(g: BaseRules) {
    && Recogniser(g.s, "S")
    && Recogniser(g.identifier, "Identifier")
    && Recogniser(g.propertyPath, "PropertyPath")
    && Recogniser(g.stringLiteral, "StringLiteral")
    && Recogniser(g.numberLiteral, "NumberLiteral")
    && Recogniser(g.booleanLiteral, "BooleanLiteral")
  }

  function NoMatch(s: string, i: nat): Option<Match> {
    None
  }

  type Base = g: BaseRules | WellBehaved(g)
    witness BaseRules(NoMatch, NoMatch, NoMatch, NoMatch, NoMatch, NoMatch)

  // ---------------------------------------------------------------------------------------------
  // Hooks.

  /**
   * `construct`: `AttributeFilter__construct` seeds Operator, PropertyPath and Identifier with NULL.
   * The ensures only unfold the definition; `FizzleProperties.ConstructShape` states what the
   * seeded node means.
   */
  function Construct(rule: string, name: string): (m: Match)
    ensures m.rule == rule && m.name == name && m.text == ""
    ensures rule == "AttributeFilter" ==>
      m.fields == map["Operator" := Null, "PropertyPath" := Null, "Identifier" := Null]
    ensures rule != "AttributeFilter" ==> m.fields == map[]
  {
    var m := NewResult(rule, name);
    if rule == "AttributeFilter" then
      m.(fields := map["Operator" := Null, "PropertyPath" := Null, "Identifier" := Null])
    else m
  }

  /** `construct($matchrule, $matchrule)`. */
  function Start(rule: string): (m: Match)
    ensures m.rule == rule && m.name == rule && m.text == ""
  {
    Construct(rule, rule)
  }

  /** The value a Number / Boolean / UnquotedOperand node gets as `val` when it is finalised. */
  function FinalValue(m: Match): Value {
    if m.rule == "UnquotedOperand" then Str(m.text)
    else if m.rule == "BooleanLiteral" then Flag(LowerString(m.text) == "true")
    else if IsSet(m, "dec") then FloatVal(m.text)
    else IntVal(m.text)
  }

  /**
   * `finalise`: the three `__finalise` hooks set `val`; every other rule is left as it is.
   * The ensures only unfold the definition; `FinaliseIdempotent` states what sealing means.
   */
  function Finalise(m: Match): (r: Match)
    ensures r.rule == m.rule && r.name == m.name && r.text == m.text
    ensures m.rule in {"UnquotedOperand", "BooleanLiteral", "NumberLiteral"} ==>
      r.fields == m.fields["val" := FinalValue(m)]
    ensures m.rule !in {"UnquotedOperand", "BooleanLiteral", "NumberLiteral"} ==> r == m
  {
    if m.rule in {"UnquotedOperand", "BooleanLiteral", "NumberLiteral"} then
      m.(fields := m.fields["val" := FinalValue(m)])
    else m
  }

  /**
   * The finalise hooks compute `val` from the text (and, for numbers, from
   * whether `dec` is set), so sealing a node twice is sealing it once; the
   * text and every other field are kept.
   */
  lemma FinaliseIdempotent(m: Match)
    ensures Finalise(Finalise(m)) == Finalise(m)
    ensures forall k :: k in m.fields && k != "val" ==> k in Finalise(m).fields && Finalise(m).fields[k] == m.fields[k]
  {
  }

  /** The rules and keys for which the grammar defines a store hook (`<Rule>_<key>`). */
  predicate Hooked(rule: string, key: string) {
    || (rule == "FilterGroup" && key == "Filter")
    || (rule == "Filter" && key in {"PathFilter", "IdentifierFilter", "PropertyNameFilter", "AttributeFilters"})
    || (rule == "PropertyNameFilter" && key == "Identifier")
    || (rule == "AttributeFilter" && key in {"PropertyPath", "Operator", "Operand"})
  }

  /** The key a store hook is looked up by: the tag, or the sub-match's name. */
  function HookKey(sub: Match, tag: Option<string>): string {
    if tag.Some? then tag.value else sub.name
  }

  /** `$result[$key][] = $sub`, starting from an empty list when the key is unset. */
  function Appended(m: Match, key: string, sub: Match): Value {
    match Get(m, key)
    case Nodes(xs) => Nodes(xs + [sub])
    case _ => Nodes([sub])
  }

  /** `substr($text, 1)`. */
  function DropFirst(t: string): string {
    if |t| == 0 then "" else t[1..]
  }

  predicate StoreAllowed(m: Match, sub: Match, tag: Option<string>) {
    tag.Some? && !Hooked(m.rule, tag.value) ==> Storable(m, tag.value)
  }

  /**
   * `store`: the sub-match's text is always appended; then the grammar's
   * hook for (rule, key) runs if there is one, else the default placement.
   */
  function Store(m: Match, sub: Match, tag: Option<string>): (r: Match)
    requires StoreAllowed(m, sub, tag)
    ensures r.text == m.text + sub.text && r.rule == m.rule && r.name == m.name
    ensures m.fields.Keys <= r.fields.Keys
    ensures !Hooked(m.rule, HookKey(sub, tag)) ==> r == StoreDefault(m, sub, tag)
  {
    var key := HookKey(sub, tag);
    var t := AddText(m, sub.text);
    if m.rule == "FilterGroup" && key == "Filter" then
      t.(fields := t.fields["Filters" := Appended(t, "Filters", sub)])
    else if m.rule == "Filter" && key == "PathFilter" then
      t.(fields := t.fields["PathFilter" := Str(sub.text)])
    else if m.rule == "Filter" && key == "IdentifierFilter" then
      t.(fields := t.fields["IdentifierFilter" := Str(DropFirst(sub.text))])
    else if m.rule == "Filter" && key == "PropertyNameFilter" then
      t.(fields := t.fields["PropertyNameFilter" := Get(sub, "Identifier")])
    else if m.rule == "Filter" && key == "AttributeFilters" then
      t.(fields := t.fields["AttributeFilters" := Appended(t, "AttributeFilters", sub)])
    else if m.rule == "PropertyNameFilter" && key == "Identifier" then
      t.(fields := t.fields["Identifier" := Str(sub.text)])
    else if m.rule == "AttributeFilter" && key == "PropertyPath" then
      t.(fields := t.fields["PropertyPath" := Str(sub.text)]["Identifier" := Str(sub.text)])
    else if m.rule == "AttributeFilter" && key == "Operator" then
      t.(fields := t.fields["Operator" := Str(sub.text)])
    else if m.rule == "AttributeFilter" && key == "Operand" then
      t.(fields := t.fields["Operand" := Get(sub, "val")])
    else StoreDefault(m, sub, tag)
  }

  /** The input has `t` at `i` (`substr($string, $pos, strlen($t)) == $t`). */
  predicate StartsWith(s: string, i: nat, t: string) {
    i + |t| <= |s| && s[i..i + |t|] == t
  }

  // ---------------------------------------------------------------------------------------------
  // Leaf rules.

  /** `ObjectIdentifier: / [0-9a-zA-Z_-]+ /`. */
  function ObjectIdentifier(s: string, i: nat): (r: Option<Match>)
    requires i <= |s|
    ensures FitsOpt(s, i, r)
    ensures r.Some? <==> i < |s| && InClass(ObjectIdentifierPattern, s[i])
    ensures r.Some? ==> r.value.rule == "ObjectIdentifier" && r.value.name == "ObjectIdentifier"
    ensures r.Some? ==> r.value.text == MatchAt(ObjectIdentifierPattern, s, i).value
  {
    match MatchAt(ObjectIdentifierPattern, s, i)
    case None => None
    case Some(t) => Some(Finalise(AddText(Start("ObjectIdentifier"), t)))
  }

  /** `UnquotedOperand: / [^"'\[\]\s]+ /`, finalised with `val` = its text. */
  function UnquotedOperand(s: string, i: nat): (r: Option<Match>)
    requires i <= |s|
    ensures FitsOpt(s, i, r)
    ensures r.Some? <==> i < |s| && InClass(UnquotedOperandPattern, s[i])
    ensures r.Some? ==> r.value.rule == "UnquotedOperand" && r.value.name == "UnquotedOperand"
    ensures r.Some? ==> r.value.text == MatchAt(UnquotedOperandPattern, s, i).value
    ensures r.Some? ==> "val" in r.value.fields && r.value.fields["val"] == Str(r.value.text)
  {
    match MatchAt(UnquotedOperandPattern, s, i)
    case None => None
    case Some(t) => Some(Finalise(AddText(Start("UnquotedOperand"), t)))
  }

  /** A rule that is a single literal token, such as `PrefixMatch: '^='`. */
  function TokenRule(rule: string, token: string, s: string, i: nat): (r: Option<Match>)
    requires i <= |s|
    ensures FitsOpt(s, i, r)
    ensures r.Some? <==> StartsWith(s, i, token)
    ensures r.Some? ==> r.value.rule == rule && r.value.name == rule && r.value.text == token
    ensures r.Some? && rule !in {"AttributeFilter", "UnquotedOperand", "BooleanLiteral", "NumberLiteral"} ==>
      r.value == Match(rule, rule, token, map[])
  {
    if StartsWith(s, i, token) then Some(Finalise(AddText(Start(rule), token))) else None
  }

  /** `NumberLiteral` of the base class, sealed by this grammar's finalise hook. */
  function NumberLiteral(g: Base, s: string, i: nat): (r: Option<Match>)
    requires i <= |s|
    ensures FitsOpt(s, i, r)
    ensures r.Some? <==> g.numberLiteral(s, i).Some?
    ensures r.Some? ==> r.value.rule == "NumberLiteral" && r.value.name == "NumberLiteral"
    ensures r.Some? ==> r.value.text == g.numberLiteral(s, i).value.text
    ensures r.Some? ==> "val" in r.value.fields
    ensures r.Some? ==> r.value.fields["val"] ==
                        if IsSet(g.numberLiteral(s, i).value, "dec") then FloatVal(r.value.text) else IntVal(r.value.text)
  {
    match g.numberLiteral(s, i)
    case None => None
    case Some(x) => Some(Finalise(x))
  }

  /** `BooleanLiteral` of the base class, sealed by this grammar's finalise hook. */
  function BooleanLiteral(g: Base, s: string, i: nat): (r: Option<Match>)
    requires i <= |s|
    ensures FitsOpt(s, i, r)
    ensures r.Some? <==> g.booleanLiteral(s, i).Some?
    ensures r.Some? ==> r.value.rule == "BooleanLiteral" && r.value.name == "BooleanLiteral"
    ensures r.Some? ==> r.value.text == g.booleanLiteral(s, i).value.text
    ensures r.Some? ==> "val" in r.value.fields && r.value.fields["val"] == Flag(LowerString(r.value.text) == "true")
  {
    match g.booleanLiteral(s, i)
    case None => None
    case Some(x) => Some(Finalise(x))
  }

  // ---------------------------------------------------------------------------------------------
  // Operators and operands.

  /** The operator alternatives of `AttributeFilter`, in the order they are tried. */
  const OperatorTokens: seq<string> :=
    ["instanceof", "!instanceof", "^=", "$=", "*=", "=", "!=", "<=", "<", ">=", ">"]

  /** The token rules behind the operators numbered 2 to 10; the two `instanceof` forms are literals. */
  const OperatorRules: seq<string> :=
    ["PrefixMatch", "SuffixMatch", "SubstringMatch", "ExactMatch", "NotEqualMatch",
     "LessThanOrEqualMatch", "LessThanMatch", "GreaterThanOrEqualMatch", "GreaterThanMatch"]

  /** The rule matching the operator numbered `k`. */
  function OperatorRule(k: nat): string
    requires 2 <= k < |OperatorTokens|
  {
    OperatorRules[k - 2]
  }

  /** Only the two `instanceof` forms are allowed without a property path before them. */
  function OperatorCount(full: bool): nat {
    if full then |OperatorTokens| else 2
  }

  /** The first operator token among those numbered `k` to `n - 1` that the input has at `i`. */
  function FirstOperator(s: string, i: nat, k: nat, n: nat): (r: Option<nat>)
    requires k <= n <= |OperatorTokens|
    ensures r.Some? ==> k <= r.value < n && StartsWith(s, i, OperatorTokens[r.value])
    ensures r.Some? ==> forall j :: k <= j < r.value ==> !StartsWith(s, i, OperatorTokens[j])
    ensures r.None? ==> forall j :: k <= j < n ==> !StartsWith(s, i, OperatorTokens[j])
    decreases n - k
  {
    if k == n then None
    else if StartsWith(s, i, OperatorTokens[k]) then Some(k)
    else FirstOperator(s, i, k + 1, n)
  }

  /**
   * The `Operator:( ... )` sub-result: a node built by `construct($matchrule, "Operator")`
   * inside AttributeFilter, holding the text of the first operator that matches.
   */
  function Operator(s: string, i: nat, full: bool): (r: Option<Match>)
    requires i <= |s|
    ensures FitsOpt(s, i, r)
    ensures r.Some? <==> FirstOperator(s, i, 0, OperatorCount(full)).Some?
    ensures r.Some? ==> r.value.text == OperatorTokens[FirstOperator(s, i, 0, OperatorCount(full)).value]
    ensures r.Some? ==> r.value.rule == "AttributeFilter" && r.value.name == "Operator"
  {
    match FirstOperator(s, i, 0, OperatorCount(full))
    case None => None
    case Some(k) => Some(AddText(Construct("AttributeFilter", "Operator"), OperatorTokens[k]))
  }

  /**
   * `( Operand:StringLiteral | Operand:NumberLiteral | Operand:BooleanLiteral | Operand:UnquotedOperand )`;
   * after a bare `instanceof` only the first and the last alternative exist.
   */
  function Operand(g: Base, s: string, i: nat, full: bool): (r: Option<Match>)
    requires i <= |s|
    ensures FitsOpt(s, i, r)
    ensures r.Some? ==> r.value.rule in {"StringLiteral", "NumberLiteral", "BooleanLiteral", "UnquotedOperand"}
    ensures g.stringLiteral(s, i).Some? ==> r == g.stringLiteral(s, i)
    ensures !full && g.stringLiteral(s, i).None? ==> r == UnquotedOperand(s, i)
    ensures full && g.stringLiteral(s, i).None? && NumberLiteral(g, s, i).Some? ==> r == NumberLiteral(g, s, i)
    ensures full && g.stringLiteral(s, i).None? && NumberLiteral(g, s, i).None? && BooleanLiteral(g, s, i).Some? ==>
      r == BooleanLiteral(g, s, i)
    ensures full && g.stringLiteral(s, i).None? && NumberLiteral(g, s, i).None? && BooleanLiteral(g, s, i).None? ==>
      r == UnquotedOperand(s, i)
  {
    match g.stringLiteral(s, i)
    case Some(x) => Some(x)
    case None =>
      var alt := if !full then None
        else match NumberLiteral(g, s, i)
          case Some(x) => Some(x)
          case None => BooleanLiteral(g, s, i);
      if alt.Some? then alt else UnquotedOperand(s, i)
  }

  /**
   * `S` inside a rule, continuing the node `m` (begun at `i0`) where it ends:
   * the whitespace is stored untagged, which only appends its text.
   */
  function ThenS(g: Base, s: string, i0: nat, m: Match): (r: Option<Match>)
    requires Fits(s, i0, m)
    ensures r.Some? ==> Fits(s, i0, r.value) && r.value.rule == m.rule && r.value.name == m.name
    ensures r.Some? ==> r.value.fields == m.fields && |m.text| <= |r.value.text|
    ensures r.Some? <==> g.s(s, End(i0, m)).Some?
  {
    match g.s(s, End(i0, m))
    case None => None
    case Some(w) => Some(Store(m, w, None))
  }

  /**
   * `Operator:( ... ) S ( Operand:... ) S`, continuing the AttributeFilter node `m`
   * (begun at `i0`) where it ends. The Operator hook stores the operator's text.
   */
  function OperatorClause(g: Base, s: string, i0: nat, m: Match, full: bool): (r: Option<Match>)
    requires Fits(s, i0, m) && m.rule == "AttributeFilter"
    ensures r.Some? ==> Fits(s, i0, r.value) && r.value.rule == m.rule && r.value.name == m.name
  {
    match Operator(s, End(i0, m), full)
    case None => None
    case Some(op) =>
      match ThenS(g, s, i0, Store(m, op, Some("Operator")))
      case None => None
      case Some(m1) => OperandClause(g, s, i0, m1, full)
  }

  /** `( Operand:... ) S` after the operator; the Operand hook stores the operand's `val`. */
  function OperandClause(g: Base, s: string, i0: nat, m: Match, full: bool): (r: Option<Match>)
    requires Fits(s, i0, m) && m.rule == "AttributeFilter"
    ensures r.Some? ==> Fits(s, i0, r.value) && r.value.rule == m.rule && r.value.name == m.name
  {
    match Operand(g, s, End(i0, m), full)
    case None => None
    case Some(x) => ThenS(g, s, i0, Store(m, x, Some("Operand")))
  }

  /** `:PropertyPath S ( Operator:( ... ) S ( Operand:... ) S )?`: a failed optional group is undone. */
  function Comparison(g: Base, s: string, i0: nat, m: Match): (r: Option<Match>)
    requires Fits(s, i0, m) && m.rule == "AttributeFilter"
    ensures r.Some? ==> Fits(s, i0, r.value) && r.value.rule == m.rule && r.value.name == m.name
  {
    match g.propertyPath(s, End(i0, m))
    case None => None
    case Some(pp) =>
      match ThenS(g, s, i0, Store(m, pp, Some("PropertyPath")))
      case None => None
      case Some(m1) =>
        match OperatorClause(g, s, i0, m1, true)
        case Some(m2) => Some(m2)
        case None => Some(m1)
  }

  /** The choice inside the brackets: a bare `instanceof` clause, else a comparison. */
  function AttributeBody(g: Base, s: string, i0: nat, m: Match): (r: Option<Match>)
    requires Fits(s, i0, m) && m.rule == "AttributeFilter"
    ensures r.Some? ==> Fits(s, i0, r.value) && r.value.rule == m.rule && r.value.name == m.name
  {
    match OperatorClause(g, s, i0, m, false)
    case Some(m1) => Some(m1)
    case None => Comparison(g, s, i0, m)
  }

  /** `S ']'` closing an AttributeFilter node `m` (begun at `i0`), which is then finalised. */
  function CloseAttribute(g: Base, s: string, i0: nat, m: Match): (r: Option<Match>)
    requires Fits(s, i0, m) && m.rule == "AttributeFilter"
    ensures r.Some? ==> Fits(s, i0, r.value) && r.value.rule == m.rule && r.value.name == m.name
    ensures r.Some? ==> |m.text| < |r.value.text|
  {
    match ThenS(g, s, i0, m)
    case None => None
    case Some(m1) =>
      if !StartsWith(s, End(i0, m1), "]") then None
      else Some(Finalise(AddText(m1, "]")))
  }

  /** `AttributeFilter: '[' S ( ... | ... ) S ']'`. */
  function AttributeFilter(g: Base, s: string, i: nat): (r: Option<Match>)
    requires i <= |s|
    ensures FitsOpt(s, i, r)
    ensures r.Some? ==> r.value.rule == "AttributeFilter" && r.value.name == "AttributeFilter"
    ensures r.Some? ==> |r.value.text| >= 2
  {
    if !StartsWith(s, i, "[") then None
    else
      match ThenS(g, s, i, AddText(Start("AttributeFilter"), "["))
      case None => None
      case Some(m1) =>
        match AttributeBody(g, s, i, m1)
        case None => None
        case Some(m2) => CloseAttribute(g, s, i, m2)
  }

  /** `IdentifierFilter: '#':ObjectIdentifier`. */
  function IdentifierFilter(s: string, i: nat): (r: Option<Match>)
    requires i <= |s|
    ensures FitsOpt(s, i, r)
    ensures r.Some? ==> r.value.rule == "IdentifierFilter" && r.value.name == "IdentifierFilter"
    ensures r.Some? <==> StartsWith(s, i, "#") && ObjectIdentifier(s, i + 1).Some?
    ensures r.Some? ==> r.value.text == "#" + ObjectIdentifier(s, i + 1).value.text
  {
    if !StartsWith(s, i, "#") then None
    else
      var m0 := AddText(Start("IdentifierFilter"), "#");
      match ObjectIdentifier(s, End(i, m0))
      case None => None
      case Some(o) => Some(Finalise(Store(m0, o, Some("ObjectIdentifier"))))
  }

  /** `PropertyNameFilter: Identifier`; its hook keeps the identifier's text as `Identifier`. */
  function PropertyNameFilter(g: Base, s: string, i: nat): (r: Option<Match>)
    requires i <= |s|
    ensures FitsOpt(s, i, r)
    ensures r.Some? ==> r.value.rule == "PropertyNameFilter" && r.value.name == "PropertyNameFilter"
    ensures r.Some? <==> g.identifier(s, i).Some?
    ensures r.Some? ==> r.value.text == g.identifier(s, i).value.text
    ensures r.Some? ==> r.value.fields == map["Identifier" := Str(r.value.text)]
  {
    match g.identifier(s, i)
    case None => None
    case Some(x) => Some(Finalise(Store(Start("PropertyNameFilter"), x, None)))
  }

  /** One `'/' Identifier` of a path, continuing the PathFilter node `m` (begun at `i0`). */
  function PathStep(g: Base, s: string, i0: nat, m: Match): (r: Option<Match>)
    requires Fits(s, i0, m) && m.rule == "PathFilter"
    ensures r.Some? ==> Fits(s, i0, r.value) && r.value.rule == m.rule && r.value.name == m.name
    ensures r.Some? ==> r.value.fields == m.fields && |m.text| < |r.value.text|
    ensures r.Some? ==> r.value.text[..|m.text|] == m.text
  {
    if !StartsWith(s, End(i0, m), "/") then None
    else
      var m1 := AddText(m, "/");
      match g.identifier(s, End(i0, m1))
      case None => None
      case Some(x) => Some(Store(m1, x, None))
  }

  /** `( '/' Identifier )*` at the end of a path: steps are taken while they match. */
  function PathTail(g: Base, s: string, i0: nat, m: Match): (r: Match)
    requires Fits(s, i0, m) && m.rule == "PathFilter"
    ensures Fits(s, i0, r) && r.rule == m.rule && r.name == m.name && r.fields == m.fields
    decreases |s| - End(i0, m)
  {
    match PathStep(g, s, i0, m)
    case None => m
    case Some(m1) => PathTail(g, s, i0, m1)
  }

  /** The first alternative of PathFilter: `'/' ( Identifier ( '/' Identifier )* )?`; it never fails after the '/'. */
  function RootedPath(g: Base, s: string, i: nat): (r: Option<Match>)
    requires i <= |s|
    ensures FitsOpt(s, i, r)
    ensures r.Some? ==> r.value.rule == "PathFilter" && r.value.name == "PathFilter" && r.value.fields == map[]
    ensures r.Some? <==> StartsWith(s, i, "/")
  {
    if !StartsWith(s, i, "/") then None
    else
      var m1 := AddText(Start("PathFilter"), "/");
      match g.identifier(s, End(i, m1))
      case None => Some(m1)
      case Some(x) => Some(PathTail(g, s, i, Store(m1, x, None)))
  }

  /** The second alternative of PathFilter: `Identifier '/' Identifier ( '/' Identifier )*`. */
  function RelativePath(g: Base, s: string, i: nat): (r: Option<Match>)
    requires i <= |s|
    ensures FitsOpt(s, i, r)
    ensures r.Some? ==> r.value.rule == "PathFilter" && r.value.name == "PathFilter" && r.value.fields == map[]
  {
    match g.identifier(s, i)
    case None => None
    case Some(x) =>
      var m1 := Store(Start("PathFilter"), x, None);
      match PathStep(g, s, i, m1)
      case None => None
      case Some(m2) => Some(PathTail(g, s, i, m2))
  }

  /** `PathFilter: ( '/' ( Identifier ( '/' Identifier )* )? ) | ( Identifier '/' Identifier ( '/' Identifier )* )`. */
  function PathFilter(g: Base, s: string, i: nat): (r: Option<Match>)
    requires i <= |s|
    ensures FitsOpt(s, i, r)
    ensures r.Some? ==> r.value.rule == "PathFilter" && r.value.name == "PathFilter" && r.value.fields == map[]
    ensures StartsWith(s, i, "/") ==> r.Some?
  {
    match RootedPath(g, s, i)
    case Some(m) => Some(Finalise(m))
    case None =>
      match RelativePath(g, s, i)
      case None => None
      case Some(m) => Some(Finalise(m))
  }

  /** `( PathFilter | IdentifierFilter | PropertyNameFilter )`: the first alternative that matches. */
  function Subject(g: Base, s: string, i: nat): (r: Option<Match>)
    requires i <= |s|
    ensures FitsOpt(s, i, r)
    ensures r.Some? ==> r.value.rule in {"PathFilter", "IdentifierFilter", "PropertyNameFilter"}
    ensures r.Some? ==> r.value.name == r.value.rule
  {
    match PathFilter(g, s, i)
    case Some(x) => Some(x)
    case None =>
      match IdentifierFilter(s, i)
      case Some(x) => Some(x)
      case None => PropertyNameFilter(g, s, i)
  }

  /** `( AttributeFilters:AttributeFilter )*`, continuing the Filter node `m` (begun at `i0`). */
  function AttributeLoop(g: Base, s: string, i0: nat, m: Match): (r: Match)
    requires Fits(s, i0, m) && m.rule == "Filter"
    ensures Fits(s, i0, r) && r.rule == m.rule && r.name == m.name
    decreases |s| - End(i0, m)
  {
    match AttributeFilter(g, s, End(i0, m))
    case None => m
    case Some(a) => AttributeLoop(g, s, i0, Store(m, a, Some("AttributeFilters")))
  }

  /** The Filter node after its optional subject. */
  function FilterHead(g: Base, s: string, i: nat): (r: Match)
    requires i <= |s|
    ensures Fits(s, i, r) && r.rule == "Filter" && r.name == "Filter"
  {
    match Subject(g, s, i)
    case None => Start("Filter")
    case Some(x) => Store(Start("Filter"), x, None)
  }

  /** `Filter: ( PathFilter | IdentifierFilter | PropertyNameFilter )? ( AttributeFilters:AttributeFilter )*`. */
  function Filter(g: Base, s: string, i: nat): (r: Option<Match>)
    requires i <= |s|
    ensures FitsOpt(s, i, r)
    ensures r.Some?
    ensures r.value.rule == "Filter" && r.value.name == "Filter"
  {
    Some(Finalise(AttributeLoop(g, s, i, FilterHead(g, s, i))))
  }

  /** `S :Filter` after the comma of a group item; the Filter hook appends the filter to `Filters`. */
  function AfterComma(g: Base, s: string, i0: nat, m: Match): (r: Option<Match>)
    requires Fits(s, i0, m) && m.rule == "FilterGroup"
    ensures r.Some? ==> Fits(s, i0, r.value) && r.value.rule == m.rule && r.value.name == m.name
    ensures r.Some? ==> |m.text| <= |r.value.text|
  {
    match ThenS(g, s, i0, m)
    case None => None
    case Some(m1) => Some(Store(m1, Filter(g, s, End(i0, m1)).value, Some("Filter")))
  }

  /** One `S ',' S :Filter` of a group, continuing the FilterGroup node `m` (begun at `i0`). */
  function GroupItem(g: Base, s: string, i0: nat, m: Match): (r: Option<Match>)
    requires Fits(s, i0, m) && m.rule == "FilterGroup"
    ensures r.Some? ==> Fits(s, i0, r.value) && r.value.rule == m.rule && r.value.name == m.name
    ensures r.Some? ==> |m.text| < |r.value.text|
  {
    match ThenS(g, s, i0, m)
    case None => None
    case Some(m1) =>
      if !StartsWith(s, End(i0, m1), ",") then None
      else AfterComma(g, s, i0, AddText(m1, ","))
  }

  /** `( S ',' S :Filter )*`: items are taken while they match; a failed one is undone. */
  function GroupLoop(g: Base, s: string, i0: nat, m: Match): (r: Match)
    requires Fits(s, i0, m) && m.rule == "FilterGroup"
    ensures Fits(s, i0, r) && r.rule == m.rule && r.name == m.name
    decreases |s| - End(i0, m)
  {
    match GroupItem(g, s, i0, m)
    case None => m
    case Some(m1) => GroupLoop(g, s, i0, m1)
  }

  /** `FilterGroup: :Filter ( S ',' S :Filter )*`. It never fails, because Filter never does. */
  function FilterGroup(g: Base, s: string, i: nat): (r: Option<Match>)
    requires i <= |s|
    ensures FitsOpt(s, i, r)
    ensures r.Some?
    ensures r.value.rule == "FilterGroup" && r.value.name == "FilterGroup"
  {
    var f := Filter(g, s, i).value;
    Some(Finalise(GroupLoop(g, s, i, Store(Start("FilterGroup"), f, Some("Filter")))))
  }

  /**
   * `parseFilterGroup`: the FilterGroup tree when it spans the whole input,
   * else the error with character number `pos + 1` (one past the consumed prefix).
   */
  function ParseFilterGroup(g: Base, s: string): (r: Result<Match, nat>)
    ensures r.Ok? <==> |FilterGroup(g, s, 0).value.text| == |s|
    ensures r.Ok? ==> r.value == FilterGroup(g, s, 0).value
    ensures r.Err? ==> r.error == |FilterGroup(g, s, 0).value.text| + 1 && 1 <= r.error <= |s|
  {
    var m := FilterGroup(g, s, 0).value;
    if |m.text| == |s| then Ok(m) else Err(|m.text| + 1)
  }

  // ---------------------------------------------------------------------------------------------
  // The memo keys and what each denotes.

  /** The rules inherited from the base parser class, and the two this grammar finalises. */
  const BaseTable: map<string, (Base, string, nat) -> Option<Match>> := map[
    "S" := (g: Base, s: string, i: nat) => if i <= |s| then g.s(s, i) else None,
    "Identifier" := (g: Base, s: string, i: nat) => if i <= |s| then g.identifier(s, i) else None,
    "PropertyPath" := (g: Base, s: string, i: nat) => if i <= |s| then g.propertyPath(s, i) else None,
    "StringLiteral" := (g: Base, s: string, i: nat) => if i <= |s| then g.stringLiteral(s, i) else None,
    "NumberLiteral" := (g: Base, s: string, i: nat) => if i <= |s| then NumberLiteral(g, s, i) else None,
    "BooleanLiteral" := (g: Base, s: string, i: nat) => if i <= |s| then BooleanLiteral(g, s, i) else None
  ]

  /** The single-token rules behind the comparison operators, each with its token. */
  const TokenTable: map<string, string> := map[
    "PrefixMatch" := "^=",
    "SuffixMatch" := "$=",
    "SubstringMatch" := "*=",
    "ExactMatch" := "=",
    "NotEqualMatch" := "!=",
    "LessThanOrEqualMatch" := "<=",
    "LessThanMatch" := "<",
    "GreaterThanOrEqualMatch" := ">=",
    "GreaterThanMatch" := ">"
  ]

  /** The rules of the selector grammar that match one regular expression. */
  const PatternTable: map<string, (Base, string, nat) -> Option<Match>> := map[
    "ObjectIdentifier" := (g: Base, s: string, i: nat) => if i <= |s| then ObjectIdentifier(s, i) else None,
    "UnquotedOperand" := (g: Base, s: string, i: nat) => if i <= |s| then UnquotedOperand(s, i) else None
  ]

  /** The filter rules the selector grammar defines itself. */
  const FizzleTable: map<string, (Base, string, nat) -> Option<Match>> := map[
    "IdentifierFilter" := (g: Base, s: string, i: nat) => if i <= |s| then IdentifierFilter(s, i) else None,
    "PropertyNameFilter" := (g: Base, s: string, i: nat) => if i <= |s| then PropertyNameFilter(g, s, i) else None,
    "PathFilter" := (g: Base, s: string, i: nat) => if i <= |s| then PathFilter(g, s, i) else None,
    "AttributeFilter" := (g: Base, s: string, i: nat) => if i <= |s| then AttributeFilter(g, s, i) else None,
    "Filter" := (g: Base, s: string, i: nat) => if i <= |s| then Filter(g, s, i) else None
  ]

  /** The token rule behind operator `k` is in the token table with that operator's token, and nowhere before it. */
  lemma OperatorRuleKey(k: nat)
    requires 2 <= k < |OperatorTokens|
    ensures OperatorRule(k) in TokenTable && OperatorRule(k) !in FizzleTable
    ensures TokenTable[OperatorRule(k)] == OperatorTokens[k]
    ensures !Hooked("AttributeFilter", OperatorRule(k))
  {
    if k == 2 {
    } else if k == 3 {
    } else if k == 4 {
    } else if k == 5 {
    } else if k == 6 {
    } else if k == 7 {
    } else if k == 8 {
    } else if k == 9 {
    } else {
      assert k == 10;
    }
  }

  /**
   * The outcome of the rule memoised under `key` at position `i`, found by name
   * as `$this->$matcher` finds `match_<name>`; a name without a rule never
   * matches, and no rule matches past the end of the input.
   */
  function RuleAt(g: Base, s: string, key: string, i: nat): Option<Match> {
    if key in FizzleTable then FizzleTable[key](g, s, i)
    else if key in TokenTable then (if i <= |s| then TokenRule(key, TokenTable[key], s, i) else None)
    else if key in PatternTable then PatternTable[key](g, s, i)
    else if key in BaseTable then BaseTable[key](g, s, i)
    else None
  }

  /** The grammar as the memo tables see it. */
  ghost function Meaning(g: Base, s: string): (string, nat) -> Option<Match> {
    (key: string, i: nat) => RuleAt(g, s, key, i)
  }
}
