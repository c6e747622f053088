/**
 * What the selector grammar promises about the trees it builds: the order in
 * which operators and subjects are tried, the values the hooks store, and
 * the repetition loops keeping every item in source order.
 */
module FizzleProperties {
  import opened Wrappers
  import opened Chars
  import opened PegResult
  import opened FizzleGrammar
  import Peg

  // ---------------------------------------------------------------------------------------------
  // Operators.

  /** The operator chosen is the first one, in declaration order, that the input has. */
  lemma OperatorChosen(s: string, i: nat, k: nat)
    requires i <= |s| && k < |OperatorTokens| && StartsWith(s, i, OperatorTokens[k])
    requires forall j :: 0 <= j < k ==> !StartsWith(s, i, OperatorTokens[j])
    ensures Operator(s, i, true).Some? && Operator(s, i, true).value.text == OperatorTokens[k]
  {
  }

  /** An input that starts with `t` starts with `c` when `c` is the first character of `t`. */
  lemma FirstChar(s: string, i: nat, t: string)
    requires |t| > 0 && StartsWith(s, i, t)
    ensures i < |s| && s[i] == t[0]
  {
    assert s[i..i + |t|][0] == t[0];
  }

  /** No operator before `<=` in the declared order begins with `<`. */
  lemma NothingBeforeLess(s: string, i: nat, k: nat)
    requires i < |s| && s[i] == '<' && k < 7
    ensures !StartsWith(s, i, OperatorTokens[k])
  {
    if StartsWith(s, i, OperatorTokens[k]) {
      FirstChar(s, i, OperatorTokens[k]);
    }
  }

  /** No operator before `>=` in the declared order begins with `>`. */
  lemma NothingBeforeGreater(s: string, i: nat, k: nat)
    requires i < |s| && s[i] == '>' && k < 9
    ensures !StartsWith(s, i, OperatorTokens[k])
  {
    if StartsWith(s, i, OperatorTokens[k]) {
      FirstChar(s, i, OperatorTokens[k]);
    }
  }

  /** `<=` is tried before `<`: on `<=` the operator is `<=`, on any other `<` it is `<`. */
  lemma LessOperators(s: string, i: nat)
    requires i < |s| && s[i] == '<'
    ensures StartsWith(s, i, "<=") ==> Operator(s, i, true).Some? && Operator(s, i, true).value.text == "<="
    ensures !StartsWith(s, i, "<=") ==> Operator(s, i, true).Some? && Operator(s, i, true).value.text == "<"
  {
    forall j | 0 <= j < 7 ensures !StartsWith(s, i, OperatorTokens[j]) {
      NothingBeforeLess(s, i, j);
    }
    if StartsWith(s, i, "<=") {
      OperatorChosen(s, i, 7);
    } else {
      assert s[i..i + 1] == "<";
      OperatorChosen(s, i, 8);
    }
  }

  /** `>=` is tried before `>`: on `>=` the operator is `>=`, on any other `>` it is `>`. */
  lemma GreaterOperators(s: string, i: nat)
    requires i < |s| && s[i] == '>'
    ensures StartsWith(s, i, ">=") ==> Operator(s, i, true).Some? && Operator(s, i, true).value.text == ">="
    ensures !StartsWith(s, i, ">=") ==> Operator(s, i, true).Some? && Operator(s, i, true).value.text == ">"
  {
    forall j | 0 <= j < 9 ensures !StartsWith(s, i, OperatorTokens[j]) {
      NothingBeforeGreater(s, i, j);
    }
    if StartsWith(s, i, ">=") {
      OperatorChosen(s, i, 9);
    } else {
      assert s[i..i + 1] == ">";
      assert OperatorTokens[7] == "<=" && OperatorTokens[8] == "<";
      OperatorChosen(s, i, 10);
    }
  }

  // ---------------------------------------------------------------------------------------------
  // Subjects.

  /** A subject that begins with '/' is a path, and the Filter keeps the path's whole text. */
  lemma RootedSubject(g: Base, s: string, i: nat)
    requires i <= |s| && StartsWith(s, i, "/")
    ensures Subject(g, s, i).Some? && Subject(g, s, i) == PathFilter(g, s, i)
    ensures FilterHead(g, s, i).fields == map["PathFilter" := Str(PathFilter(g, s, i).value.text)]
  {
  }

  /** A path's tail only ever extends the text it continues. */
  lemma {:induction false} PathTailExtends(g: Base, s: string, i0: nat, m: Match)
    requires Fits(s, i0, m) && m.rule == "PathFilter"
    ensures |m.text| <= |PathTail(g, s, i0, m).text|
    ensures PathTail(g, s, i0, m).text[..|m.text|] == m.text
    decreases |s| - End(i0, m)
  {
    match PathStep(g, s, i0, m)
    case None =>
    case Some(m1) =>
      PathTailExtends(g, s, i0, m1);
      var r := PathTail(g, s, i0, m1);
      assert r.text[..|m.text|] == r.text[..|m1.text|][..|m.text|];
  }

  /**
   * `a/b`: an identifier, a '/' and another identifier make a relative path,
   * whose text begins with all three; the Filter keeps the path's whole text.
   */
  lemma RelativeSubject(g: Base, s: string, i: nat)
    requires i <= |s| && !StartsWith(s, i, "/")
    requires g.identifier(s, i).Some?
    requires StartsWith(s, End(i, g.identifier(s, i).value), "/")
    requires g.identifier(s, End(i, g.identifier(s, i).value) + 1).Some?
    ensures Subject(g, s, i).Some? && Subject(g, s, i) == PathFilter(g, s, i)
    ensures var a := g.identifier(s, i).value.text;
            var b := g.identifier(s, End(i, g.identifier(s, i).value) + 1).value.text;
            |a + "/" + b| <= |PathFilter(g, s, i).value.text| &&
            PathFilter(g, s, i).value.text[..|a + "/" + b|] == a + "/" + b
    ensures FilterHead(g, s, i).fields == map["PathFilter" := Str(PathFilter(g, s, i).value.text)]
  {
    var x := g.identifier(s, i).value;
    var m1 := Store(Start("PathFilter"), x, None);
    assert m1.text == x.text;
    var m2 := PathStep(g, s, i, m1);
    var y := g.identifier(s, End(i, x) + 1).value;
    assert m2 == Some(Store(AddText(m1, "/"), y, None));
    PathTailExtends(g, s, i, m2.value);
  }

  /**
   * A bare identifier, with no '/' before or after it and no '#', is neither
   * a path nor an identifier filter: it becomes a PropertyNameFilter, and the
   * Filter keeps the identifier's text.
   */
  lemma BareIdentifierSubject(g: Base, s: string, i: nat)
    requires i <= |s| && !StartsWith(s, i, "/") && !StartsWith(s, i, "#")
    requires g.identifier(s, i).Some?
    requires !StartsWith(s, End(i, g.identifier(s, i).value), "/")
    ensures Subject(g, s, i).Some? && Subject(g, s, i) == PropertyNameFilter(g, s, i)
    ensures FilterHead(g, s, i).fields == map["PropertyNameFilter" := Str(g.identifier(s, i).value.text)]
  {
    var x := g.identifier(s, i).value;
    var m1 := Store(Start("PathFilter"), x, None);
    assert PathStep(g, s, i, m1).None?;
  }

  /**
   * The identifier filter keeps its text without the '#', and that is a
   * non-empty, maximal run of `[0-9a-zA-Z_-]` from the character after it.
   */
  lemma IdentifierRemainder(s: string, i: nat)
    requires i <= |s| && IdentifierFilter(s, i).Some?
    ensures var t := DropFirst(IdentifierFilter(s, i).value.text);
            && |t| > 0 && s[i + 1..i + 1 + |t|] == t
            && (forall k :: i + 1 <= k < i + 1 + |t| ==> s[k] in IdentifierChars)
            && (i + 1 + |t| == |s| || s[i + 1 + |t|] !in IdentifierChars)
  {
    var t := MatchAt(ObjectIdentifierPattern, s, i + 1).value;
    assert DropFirst(IdentifierFilter(s, i).value.text) == t;
  }

  /**
   * `#id`, where no path and no identifier begins, is an identifier filter,
   * and the Filter keeps its text without the '#'.
   */
  lemma IdentifierSubject(g: Base, s: string, i: nat)
    requires i <= |s| && StartsWith(s, i, "#") && g.identifier(s, i).None?
    requires IdentifierFilter(s, i).Some?
    ensures Subject(g, s, i) == IdentifierFilter(s, i)
    ensures FilterHead(g, s, i).fields == map["IdentifierFilter" := Str(DropFirst(IdentifierFilter(s, i).value.text))]
  {
    assert !StartsWith(s, i, "/") by {
      if StartsWith(s, i, "/") {
        FirstChar(s, i, "/");
        FirstChar(s, i, "#");
      }
    }
  }

  // ---------------------------------------------------------------------------------------------
  // Attribute filters.

  /**
   * The fields of an AttributeFilter node: the three seeded by its construct
   * hook, with PropertyPath and Identifier always equal, and an Operand
   * exactly when an operator, one of the declared ones, was stored.
   */
  predicate AttributeShape(m: Match) {
    && m.fields.Keys <= {"Operator", "PropertyPath", "Identifier", "Operand"}
    && "Operator" in m.fields && "PropertyPath" in m.fields && "Identifier" in m.fields
    && m.fields["PropertyPath"] == m.fields["Identifier"]
    && (m.fields["Operator"] == Null <==> "Operand" !in m.fields)
    && (m.fields["Operator"] != Null ==> m.fields["Operator"].Str? && m.fields["Operator"].str in OperatorTokens)
  }

  /** A fresh `AttributeFilter` node already has the attribute shape: no operator, no operand. */
  lemma ConstructShape(name: string)
    ensures AttributeShape(Construct("AttributeFilter", name))
    ensures Construct("AttributeFilter", name).fields["Operator"] == Null
  {
  }

  /** The operand clause stores the operand's `val` and keeps every other field. */
  lemma OperandClauseShape(g: Base, s: string, i0: nat, m: Match, full: bool)
    requires Fits(s, i0, m) && m.rule == "AttributeFilter"
    requires m.fields.Keys <= {"Operator", "PropertyPath", "Identifier"}
    ensures var r := OperandClause(g, s, i0, m, full);
            r.Some? ==> r.value.fields == m.fields["Operand" := Get(Operand(g, s, End(i0, m), full).value, "val")]
  {
  }

  /** The operator clause stores the operator's text, then the operand's `val`. */
  lemma OperatorClauseShape(g: Base, s: string, i0: nat, m: Match, full: bool)
    requires Fits(s, i0, m) && m.rule == "AttributeFilter" && AttributeShape(m) && m.fields["Operator"] == Null
    ensures var r := OperatorClause(g, s, i0, m, full);
            r.Some? ==> AttributeShape(r.value) && r.value.fields["PropertyPath"] == m.fields["PropertyPath"]
                        && r.value.fields["Operator"] == Str(Operator(s, End(i0, m), full).value.text)
  {
    match Operator(s, End(i0, m), full)
    case None =>
    case Some(op) =>
      var m0 := Store(m, op, Some("Operator"));
      assert m0.fields == m.fields["Operator" := Str(op.text)];
      match ThenS(g, s, i0, m0)
      case None =>
      case Some(m1) => OperandClauseShape(g, s, i0, m1, full);
  }

  /** A comparison stores the property path's text as PropertyPath and Identifier; its operator group is optional. */
  lemma ComparisonShape(g: Base, s: string, i0: nat, m: Match)
    requires Fits(s, i0, m) && m.rule == "AttributeFilter" && AttributeShape(m) && m.fields["Operator"] == Null
    ensures var r := Comparison(g, s, i0, m);
            r.Some? ==> AttributeShape(r.value)
                        && r.value.fields["PropertyPath"] == Str(g.propertyPath(s, End(i0, m)).value.text)
  {
    var pp := g.propertyPath(s, End(i0, m));
    if pp.Some? {
      var m0 := Store(m, pp.value, Some("PropertyPath"));
      assert m0.fields == m.fields["PropertyPath" := Str(pp.value.text)]["Identifier" := Str(pp.value.text)];
      var m1 := ThenS(g, s, i0, m0);
      if m1.Some? {
        OperatorClauseShape(g, s, i0, m1.value, true);
      }
    }
  }

  /**
   * Every AttributeFilter node has the shape above: a bare `instanceof` clause
   * leaves PropertyPath and Identifier NULL, and a comparison whose operator
   * group fails leaves Operator NULL and adds no Operand.
   */
  lemma AttributeFilterShape(g: Base, s: string, i: nat)
    requires i <= |s|
    ensures AttributeFilter(g, s, i).Some? ==> AttributeShape(AttributeFilter(g, s, i).value)
  {
    if StartsWith(s, i, "[") {
      var m0 := AddText(Start("AttributeFilter"), "[");
      assert m0.fields == map["Operator" := Null, "PropertyPath" := Null, "Identifier" := Null];
      match ThenS(g, s, i, m0)
      case None =>
      case Some(m1) =>
        AttributeBodyShape(g, s, i, m1);
        match AttributeBody(g, s, i, m1)
        case None =>
        case Some(m2) => CloseAttributeShape(g, s, i, m2);
    }
  }

  /** Either alternative inside the brackets leaves a node of that shape. */
  lemma AttributeBodyShape(g: Base, s: string, i0: nat, m: Match)
    requires Fits(s, i0, m) && m.rule == "AttributeFilter" && AttributeShape(m) && m.fields["Operator"] == Null
    ensures AttributeBody(g, s, i0, m).Some? ==> AttributeShape(AttributeBody(g, s, i0, m).value)
  {
    OperatorClauseShape(g, s, i0, m, false);
    ComparisonShape(g, s, i0, m);
  }

  /** Closing the brackets and finalising keeps the fields. */
  lemma CloseAttributeShape(g: Base, s: string, i0: nat, m: Match)
    requires Fits(s, i0, m) && m.rule == "AttributeFilter" && AttributeShape(m)
    ensures CloseAttribute(g, s, i0, m).Some? ==> CloseAttribute(g, s, i0, m).value.fields == m.fields
  {
  }

  // ---------------------------------------------------------------------------------------------
  // Repetition loops.

  /** The list a hook has been appending to under `key`; empty while it is not a list. */
  function Listed(m: Match, key: string): seq<Match> {
    match Get(m, key)
    case Nodes(xs) => xs
    case _ => []
  }

  /** The Filter hook for AttributeFilters appends to its list. */
  lemma StoreAttributeFilter(m: Match, a: Match)
    requires m.rule == "Filter"
    ensures Listed(Store(m, a, Some("AttributeFilters")), "AttributeFilters") == Listed(m, "AttributeFilters") + [a]
  {
    assert Hooked(m.rule, "AttributeFilters");
    var t := AddText(m, a.text);
    assert Store(m, a, Some("AttributeFilters")) == t.(fields := t.fields["AttributeFilters" := Appended(t, "AttributeFilters", a)]);
  }

  /** The FilterGroup hook for Filter appends to the Filters list. */
  lemma StoreGroupFilter(m: Match, f: Match)
    requires m.rule == "FilterGroup"
    ensures Listed(Store(m, f, Some("Filter")), "Filters") == Listed(m, "Filters") + [f]
  {
    var t := AddText(m, f.text);
    assert Store(m, f, Some("Filter")) == t.(fields := t.fields["Filters" := Appended(t, "Filters", f)]);
  }

  /** Each item `next` reads at a position up to `n` ends further on, and no later than `n`. */
  predicate Advances(next: nat -> Option<(Match, nat)>, n: nat) {
    forall k: nat :: k <= n && next(k).Some? ==> k < next(k).value.1 <= n
  }

  /** The items `next` reads one after another from `j`, up to the first position where it reads none. */
  function Run(next: nat -> Option<(Match, nat)>, n: nat, j: nat): seq<Match>
    requires j <= n && Advances(next, n)
    decreases n - j
  {
    match next(j)
    case None => []
    case Some(item) => [item.0] + Run(next, n, item.1)
  }

  /** A run that reads an item at `j`, ending at `j1`, is that item followed by the run from `j1`. */
  lemma RunUnfold(next: nat -> Option<(Match, nat)>, n: nat, j: nat, x: Match, j1: nat)
    requires j <= n && Advances(next, n) && next(j).Some? && next(j).value.0 == x && next(j).value.1 == j1
    ensures j1 <= n
    ensures Run(next, n, j) == [x] + Run(next, n, j1)
  {
  }

  /** One attribute filter read off the input from `j`, and where it ends. */
  function AttributeItemAt(g: Base, s: string, j: nat): (r: Option<(Match, nat)>)
    requires j <= |s|
    ensures r.Some? ==> j < r.value.1 <= |s|
  {
    match AttributeFilter(g, s, j)
    case None => None
    case Some(a) => Some((a, j + |a.text|))
  }

  /** The item read off the input where attribute filter `a` matches, ending at `j1`. */
  lemma AttributeItemAtSome(g: Base, s: string, j: nat, a: Match, j1: nat)
    requires j <= |s| && AttributeFilter(g, s, j) == Some(a) && j1 == j + |a.text|
    ensures AttributeItemAt(g, s, j).Some? && AttributeItemAt(g, s, j).value.0 == a && AttributeItemAt(g, s, j).value.1 == j1
  {
  }

  /** AttributeItemAt at every position of `s`. */
  function AttributeItems(g: Base, s: string): (r: nat -> Option<(Match, nat)>)
    ensures Advances(r, |s|)
    ensures forall k: nat :: k <= |s| ==> r(k) == AttributeItemAt(g, s, k)
  {
    (k: nat) => if k <= |s| then AttributeItemAt(g, s, k) else None
  }

  /** The Filter node `m` after each of `xs` was stored under AttributeFilters, in order. */
  function StoreAttributes(m: Match, xs: seq<Match>): (r: Match)
    requires m.rule == "Filter"
    ensures r.rule == "Filter"
    decreases |xs|
  {
    if xs == [] then m else StoreAttributes(Store(m, xs[0], Some("AttributeFilters")), xs[1..])
  }

  /** Storing a run of attribute filters appends them to the list, in order. */
  lemma {:induction false} StoreAttributesAppends(m: Match, xs: seq<Match>)
    requires m.rule == "Filter"
    ensures Listed(StoreAttributes(m, xs), "AttributeFilters") == Listed(m, "AttributeFilters") + xs
    decreases |xs|
  {
    if xs == [] {
      assert Listed(m, "AttributeFilters") + xs == Listed(m, "AttributeFilters");
    } else {
      StoreAttributeFilter(m, xs[0]);
      StoreAttributesAppends(Store(m, xs[0], Some("AttributeFilters")), xs[1..]);
      AppendFirst(Listed(m, "AttributeFilters"), xs);
    }
  }

  /** Storing a run of attribute filters appends their texts to the node's, in order. */
  lemma {:induction false} StoreAttributesText(m: Match, xs: seq<Match>)
    requires m.rule == "Filter"
    ensures StoreAttributes(m, xs).text == m.text + ConcatText(xs)
    decreases |xs|
  {
    if xs == [] {
      assert m.text + ConcatText(xs) == m.text;
    } else {
      StoreAttributesText(Store(m, xs[0], Some("AttributeFilters")), xs[1..]);
      ConcatTextFirst(m.text, xs);
    }
  }

  /** Appending the text of the first of `xs` and then the rest's appends the text of all of `xs`. */
  lemma ConcatTextFirst(p: string, xs: seq<Match>)
    requires xs != []
    ensures p + xs[0].text + ConcatText(xs[1..]) == p + ConcatText(xs)
  {
    assert ConcatText(xs) == xs[0].text + ConcatText(xs[1..]);
  }

  /** Appending the first element of `xs` and then the rest appends `xs`. */
  lemma AppendFirst(p: seq<Match>, xs: seq<Match>)
    requires xs != []
    ensures p + [xs[0]] + xs[1..] == p + xs
  {
    assert [xs[0]] + xs[1..] == xs;
  }

  /** An iteration that matches stores the attribute filter and carries on from where it ends. */
  lemma AttributeLoopUnfold(g: Base, s: string, i0: nat, m: Match, a: Match)
    requires Fits(s, i0, m) && m.rule == "Filter" && AttributeFilter(g, s, End(i0, m)) == Some(a)
    ensures End(i0, Store(m, a, Some("AttributeFilters"))) == End(i0, m) + |a.text|
    ensures AttributeLoop(g, s, i0, m) == AttributeLoop(g, s, i0, Store(m, a, Some("AttributeFilters")))
  {
  }

  /**
   * `( AttributeFilters:AttributeFilter )*` stores the attribute filters that
   * follow one another from `j`, in source order, and stops at the first that
   * fails, whose partial work is dropped.
   */
  lemma {:induction false} AttributeLoopStores(g: Base, s: string, i0: nat, m: Match, j: nat, next: nat -> Option<(Match, nat)>)
    requires Fits(s, i0, m) && m.rule == "Filter" && j == End(i0, m)
    requires Advances(next, |s|) && forall k: nat :: k <= |s| ==> next(k) == AttributeItemAt(g, s, k)
    ensures AttributeLoop(g, s, i0, m) == StoreAttributes(m, Run(next, |s|, j))
    decreases |s| - j
  {
    assert next(j) == AttributeItemAt(g, s, j);
    if AttributeFilter(g, s, j).None? {
      assert Run(next, |s|, j) == [];
    } else {
      var a := AttributeFilter(g, s, j).value;
      var m1 := Store(m, a, Some("AttributeFilters"));
      AttributeLoopUnfold(g, s, i0, m, a);
      var j1 := End(i0, m1);
      AttributeItemAtSome(g, s, j, a, j1);
      AttributeLoopStores(g, s, i0, m1, j1, next);
      StoreRunStep(next, |s|, j, a, j1, m, AttributeLoop(g, s, i0, m1));
    }
  }

  /** A node that stored `a` and then the run from where `a`'s item ends has stored the run from where it starts. */
  lemma StoreRunStep(next: nat -> Option<(Match, nat)>, n: nat, j: nat, a: Match, j1: nat, m: Match, last: Match)
    requires j <= n && Advances(next, n) && next(j).Some? && next(j).value.0 == a && next(j).value.1 == j1 && m.rule == "Filter"
    requires j1 <= n && last == StoreAttributes(Store(m, a, Some("AttributeFilters")), Run(next, n, j1))
    ensures last == StoreAttributes(m, Run(next, n, j))
  {
    RunUnfold(next, n, j, a, j1);
    StoreAttributesUnfold(m, a, Run(next, n, j1));
  }

  lemma StoreAttributesUnfold(m: Match, a: Match, rest: seq<Match>)
    requires m.rule == "Filter"
    ensures StoreAttributes(m, [a] + rest) == StoreAttributes(Store(m, a, Some("AttributeFilters")), rest)
  {
    assert ([a] + rest)[1..] == rest;
  }

  /** The Filter node after its subject has no attribute filters yet, and the loop finishes it. */
  lemma FilterHeadStarts(g: Base, s: string, i: nat)
    requires i <= |s|
    ensures Get(FilterHead(g, s, i), "AttributeFilters") == Null
    ensures Filter(g, s, i).value == AttributeLoop(g, s, i, FilterHead(g, s, i))
  {
    var h := FilterHead(g, s, i);
    match Subject(g, s, i) {
      case None =>
        assert h.fields == map[];
      case Some(x) =>
        assert h.fields.Keys == {x.name};
    }
    var l := AttributeLoop(g, s, i, h);
    assert Finalise(l) == l;
  }

  /** A Filter lists, in order, every attribute filter that follows its subject. */
  lemma FilterAttributes(g: Base, s: string, i: nat)
    requires i <= |s|
    ensures Listed(Filter(g, s, i).value, "AttributeFilters") ==
            Run(AttributeItems(g, s), |s|, End(i, FilterHead(g, s, i)))
  {
    var h := FilterHead(g, s, i);
    FilterHeadStarts(g, s, i);
    AttributeLoopStores(g, s, i, h, End(i, h), AttributeItems(g, s));
    StoreAttributesAppends(h, Run(AttributeItems(g, s), |s|, End(i, h)));
  }

  /**
   * The `S ',' S` that opens a group item, read off the input from `j`: where
   * the item's Filter starts, if all three match.
   */
  function GroupSeparator(g: Base, s: string, j: nat): (r: Option<nat>)
    requires j <= |s|
    ensures r.Some? ==> j < r.value <= |s|
  {
    match g.s(s, j)
    case None => None
    case Some(w1) =>
      if !StartsWith(s, j + |w1.text|, ",") then None
      else
        match g.s(s, j + |w1.text| + 1)
        case None => None
        case Some(w2) => Some(j + |w1.text| + 1 + |w2.text|)
  }

  /** One group item read off the input from `j`: the Filter after its separator, and where it ends. */
  function GroupItemAt(g: Base, s: string, j: nat): (r: Option<(Match, nat)>)
    requires j <= |s|
    ensures r.Some? ==> j < r.value.1 <= |s|
  {
    match GroupSeparator(g, s, j)
    case None => None
    case Some(k) =>
      var f := Filter(g, s, k).value;
      Some((f, k + |f.text|))
  }

  /** GroupItemAt at every position of `s`. */
  function GroupItems(g: Base, s: string): (r: nat -> Option<(Match, nat)>)
    ensures Advances(r, |s|)
    ensures forall k: nat :: k <= |s| ==> r(k) == GroupItemAt(g, s, k)
  {
    (k: nat) => if k <= |s| then GroupItemAt(g, s, k) else None
  }

  /** `S` matched `w` where the node `m` (begun at `i0`) ends, so that `S` ends at `j1`. */
  predicate SpaceAt(g: Base, s: string, i0: nat, m: Match, w: Match, j1: nat) {
    Fits(s, i0, m) && g.s(s, End(i0, m)) == Some(w) && j1 == End(i0, m) + |w.text|
  }

  /** As `SpaceAt`, in a FilterGroup node, with a comma right after the whitespace. */
  predicate CommaAt(g: Base, s: string, i0: nat, m: Match, w1: Match, j1: nat) {
    m.rule == "FilterGroup" && SpaceAt(g, s, i0, m, w1, j1) && StartsWith(s, j1, ",")
  }

  /** The separator from `j` to `k` is `w1`, a comma and `w2`, the last two read by `S`. */
  predicate SeparatorParts(g: Base, s: string, j: nat, w1: Match, w2: Match, k: nat) {
    && g.s(s, j) == Some(w1) && StartsWith(s, j + |w1.text|, ",")
    && g.s(s, j + |w1.text| + 1) == Some(w2) && k == j + |w1.text| + 1 + |w2.text|
  }

  /** `S` matched `w` where the node ends: ThenS stores it untagged, and the node now ends at `j1`. */
  lemma ThenSStep(g: Base, s: string, i0: nat, m: Match, w: Match, j1: nat)
    requires SpaceAt(g, s, i0, m, w, j1)
    ensures ThenS(g, s, i0, m) == Some(Store(m, w, None))
    ensures End(i0, Store(m, w, None)) == j1
  {
  }

  /**
   * Once `S` and the comma of a group item matched, the item is what follows
   * the comma, in a node `m2` that ends after the comma and lists the same Filters.
   */
  lemma GroupItemStep(g: Base, s: string, i0: nat, m: Match, w1: Match, j1: nat) returns (m2: Match)
    requires CommaAt(g, s, i0, m, w1, j1)
    ensures m2.rule == "FilterGroup" && Fits(s, i0, m2) && End(i0, m2) == j1 + 1
    ensures Listed(m2, "Filters") == Listed(m, "Filters")
    ensures GroupItem(g, s, i0, m) == AfterComma(g, s, i0, m2)
  {
    ThenSStep(g, s, i0, m, w1, j1);
    m2 := AddText(Store(m, w1, None), ",");
  }

  /** The tail `S :Filter` of a group item appends the Filter that follows the whitespace. */
  lemma AfterCommaStores(g: Base, s: string, i0: nat, m: Match, w: Match, k: nat)
    requires m.rule == "FilterGroup" && SpaceAt(g, s, i0, m, w, k)
    ensures k <= |s|
    ensures AfterComma(g, s, i0, m).Some?
    ensures End(i0, AfterComma(g, s, i0, m).value) == k + |Filter(g, s, k).value.text|
    ensures Listed(AfterComma(g, s, i0, m).value, "Filters") == Listed(m, "Filters") + [Filter(g, s, k).value]
  {
    ThenSStep(g, s, i0, m, w, k);
    StoreGroupFilter(Store(m, w, None), Filter(g, s, k).value);
  }

  /** A group item whose separator is `w1`, a comma and `w2` stores the Filter that follows. */
  lemma GroupItemStores(g: Base, s: string, i0: nat, m: Match, w1: Match, w2: Match, k: nat)
    requires Fits(s, i0, m) && m.rule == "FilterGroup" && SeparatorParts(g, s, End(i0, m), w1, w2, k)
    ensures k <= |s|
    ensures GroupItem(g, s, i0, m).Some?
    ensures End(i0, GroupItem(g, s, i0, m).value) == k + |Filter(g, s, k).value.text|
    ensures Listed(GroupItem(g, s, i0, m).value, "Filters") == Listed(m, "Filters") + [Filter(g, s, k).value]
  {
    var j1 := End(i0, m) + |w1.text|;
    assert CommaAt(g, s, i0, m, w1, j1);
    var m2 := GroupItemStep(g, s, i0, m, w1, j1);
    assert g.s(s, End(i0, m2)) == Some(w2) && k == End(i0, m2) + |w2.text|;
    AfterCommaStores(g, s, i0, m2, w2, k);
  }

  /** Where `S` does not match where the node ends, the group item fails. */
  lemma GroupItemFailsEarly(g: Base, s: string, i0: nat, m: Match)
    requires Fits(s, i0, m) && m.rule == "FilterGroup" && g.s(s, End(i0, m)).None?
    ensures GroupItem(g, s, i0, m).None?
  {
  }

  /** Where no comma follows the first `S`, the group item fails. */
  lemma GroupItemFailsComma(g: Base, s: string, i0: nat, m: Match, w1: Match, j1: nat)
    requires m.rule == "FilterGroup" && SpaceAt(g, s, i0, m, w1, j1) && !StartsWith(s, j1, ",")
    ensures GroupItem(g, s, i0, m).None?
  {
    ThenSStep(g, s, i0, m, w1, j1);
  }

  /** Where `S` does not match after the comma, the group item fails. */
  lemma GroupItemFailsLate(g: Base, s: string, i0: nat, m: Match, w1: Match, j1: nat)
    requires CommaAt(g, s, i0, m, w1, j1) && g.s(s, j1 + 1).None?
    ensures GroupItem(g, s, i0, m).None?
  {
    var m2 := GroupItemStep(g, s, i0, m, w1, j1);
  }

  /** Where no separator can be read, the group item fails. */
  lemma GroupItemFails(g: Base, s: string, i0: nat, m: Match)
    requires Fits(s, i0, m) && m.rule == "FilterGroup" && GroupSeparator(g, s, End(i0, m)).None?
    ensures GroupItem(g, s, i0, m).None?
  {
    match g.s(s, End(i0, m))
    case None =>
      GroupItemFailsEarly(g, s, i0, m);
    case Some(w1) =>
      if StartsWith(s, End(i0, m) + |w1.text|, ",") {
        GroupItemFailsLate(g, s, i0, m, w1, End(i0, m) + |w1.text|);
      } else {
        GroupItemFailsComma(g, s, i0, m, w1, End(i0, m) + |w1.text|);
      }
  }

  /** The item read off the input after a separator ending at `k`. */
  lemma GroupItemAtSome(g: Base, s: string, j: nat, k: nat)
    requires j <= |s| && GroupSeparator(g, s, j) == Some(k)
    ensures k <= |s|
    ensures GroupItemAt(g, s, j).Some? && GroupItemAt(g, s, j).value.0 == Filter(g, s, k).value
    ensures GroupItemAt(g, s, j).value.1 == k + |Filter(g, s, k).value.text|
  {
  }

  /** What a separator ending at `k` is made of: `S`, the comma, and `S` again. */
  lemma GroupSeparatorParts(g: Base, s: string, j: nat, k: nat) returns (w1: Match, w2: Match)
    requires j <= |s| && GroupSeparator(g, s, j) == Some(k)
    ensures SeparatorParts(g, s, j, w1, w2, k)
  {
    w1 := g.s(s, j).value;
    w2 := g.s(s, j + |w1.text| + 1).value;
  }

  /**
   * A group item matches exactly when one can be read off the input where the
   * node ends; it then appends that item's Filter and ends where the item does.
   */
  lemma GroupItemAppends(g: Base, s: string, i0: nat, m: Match)
    requires Fits(s, i0, m) && m.rule == "FilterGroup"
    ensures GroupItem(g, s, i0, m).Some? <==> GroupItemAt(g, s, End(i0, m)).Some?
    ensures GroupItem(g, s, i0, m).Some? ==>
              && End(i0, GroupItem(g, s, i0, m).value) == GroupItemAt(g, s, End(i0, m)).value.1
              && Listed(GroupItem(g, s, i0, m).value, "Filters") ==
                 Listed(m, "Filters") + [GroupItemAt(g, s, End(i0, m)).value.0]
  {
    match GroupSeparator(g, s, End(i0, m))
    case None =>
      GroupItemFails(g, s, i0, m);
    case Some(k) =>
      var w1, w2 := GroupSeparatorParts(g, s, End(i0, m), k);
      GroupItemStores(g, s, i0, m, w1, w2, k);
      GroupItemAtSome(g, s, End(i0, m), k);
  }

  /** An iteration of the group loop that matches carries on from the item's result. */
  lemma GroupLoopUnfold(g: Base, s: string, i0: nat, m: Match, m1: Match)
    requires Fits(s, i0, m) && m.rule == "FilterGroup" && GroupItem(g, s, i0, m) == Some(m1)
    ensures GroupLoop(g, s, i0, m) == GroupLoop(g, s, i0, m1)
  {
  }

  /**
   * `( S ',' S :Filter )*` appends the filters in source order and stops at
   * the first item that fails, whose partial work is dropped.
   */
  lemma {:induction false} GroupLoopCollects(g: Base, s: string, i0: nat, m: Match, j: nat, next: nat -> Option<(Match, nat)>)
    requires Fits(s, i0, m) && m.rule == "FilterGroup" && j == End(i0, m)
    requires Advances(next, |s|) && forall k: nat :: k <= |s| ==> next(k) == GroupItemAt(g, s, k)
    ensures Listed(GroupLoop(g, s, i0, m), "Filters") == Listed(m, "Filters") + Run(next, |s|, j)
    decreases |s| - j
  {
    GroupItemAppends(g, s, i0, m);
    assert next(j) == GroupItemAt(g, s, j);
    if GroupItem(g, s, i0, m).None? {
      assert Run(next, |s|, j) == [];
      assert Listed(m, "Filters") + [] == Listed(m, "Filters");
    } else {
      var m1 := GroupItem(g, s, i0, m).value;
      var j1 := End(i0, m1);
      var f := GroupItemAt(g, s, j).value.0;
      assert next(j).Some? && next(j).value.0 == f && next(j).value.1 == j1;
      GroupLoopUnfold(g, s, i0, m, m1);
      GroupLoopCollects(g, s, i0, m1, j1, next);
      RunAppends(next, |s|, j, f, j1, Listed(m, "Filters"), Listed(m1, "Filters"), Listed(GroupLoop(g, s, i0, m1), "Filters"));
    }
  }

  /** A list that took `f` and then the run from where `f`'s item ends has taken the run from where it starts. */
  lemma RunAppends(next: nat -> Option<(Match, nat)>, n: nat, j: nat, f: Match, j1: nat,
                   prior: seq<Match>, mid: seq<Match>, last: seq<Match>)
    requires j <= n && Advances(next, n) && next(j).Some? && next(j).value.0 == f && next(j).value.1 == j1
    requires mid == prior + [f]
    requires j1 <= n && last == mid + Run(next, n, j1)
    ensures last == prior + Run(next, n, j)
  {
    RunUnfold(next, n, j, f, j1);
    assert prior + [f] + Run(next, n, j1) == prior + ([f] + Run(next, n, j1));
  }

  /** A FilterGroup lists its first Filter, then the filter of every group item that follows, in order. */
  lemma FilterGroupFilters(g: Base, s: string, i: nat)
    requires i <= |s|
    ensures var f := Filter(g, s, i).value;
            Listed(FilterGroup(g, s, i).value, "Filters") == [f] + Run(GroupItems(g, s), |s|, End(i, f))
  {
    var f := Filter(g, s, i).value;
    var m := FilterGroupHead(g, s, i);
    GroupLoopCollects(g, s, i, m, End(i, m), GroupItems(g, s));
  }

  /** The FilterGroup node after its first Filter lists just that Filter, and the item loop finishes it. */
  lemma FilterGroupHead(g: Base, s: string, i: nat) returns (m: Match)
    requires i <= |s|
    ensures Fits(s, i, m) && m.rule == "FilterGroup" && End(i, m) == End(i, Filter(g, s, i).value)
    ensures Listed(m, "Filters") == [Filter(g, s, i).value]
    ensures FilterGroup(g, s, i).value == GroupLoop(g, s, i, m)
  {
    var f := Filter(g, s, i).value;
    m := Store(Start("FilterGroup"), f, Some("Filter"));
    StoreGroupFilter(Start("FilterGroup"), f);
    assert Finalise(GroupLoop(g, s, i, m)) == GroupLoop(g, s, i, m);
  }

  // ---------------------------------------------------------------------------------------------
  // The `AttributeFilters` loop under `ConservativePackrat` as written.

  /**
   * Up to `n` passes of the loop that collects `AttributeFilter` items, each a rule call
   * through the Conservative tables as written. A FALSE answer ends the loop at the cursor
   * it started the pass at; any other answer starts the next pass where the call left the
   * cursor. Answers whether the loop is still running after the passes, and where.
   *
   * The matcher's own outcome is the grammar's `AttributeFilter`. As written, the inner
   * `S`, `PropertyPath` and operand calls of `match_AttributeFilter` would also answer
   * positions, so this is exact only where `match_AttributeFilter` fails at its `[`
   * literal, before it makes any rule call; that is the only case the lemmas below use.
   */
  function FilterLoopAsWritten(g: Base, s: string, pos: nat, packres: map<string, Peg.PhpValue>,
                               packpos: map<string, int>, n: nat): (bool, int)
    requires pos <= |s|
    decreases n
  {
    if n == 0 then (true, pos)
    else
      var outcome := AttributeFilter(g, s, pos);
      var after := if outcome.Some? then End(pos, outcome.value) else pos;
      var step := Peg.ConservativeCallAsWritten(packres, packpos, "match_AttributeFilter", pos, after, outcome);
      if step.answer == Peg.PhpFalse then (false, pos)
      else if 0 <= step.cursor <= |s| then FilterLoopAsWritten(g, s, step.cursor, step.packres, step.packpos, n - 1)
      else (true, step.cursor)
  }

  /**
   * Where no `[` follows the cursor, `AttributeFilter` fails without moving it, yet the
   * call answers the position, so the loop stores that and goes round again at the same
   * cursor: after any number of passes it is still running where it started.
   */
  lemma {:induction false} ConservativeFilterLoopNeverEnds(g: Base, s: string, pos: nat,
                                                           packres: map<string, Peg.PhpValue>,
                                                           packpos: map<string, int>, n: nat)
    requires pos <= |s| && !StartsWith(s, pos, "[") && Peg.NullOnly(packres)
    ensures FilterLoopAsWritten(g, s, pos, packres, packpos, n) == (true, pos)
    decreases n
  {
    if n > 0 {
      var step := Peg.ConservativeCallAsWritten(packres, packpos, "match_AttributeFilter", pos, pos, None);
      Peg.ConservativeFailureReadsAsSuccess(packres, packpos, "match_AttributeFilter", pos, pos, None);
      ConservativeFilterLoopNeverEnds(g, s, pos, step.packres, step.packpos, n - 1);
    }
  }

  /** Where a generated matcher left the cursor, and what it returned. */
  datatype MatcherExit = MatcherExit(outcome: Option<Match>, after: nat)

  /**
   * What the generated `match_PathFilter` guarantees, however its inner `Identifier` calls
   * answer: both alternatives need a `/` literal to succeed, and a failure puts the cursor
   * back where the rule started.
   */
  predicate PathFilterExit(s: string, pos: nat, e: MatcherExit) {
    && e.after <= |s|
    && (e.outcome.None? ==> e.after == pos)
    && ((forall k :: pos <= k < |s| ==> s[k] != '/') ==> e.outcome.None?)
  }

  /**
   * The optional subject choice of `match_Filter` as written: the PathFilter,
   * IdentifierFilter and PropertyNameFilter calls in that order, each through the
   * Conservative tables as written and each starting at `pos` once a failed one is undone.
   * The first answer that is not FALSE is taken where its call left the cursor; when all
   * three are FALSE the cursor goes back to `pos`.
   */
  function SubjectAsWritten(packres: map<string, Peg.PhpValue>, packpos: map<string, int>, pos: nat,
                            path: MatcherExit, ident: MatcherExit, name: MatcherExit): Peg.ConservativeStep
  {
    var p := Peg.ConservativeCallAsWritten(packres, packpos, "match_PathFilter", pos, path.after, path.outcome);
    if p.answer != Peg.PhpFalse then p
    else
      var d := Peg.ConservativeCallAsWritten(p.packres, p.packpos, "match_IdentifierFilter", pos, ident.after, ident.outcome);
      if d.answer != Peg.PhpFalse then d
      else
        var q := Peg.ConservativeCallAsWritten(d.packres, d.packpos, "match_PropertyNameFilter", pos, name.after, name.outcome);
        if q.answer != Peg.PhpFalse then q
        else Peg.ConservativeStep(Peg.PhpFalse, q.packres, q.packpos, pos)
  }

  /**
   * `match_Filter` as written under `ConservativePackrat`, from tables `packres` / `packpos`:
   * the subject choice, then up to `n` passes of the `AttributeFilters` loop from where the
   * subject left the cursor. Answers whether the loop is still running, and where.
   */
  function FilterAsWritten(g: Base, s: string, pos: nat, packres: map<string, Peg.PhpValue>,
                           packpos: map<string, int>, path: MatcherExit, ident: MatcherExit,
                           name: MatcherExit, n: nat): (bool, int)
    requires pos <= |s|
  {
    var subject := SubjectAsWritten(packres, packpos, pos, path, ident, name);
    if 0 <= subject.cursor <= |s| then FilterLoopAsWritten(g, s, subject.cursor, subject.packres, subject.packpos, n)
    else (true, subject.cursor)
  }

  /**
   * From NULL-only tables, where no `/` follows `pos` and no `[` is at it, `match_Filter`
   * as written never ends: the failed PathFilter call answers `pos`, which is not FALSE,
   * so the subject choice takes it with the cursor back at `pos`, and the
   * `AttributeFilters` loop then goes round at `pos` for ever.
   */
  lemma ConservativeFilterNeverEnds(g: Base, s: string, pos: nat, packres: map<string, Peg.PhpValue>,
                                    packpos: map<string, int>, path: MatcherExit, ident: MatcherExit,
                                    name: MatcherExit, n: nat)
    requires pos <= |s| && Peg.NullOnly(packres)
    requires (forall k :: pos <= k < |s| ==> s[k] != '/') && !StartsWith(s, pos, "[")
    requires PathFilterExit(s, pos, path)
    ensures SubjectAsWritten(packres, packpos, pos, path, ident, name).answer == Peg.PhpInt(pos)
    ensures FilterAsWritten(g, s, pos, packres, packpos, path, ident, name, n) == (true, pos)
  {
    Peg.ConservativeFailureReadsAsSuccess(packres, packpos, "match_PathFilter", pos, path.after, path.outcome);
    var p := Peg.ConservativeCallAsWritten(packres, packpos, "match_PathFilter", pos, path.after, path.outcome);
    ConservativeFilterLoopNeverEnds(g, s, pos, p.packres, p.packpos, n);
  }

  /**
   * On the selector `a`, `match_Filter` as written never ends: the failed PathFilter call
   * also reads as a success, so the loop goes round at position 0, before the identifier.
   */
  lemma ConservativeStallsAtStart(g: Base, path: MatcherExit, ident: MatcherExit, name: MatcherExit, n: nat)
    requires PathFilterExit("a", 0, path)
    ensures FilterAsWritten(g, "a", 0, map[], map[], path, ident, name, n) == (true, 0)
  {
    assert "a"[0..1][0] == 'a';
    ConservativeFilterNeverEnds(g, "a", 0, map[], map[], path, ident, name, n);
  }
}
