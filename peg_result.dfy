/**
 * The result builder of the runtime: a match node is the associative array
 * `['_matchrule' => ..., 'name' => ..., 'text' => ...] + fields` that
 * `construct` creates, `store` extends with each sub-match and `finalise`
 * seals. Field values are the PHP values the grammar hooks put there.
 */
module PegResult {
  import opened Wrappers

  datatype Value =
    | Null                      // PHP NULL (what `isset` treats as absent)
    | Str(str: string)
    | Flag(flag: bool)
    | IntVal(intLexeme: string)  // `(integer)$text`, kept as its lexeme
    | FloatVal(floatLexeme: string)  // `(float)$text`, kept as its lexeme
    | Node(node: Match)
    | Nodes(nodes: seq<Match>)

  datatype Match = Match(rule: string, name: string, text: string, fields: map<string, Value>)

  /** The match's text is exactly the input slice that starts at `i`. */
  predicate Spans(s: string, i: nat, m: Match) {
    i + |m.text| <= |s| && s[i..i + |m.text|] == m.text
  }

  /** Where a match that started at `i` leaves the cursor. */
  function End(i: nat, m: Match): nat {
    i + |m.text|
  }

  /** Two adjacent spans join into one. */
  lemma SpanJoin(s: string, i: nat, a: string, b: string)
    requires i + |a| + |b| <= |s|
    requires s[i..i + |a|] == a && s[i + |a|..i + |a| + |b|] == b
    ensures s[i..i + |a + b|] == a + b
  {
    assert s[i..i + |a| + |b|] == s[i..i + |a|] + s[i + |a|..i + |a| + |b|];
  }

  /** `isset($result[$key])`: present and not NULL. */
  predicate IsSet(m: Match, key: string) {
    key in m.fields && !m.fields[key].Null?
  }

  /** The value at `key`, NULL when absent (PHP reads an undefined index as NULL). */
  function Get(m: Match, key: string): (v: Value)
    ensures key in m.fields ==> v == m.fields[key]
    ensures key !in m.fields ==> v == Null
  {
    if key in m.fields then m.fields[key] else Null
  }

  /** `construct` without a hook: a node with empty text and no fields. */
  function NewResult(rule: string, name: string): (m: Match)
    ensures m.rule == rule && m.name == name && m.text == "" && m.fields == map[]
  {
    Match(rule, name, "", map[])
  }

  /** `$result["text"] .= $t`, which every consumed terminal does. */
  function AddText(m: Match, t: string): (r: Match)
    ensures r.text == m.text + t
    ensures r.rule == m.rule && r.name == m.name && r.fields == m.fields
  {
    m.(text := m.text + t)
  }

  /** A tagged field can take one more sub-match: unset, a single node, or a list. */
  predicate Storable(m: Match, tag: string) {
    !IsSet(m, tag) || m.fields[tag].Node? || m.fields[tag].Nodes?
  }

  /**
   * The default placement of `store` for a tag without a hook: the first
   * sub-match is put there as it is, the second promotes the field to the
   * list [first, second], later ones are appended.
   */
  function Place(m: Match, tag: string, sub: Match): (r: Match)
    requires Storable(m, tag)
    ensures r.rule == m.rule && r.name == m.name && r.text == m.text
    ensures tag in r.fields && r.fields.Keys == m.fields.Keys + {tag}
    ensures forall k :: k in m.fields && k != tag ==> r.fields[k] == m.fields[k]
    ensures !IsSet(m, tag) ==> r.fields[tag] == Node(sub)
    ensures IsSet(m, tag) && m.fields[tag].Node? ==> r.fields[tag] == Nodes([m.fields[tag].node, sub])
    ensures IsSet(m, tag) && m.fields[tag].Nodes? ==> r.fields[tag] == Nodes(m.fields[tag].nodes + [sub])
  {
    if !IsSet(m, tag) then m.(fields := m.fields[tag := Node(sub)])
    else match m.fields[tag]
      case Node(first) => m.(fields := m.fields[tag := Nodes([first, sub])])
      case Nodes(xs) => m.(fields := m.fields[tag := Nodes(xs + [sub])])
  }

  /**
   * `store($result, $subres, $storetag)` when no hook of the grammar handles
   * the sub-match: the sub-match's text is always appended; with a tag the
   * sub-match is placed, without one nothing else happens.
   */
  function StoreDefault(m: Match, sub: Match, tag: Option<string>): (r: Match)
    requires tag.Some? ==> Storable(m, tag.value)
    ensures r.text == m.text + sub.text
    ensures r.rule == m.rule && r.name == m.name
    ensures tag.None? ==> r.fields == m.fields
    ensures m.fields.Keys <= r.fields.Keys
  {
    var t := AddText(m, sub.text);
    if tag.Some? then Place(t, tag.value, sub) else t
  }

  /** The value a tagged field holds after the sub-matches `subs` were stored under it, in order. */
  function Collected(subs: seq<Match>): Value
    requires |subs| > 0
  {
    if |subs| == 1 then Node(subs[0]) else Nodes(subs)
  }

  /** Stores every sub-match of `subs` in turn, as a rule's repetition loop does. */
  function StoreAll(m: Match, subs: seq<Match>, tag: string): (r: Match)
    requires Storable(m, tag)
    ensures Storable(r, tag)
    ensures m.fields.Keys <= r.fields.Keys
    ensures subs != [] ==> tag in r.fields
    decreases |subs|
  {
    if subs == [] then m
    else
      var m' := StoreDefault(m, subs[0], Some(tag));
      StoreAll(m', subs[1..], tag)
  }

  function ConcatText(subs: seq<Match>): string {
    if subs == [] then "" else subs[0].text + ConcatText(subs[1..])
  }

  /**
   * Repeated stores under one tag keep every sub-match, in order: one store
   * leaves the node itself, two or more a list of all of them; the parent's
   * text grows by the sub-matches' texts and no other field changes.
   */
  lemma {:induction false} StoreAllCollects(m: Match, subs: seq<Match>, tag: string)
    requires !IsSet(m, tag)
    requires |subs| > 0
    ensures StoreAll(m, subs, tag).fields[tag] == Collected(subs)
    ensures StoreAll(m, subs, tag).text == m.text + ConcatText(subs)
    ensures forall k :: k in m.fields && k != tag ==> StoreAll(m, subs, tag).fields[k] == m.fields[k]
  {
    var m1 := StoreDefault(m, subs[0], Some(tag));
    assert m1.fields[tag] == Node(subs[0]);
    if |subs| == 1 {
      assert subs[1..] == [];
      assert ConcatText(subs) == subs[0].text + ConcatText([]);
    } else {
      StoreAllAppends(m1, subs[1..], tag, [subs[0]]);
      assert [subs[0]] + subs[1..] == subs;
    }
  }

  /** Once the field is a node or a list, each further store appends to it. */
  lemma {:induction false} StoreAllAppends(m: Match, subs: seq<Match>, tag: string, prior: seq<Match>)
    requires |prior| > 0 && IsSet(m, tag) && m.fields[tag] == Collected(prior)
    ensures StoreAll(m, subs, tag).fields[tag] == Collected(prior + subs)
    ensures StoreAll(m, subs, tag).text == m.text + ConcatText(subs)
    ensures forall k :: k in m.fields && k != tag ==> StoreAll(m, subs, tag).fields[k] == m.fields[k]
    decreases |subs|
  {
    if subs == [] {
      assert prior + subs == prior;
    } else {
      var m1 := StoreDefault(m, subs[0], Some(tag));
      assert m1.fields[tag] == Collected(prior + [subs[0]]);
      StoreAllAppends(m1, subs[1..], tag, prior + [subs[0]]);
      assert StoreAll(m, subs, tag) == StoreAll(m1, subs[1..], tag);
      assert ConcatText(subs) == subs[0].text + ConcatText(subs[1..]);
      assert prior + [subs[0]] + subs[1..] == prior + subs;
    }
  }
}
