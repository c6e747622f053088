/**
 * The packrat PEG runtime: the cursor over an immutable input, the terminal
 * matchers (`literal`, `whitespace`, the cached regular-expression search
 * of `ParserRegexp`) and the memo strategies behind `packhas` / `packread` /
 * `packwrite`.
 *
 * The four parser classes of the runtime (`Parser`, `Packrat`,
 * `FalseOnlyPackrat`, `ConservativePackrat`) differ only in their memo
 * methods; here one `Parser` carries the strategy as a constant and the
 * state of every strategy as fields. `meaning` is the grammar's reference
 * semantics, the outcome a fresh match of a rule key at a position has: the
 * memo tables are proved to hold only outcomes that agree with it.
 */
module Peg {
  import opened Wrappers
  import opened Chars
  import opened PegResult
  import opened Packing

  datatype Strategy = NoMemo | Full | FalseOnly | Conservative

  /** A value of `ConservativePackrat::$packres`: NULL, FALSE or a result. */
  datatype MemoEntry = NullEntry | FalseEntry | Entry(result: Match)

  function EntryOf(res: Option<Match>): MemoEntry {
    match res
    case None => FalseEntry
    case Some(m) => Entry(m)
  }

  /** The outcome of a match that succeeded at `i` consumed exactly its text. */
  predicate Consumes(s: string, i: nat, r: Option<Match>) {
    r.Some? ==> Spans(s, i, r.value)
  }

  /** A grammar meaning is sound for `s` when every success it predicts consumes its text. */
  ghost predicate SoundMeaning(s: string, meaning: (string, nat) -> Option<Match>) {
    forall key, i: nat {:trigger meaning(key, i)} :: i <= |s| ==> Consumes(s, i, meaning(key, i))
  }

  /** The slot `Packrat` should hold for `key` at `i`, given what has been written. */
  ghost function ExpectedCell(meaning: (string, nat) -> Option<Match>, written: set<(string, nat)>,
                              key: string, i: nat): Cell
  {
    if (key, i) !in written then Unset
    else match meaning(key, i)
      case None => Fail
      case Some(m) => EndAt(i + |m.text|)
  }

  /** `Packrat`'s rows and results agree with the grammar meaning on every written (key, position). */
  ghost predicate FullTableOk(s: string, meaning: (string, nat) -> Option<Match>, packstate: map<string, seq<byte>>,
                              packres: map<(string, nat), Match>, written: set<(string, nat)>)
  {
    && (forall key :: key in packstate ==> |packstate[key]| == 3 * (|s| + 1))
    && (forall key, i: nat {:trigger CellOf(packstate[key], i)} :: key in packstate && i <= |s| ==>
          CellOf(packstate[key], i) == ExpectedCell(meaning, written, key, i))
    && (forall key, i: nat :: (key, i) in written ==> key in packstate)
    && (forall key, i: nat :: (key, i) in written && meaning(key, i).Some? ==>
          (key, 3 * i) in packres && packres[(key, 3 * i)] == meaning(key, i).value)
  }

  /** `FalseOnlyPackrat`'s rows mark exactly the written failures. */
  ghost predicate FalseTableOk(s: string, meaning: (string, nat) -> Option<Match>,
                               falseState: map<string, seq<char>>, written: set<(string, nat)>)
  {
    && (forall key :: key in falseState ==> |falseState[key]| == |s| + 1)
    && (forall key, i: nat {:trigger falseState[key][i]} :: key in falseState && i <= |s| ==>
          (falseState[key][i] == 'F' <==> (key, i) in written && meaning(key, i).None?))
    && (forall key, i: nat :: (key, i) in written && meaning(key, i).None? ==> key in falseState)
  }

  /** Writing the outcome of `key` at `i` into `Packrat`'s tables keeps them in agreement. */
  lemma FullWriteOk(s: string, meaning: (string, nat) -> Option<Match>, packstate: map<string, seq<byte>>,
                    packres: map<(string, nat), Match>, written: set<(string, nat)>, key: string, i: nat,
                    row: seq<byte>, row': seq<byte>, packres': map<(string, nat), Match>)
    requires FullTableOk(s, meaning, packstate, packres, written)
    requires |s| <= MaxLength && i <= |s| && Consumes(s, i, meaning(key, i))
    requires row == if key in packstate then packstate[key] else FreshRow(|s|)
    requires row' == if meaning(key, i).Some? then WriteEnd(row, i, i + |meaning(key, i).value.text|)
                     else WriteFail(row, i)
    requires packres' == if meaning(key, i).Some? then packres[(key, 3 * i) := meaning(key, i).value] else packres
    ensures FullTableOk(s, meaning, packstate[key := row'], packres', written + {(key, i)})
  {
    assert |row| == 3 * (|s| + 1);
    assert forall j: nat :: j <= |s| ==> CellOf(row, j) == ExpectedCell(meaning, written, key, j);
  }

  /** Marking a failure of `key` at `i` in `FalseOnlyPackrat`'s table keeps it in agreement. */
  lemma FalseWriteOk(s: string, meaning: (string, nat) -> Option<Match>, falseState: map<string, seq<char>>,
                     written: set<(string, nat)>, key: string, i: nat)
    requires FalseTableOk(s, meaning, falseState, written)
    requires i <= |s|
    ensures var row := if key in falseState then falseState[key] else seq(|s| + 1, _ => '.');
            var row' := if meaning(key, i).None? then row[i := 'F'] else row;
            FalseTableOk(s, meaning, falseState[key := row'], written + {(key, i)})
  {
  }

  class ParserRegexp {
    const parser: Parser
    const rx: Pattern
    var matches: string        // `$this->matches[0][0]`
    var matchPos: Option<nat>  // None is NULL
    var checkPos: Option<nat>  // None is NULL

    /** The cache holds the leftmost search from `checkPos`; nothing is cached before the first search. */
    ghost predicate Valid()
      reads this
    {
      && (checkPos.None? ==> matchPos.None?)
      && (checkPos.Some? ==>
            && checkPos.value <= |parser.input|
            && matchPos == Search(rx, parser.input, checkPos.value)
            && (matchPos.Some? ==> matches == MatchText(rx, parser.input, matchPos.value)))
    }

    constructor (parser: Parser, rx: Pattern)
      ensures Valid() && this.parser == parser && this.rx == rx
      ensures checkPos.None? && matchPos.None?
    {
      this.parser := parser;
      this.rx := rx;
      matches := "";
      matchPos := None;
      checkPos := None;
    }

    /**
     * `ParserRegexp::match`: succeeds only when the leftmost match from the
     * cursor starts at the cursor, then advances the cursor by the matched
     * length; the search is re-run only when the cached one is stale.
     */
    method Match() returns (r: Option<string>)
      requires Valid() && parser.pos <= |parser.input|
      modifies this, parser`pos
      ensures Valid()
      ensures r == MatchAt(rx, parser.input, old(parser.pos))
      ensures parser.pos == if r.Some? then old(parser.pos) + |r.value| else old(parser.pos)
    {
      var current := parser.pos;
      var dirty := checkPos.None? || checkPos.value > current || (matchPos.Some? && matchPos.value < current);
      if dirty {
        checkPos := Some(current);
        matchPos := Search(rx, parser.input, current);
        if matchPos.Some? {
          matches := MatchText(rx, parser.input, matchPos.value);
        }
      } else {
        SearchStable(rx, parser.input, checkPos.value, current);
      }
      if matchPos == Some(current) {
        parser.pos := parser.pos + |matches|;
        r := Some(matches);
      } else {
        r := None;
      }
    }
  }

  class Parser {
    const input: string
    var pos: nat
    var regexps: map<Pattern, ParserRegexp>
    ghost var Repr: set<object>

    const strategy: Strategy
    ghost const meaning: (string, nat) -> Option<Match>

    // Packrat: one row of three-byte slots per key, and the results by "$key:$pos" (pos tripled).
    var packstate: map<string, seq<byte>>
    var packres: map<(string, nat), Match>
    // FalseOnlyPackrat: one row of '.' / 'F' per key.
    var falseState: map<string, seq<char>>
    // ConservativePackrat: results and end positions per key.
    var conservativeRes: map<string, MemoEntry>
    var conservativePos: map<string, nat>

    /** Every (key, position) `packwrite` has been called with. */
    ghost var written: set<(string, nat)>

    /** What the strategy's tables know about `key` at `i`. */
    ghost predicate Remembered(key: string, i: nat)
      reads this
    {
      match strategy
      case Full => (key, i) in written
      case FalseOnly => (key, i) in written && meaning(key, i).None?
      case _ => false
    }

    /** The memo invariant: whatever a strategy remembers is what a fresh match would produce. */
    ghost predicate MemoValid()
      reads this
    {
      && SoundMeaning(input, meaning)
      && (forall kp :: kp in written ==> kp.1 <= |input|)
      && (strategy == Full ==> |input| <= MaxLength && FullTableOk(input, meaning, packstate, packres, written))
      && (strategy == FalseOnly ==> FalseTableOk(input, meaning, falseState, written))
      && (strategy == Conservative ==> forall key :: key in conservativeRes ==> conservativeRes[key] == NullEntry)
    }

    ghost predicate Valid()
      reads this, Repr
    {
      && this in Repr
      && pos <= |input|
      && MemoValid()
      && (forall pat :: pat in regexps ==>
            && regexps[pat] in Repr
            && regexps[pat].parser == this && regexps[pat].rx == pat && regexps[pat].Valid())
    }

    /**
     * `new Parser($string)` and its subclasses. `Packrat` refuses inputs
     * longer than `MaxLength` (a fatal `user_error`), so that every position
     * fits the three-byte slots.
     */
    constructor (input: string, strategy: Strategy, ghost meaning: (string, nat) -> Option<Match>)
      requires SoundMeaning(input, meaning)
      requires strategy == Full ==> |input| <= MaxLength
      ensures Valid() && fresh(Repr)
      ensures this.input == input && this.strategy == strategy && this.meaning == meaning
      ensures pos == 0 && written == {}
    {
      this.input := input;
      this.strategy := strategy;
      this.meaning := meaning;
      pos := 0;
      regexps := map[];
      packstate := map[];
      packres := map[];
      falseState := map[];
      conservativeRes := map[];
      conservativePos := map[];
      written := {};
      Repr := {this};
    }

    /** `literal($token)`: consumes `token` when the input continues with it, else FALSE and no move. */
    method Literal(token: string) returns (r: Option<string>)
      requires Valid()
      modifies this`pos
      ensures Valid()
      ensures r.Some? <==> old(pos) + |token| <= |input| && input[old(pos)..old(pos) + |token|] == token
      ensures r.Some? ==> r.value == token && pos == old(pos) + |token|
      ensures r.None? ==> pos == old(pos)
    {
      var toklen := |token|;
      var sub := if pos + toklen <= |input| then input[pos..pos + toklen] else input[pos..];
      if sub == token {
        pos := pos + toklen;
        r := Some(token);
      } else {
        r := None;
      }
    }

    /** `$this->pos = $p`: the generated rules move the cursor directly when they restore a snapshot. */
    method Seek(to: nat)
      requires Valid() && to <= |input|
      modifies this`pos
      ensures Valid() && pos == to
    {
      pos := to;
    }

    /** `whitespace()`: skips a run of blanks and tabs at the cursor, answering a single " ". */
    method Whitespace() returns (r: Option<string>)
      requires Valid()
      modifies this`pos
      ensures Valid()
      ensures r.Some? <==> old(pos) < |input| && (input[old(pos)] == ' ' || input[old(pos)] == '\t')
      ensures r.Some? ==> r.value == " " && pos == RunEnd(BlankPattern, input, old(pos))
      ensures r.None? ==> pos == old(pos)
    {
      var found := Search(BlankPattern, input, pos);
      if found.Some? && found.value == pos {
        pos := pos + |MatchText(BlankPattern, input, found.value)|;
        r := Some(" ");
      } else {
        r := None;
      }
    }

    /** The memo fields together, to say that a step leaves them alone. */
    ghost function MemoState(): (map<string, seq<byte>>, map<(string, nat), Match>, map<string, seq<char>>,
                                 map<string, MemoEntry>, map<string, nat>, set<(string, nat)>)
      reads this
    {
      (packstate, packres, falseState, conservativeRes, conservativePos, written)
    }

    /** `rx($rx)`: the cached matcher for the pattern, created on first use. */
    method Rx(pat: Pattern) returns (r: Option<string>)
      requires Valid()
      modifies Repr
      ensures Valid() && fresh(Repr - old(Repr))
      ensures r == MatchAt(pat, input, old(pos))
      ensures pos == if r.Some? then old(pos) + |r.value| else old(pos)
      ensures MemoState() == old(MemoState())
    {
      if pat !in regexps {
        var re := new ParserRegexp(this, pat);
        regexps := regexps[pat := re];
        Repr := Repr + {re};
      }
      var re := regexps[pat];
      r := re.Match();
    }

    /** `packhas($key, $pos)`. */
    function PackHas(key: string, i: nat): (r: bool)
      requires MemoValid() && i <= |input|
      reads this
      ensures r <==> Remembered(key, i)
    {
      match strategy
      case NoMemo => false
      case Full =>
        key in packstate &&
        (assert CellOf(packstate[key], i) == ExpectedCell(meaning, written, key, i);
         packstate[key][3 * i] != Unknown)
      case FalseOnly =>
        key in falseState && falseState[key][i] == 'F'
      case Conservative =>
        key in conservativeRes && conservativeRes[key] != NullEntry
    }

    /**
     * `packread($key, $pos)`: the remembered outcome; a success also moves
     * the cursor to where that match ended.
     */
    method PackRead(key: string, i: nat) returns (r: Option<Match>)
      requires Valid() && i <= |input| && PackHas(key, i)
      modifies this`pos
      ensures Valid()
      ensures r == meaning(key, i)
      ensures pos == if r.Some? then i + |r.value.text| else old(pos)
    {
      match strategy {
        case Full =>
          var row := packstate[key];
          assert CellOf(row, i) == ExpectedCell(meaning, written, key, i);
          if row[3 * i] == Failed {
            r := None;
          } else {
            pos := Decode(row[3 * i], row[3 * i + 1], row[3 * i + 2]);
            r := Some(packres[(key, 3 * i)]);
          }
        case FalseOnly =>
          r := None;
        case NoMemo =>
          assert false;
        case Conservative =>
          assert false;
      }
    }

    /**
     * `packwrite($key, $pos, $res)`: records the outcome (for the strategies
     * that record it) and passes `res` through unchanged.
     */
    method PackWrite(key: string, i: nat, res: Option<Match>) returns (r: Option<Match>)
      requires Valid() && i <= |input|
      requires res == meaning(key, i)
      requires res.Some? ==> pos == i + |res.value.text|
      modifies this`packstate, this`packres, this`falseState, this`conservativeRes, this`conservativePos, this`written
      ensures Valid() && Repr == old(Repr) && regexps == old(regexps)
      ensures r == res && pos == old(pos)
      ensures written == old(written) + {(key, i)}
      ensures strategy == Full ==> PackHas(key, i)
      ensures strategy == FalseOnly ==> (PackHas(key, i) <==> res.None?)
      ensures strategy == Conservative ==> conservativeRes == old(conservativeRes)[key := NullEntry]
      ensures strategy == NoMemo ==> MemoState().0 == old(MemoState().0) && falseState == old(falseState)
    {
      match strategy {
        case NoMemo =>
          written := written + {(key, i)};
        case Full =>
          WriteFull(key, i, res);
        case FalseOnly =>
          WriteFalseOnly(key, i, res);
        case Conservative =>
          WriteConservative(key, i, res);
      }
      r := res;
    }
    /**
     * The first half of a rule call, `packhas($key, $pos) ? packread($key, $pos) : ...`:
     * on a hit, the remembered outcome with the cursor after it.
     */
    method Recall(key: string) returns (hit: bool, r: Option<Match>)
      requires Valid()
      modifies this`pos
      ensures Valid()
      ensures hit ==> r == meaning(key, old(pos)) && (r.Some? ==> pos == old(pos) + |r.value.text|)
      ensures !hit ==> pos == old(pos)
    {
      hit := PackHas(key, pos);
      if hit {
        r := PackRead(key, pos);
      } else {
        r := None;
      }
    }

    /** The second half of a rule call, `... : packwrite($key, $pos, $this->$matcher(...))`. */
    method Memoise(key: string, i: nat, res: Option<Match>) returns (r: Option<Match>)
      requires Valid() && i <= |input|
      requires res == meaning(key, i)
      requires res.Some? ==> pos == i + |res.value.text|
      modifies this
      ensures Valid() && Repr == old(Repr)
      ensures r == res && pos == old(pos)
    {
      r := PackWrite(key, i, res);
    }

    /** `Packrat::packwrite`: the end position (or the failure sentinel) goes into the key's row. */
    method WriteFull(key: string, i: nat, res: Option<Match>)
      requires Valid() && strategy == Full && i <= |input|
      requires res == meaning(key, i)
      requires res.Some? ==> pos == i + |res.value.text|
      modifies this`packstate, this`packres, this`written
      ensures Valid() && Repr == old(Repr) && regexps == old(regexps) && pos == old(pos)
      ensures written == old(written) + {(key, i)}
    {
      var row := if key in packstate then packstate[key] else FreshRow(|input|);
      var row' := if res.Some? then WriteEnd(row, i, pos) else WriteFail(row, i);
      var packres' := if res.Some? then packres[(key, 3 * i) := res.value] else packres;
      FullWriteOk(input, meaning, packstate, packres, written, key, i, row, row', packres');
      packstate := packstate[key := row'];
      packres := packres';
      written := written + {(key, i)};
    }

    /** `FalseOnlyPackrat::packwrite`: only a FALSE outcome marks the key's row. */
    method WriteFalseOnly(key: string, i: nat, res: Option<Match>)
      requires Valid() && strategy == FalseOnly && i <= |input|
      requires res == meaning(key, i)
      modifies this`falseState, this`written
      ensures Valid() && Repr == old(Repr) && regexps == old(regexps) && pos == old(pos)
      ensures written == old(written) + {(key, i)}
      ensures res.Some? && key in old(falseState) ==> falseState == old(falseState)
    {
      FalseWriteOk(input, meaning, falseState, written, key, i);
      var row := if key in falseState then falseState[key] else seq(|input| + 1, _ => '.');
      if res.None? {
        row := row[i := 'F'];
      }
      falseState := falseState[key := row];
      written := written + {(key, i)};
    }

    /**
     * `ConservativePackrat::packwrite`: a result would be kept only for a key
     * whose entry is already set, but the first write stores NULL and
     * `isset` treats NULL as unset, so every write stores NULL again.
     */
    method WriteConservative(key: string, i: nat, res: Option<Match>)
      requires Valid() && strategy == Conservative && i <= |input|
      modifies this`conservativeRes, this`conservativePos, this`written
      ensures Valid() && Repr == old(Repr) && regexps == old(regexps) && pos == old(pos)
      ensures written == old(written) + {(key, i)}
      ensures conservativeRes == old(conservativeRes)[key := NullEntry]
    {
      var isSet := key in conservativeRes && conservativeRes[key] != NullEntry;
      conservativeRes := conservativeRes[key := if isSet then EntryOf(res) else NullEntry];
      conservativePos := if isSet then conservativePos[key := pos] else conservativePos;
      written := written + {(key, i)};
    }
  }

  // ---------------------------------------------------------------------------------------------
  // `ConservativePackrat` as written. Its `packwrite` declares its parameters as
  // `($key, $res, $thirdArgument)`, while every rule call passes `($key, $pos, $res)`,
  // so the start position lands in `$res` and is what the call answers.

  /** The PHP values that reach the Conservative tables: a position, FALSE, NULL or a node. */
  datatype PhpValue = PhpInt(n: int) | PhpFalse | PhpNull | PhpNode(node: Match)

  /** A rule's outcome as PHP sees it: the node, or FALSE. */
  function OutcomeValue(res: Option<Match>): (v: PhpValue)
    ensures v == PhpFalse <==> res.None?
  {
    match res
    case Some(m) => PhpNode(m)
    case None => PhpFalse
  }

  /** `isset($this->packres[$key])`: PHP's `isset` is false for an entry holding NULL. */
  predicate ConservativeIsSet(packres: map<string, PhpValue>, key: string) {
    key in packres && packres[key] != PhpNull
  }

  /** Every entry of the Conservative result table is NULL. */
  predicate NullOnly(packres: map<string, PhpValue>) {
    forall k :: k in packres ==> packres[k] == PhpNull
  }

  /** The tables and cursor after a rule call, and the value the call answers. */
  datatype ConservativeStep = ConservativeStep(
    answer: PhpValue, packres: map<string, PhpValue>, packpos: map<string, int>, cursor: int)

  /**
   * `packwrite($key, $res, $thirdArgument)` as written, at cursor `cursor`: an entry
   * already set takes `$res` and the cursor, any other entry becomes NULL; the answer
   * is `$res`.
   */
  function ConservativePackWriteAsWritten(packres: map<string, PhpValue>, packpos: map<string, int>, cursor: int,
                                          key: string, res: PhpValue, thirdArgument: PhpValue): ConservativeStep
  {
    if ConservativeIsSet(packres, key) then
      ConservativeStep(res, packres[key := res], packpos[key := cursor], cursor)
    else
      ConservativeStep(res, packres[key := PhpNull], packpos, cursor)
  }

  /**
   * One rule call `packhas($key, $pos) ? packread($key, $pos) : packwrite($key, $pos, match())`
   * as written: the matcher starts at `pos`, leaves the cursor at `after` and yields `outcome`;
   * `packread` moves the cursor to the remembered position (NULL reads as 0).
   */
  function ConservativeCallAsWritten(packres: map<string, PhpValue>, packpos: map<string, int>, key: string,
                                     pos: nat, after: nat, outcome: Option<Match>): ConservativeStep
  {
    if ConservativeIsSet(packres, key) then
      ConservativeStep(packres[key], packres, packpos, if key in packpos then packpos[key] else 0)
    else
      ConservativePackWriteAsWritten(packres, packpos, after, key, PhpInt(pos), OutcomeValue(outcome))
  }

  /**
   * From tables holding only NULL, which is where a parse starts, a rule call never
   * reads the table back and answers its start position, which is never FALSE: a failed
   * match reads as a success, and the table still holds only NULL afterwards.
   */
  lemma ConservativeFailureReadsAsSuccess(packres: map<string, PhpValue>, packpos: map<string, int>, key: string,
                                          pos: nat, after: nat, outcome: Option<Match>)
    requires NullOnly(packres)
    ensures ConservativeCallAsWritten(packres, packpos, key, pos, after, outcome).answer == PhpInt(pos)
    ensures ConservativeCallAsWritten(packres, packpos, key, pos, after, outcome).answer != OutcomeValue(None)
    ensures ConservativeCallAsWritten(packres, packpos, key, pos, after, outcome).cursor == after
    ensures NullOnly(ConservativeCallAsWritten(packres, packpos, key, pos, after, outcome).packres)
  {
  }
}
