# Fizzle selector parser on the php-peg packrat runtime

This project models two pieces of the Neos Eel package that work together:

- **The php-peg runtime** (`Resources/Private/PHP/php-peg/Parser.php`). It has three parts:
  - a cursor `pos` over an immutable input string;
  - the terminal matchers `literal`, `whitespace` and `rx`, where `rx` goes through the cached regular-expression search of `ParserRegexp`;
  - the `construct` / `store` / `finalise` result builder.
- **The memo strategies** behind `packhas` / `packread` / `packwrite`:
  - none (`Parser`);
  - full (`Packrat`), which packs end positions into three bytes per slot with the `0xFF` "unknown" and `0xFE` "failed" sentinels;
  - failures only (`FalseOnlyPackrat`);
  - `ConservativePackrat`.
- **The Fizzle selector grammar** (`Classes/FlowQuery/FizzleParser.php`). This is generated recursive-descent code. It turns a CSS-like selector into a tree:
  - FilterGroup → Filter;
  - Filter → an optional PathFilter, IdentifierFilter or PropertyNameFilter, followed by AttributeFilters.
  - The entry point `parseFilterGroup` demands that the whole input is consumed.

The project is organised as follows:

- **Modules and files:**

  | Module | File | Contents |
  |---|---|---|
  | `Wrappers` | `wrappers.dfy` | `Option` and `Result` |
  | `Chars` | `chars.dfy` | character classes and leftmost search |
  | `PegResult` | `peg_result.dfy` | result nodes and the default placement of `store` |
  | `Packing` | `packing.dfy` | three-byte positions and memo rows |
  | `Peg` | `peg.dfy` | the `ParserRegexp` and `Parser` classes |
  | `FizzleGrammar` | `fizzle_grammar.dfy` | one pure function per grammar rule, the reference semantics |
  | `FizzleParser` | `fizzle_parser.dfy` | the imperative `match_*` methods |
  | `FizzleConsumption` | `fizzle_consumption.dfy` | consumption lemmas |
  | `FizzleProperties` | `fizzle_properties.dfy` | the selector properties |

- **The memo strategy** is a constructor parameter of the single `Parser` class. The four PHP parser classes differ only in their three memo methods.
- **`meaning`:** the parser carries a ghost grammar meaning, which is the outcome a fresh match of a rule key at a position has. Each memo strategy's tables are proved to agree with it, so a memo read equals recomputation.
- **The `match_*` methods** are real `while` loops with snapshot/restore of the result and the cursor. They are proved equal to the grammar functions under each of the four memo strategies as this model defines them: the `Packrat` rows have a slot for position `len`, and `ConservativePackrat::packwrite` answers the rule's result. The code as written does neither (see Findings).
- **The base rules** `S`, `Identifier`, `PropertyPath`, `StringLiteral`, `NumberLiteral` and `BooleanLiteral` belong to the base parser class. Here they are parameters, arrow fields of a `BaseRules` value, restricted to recognisers that:
  - are functions of the input and the position;
  - never move backwards;
  - return, as their text, the slice they consumed.

## Model

| member | source | states |
|---|---|---|
| Chars.Search | Resources/Private/PHP/php-peg/Parser.php:33-38 | the leftmost position at or after `from` whose character is in the class, or none exists at all |
| Chars.RunEnd | Resources/Private/PHP/php-peg/Parser.php:73-75 | the end of the maximal run of class characters starting at `k` |
| Chars.MatchAt | Classes/FlowQuery/FizzleParser.php:32 | an anchored class match at `i` exists iff the character at `i` is in the class; it is then the non-empty maximal run, the exact input slice |
| Chars.SearchStable | Resources/Private/PHP/php-peg/Parser.php:5-9 | a search from any position between the checked position and the found match gives the same answer as the cached one |
| Chars.Lower | Classes/FlowQuery/FizzleParser.php:971 | `strtolower` on one character: A-Z map to a-z, everything else is unchanged |
| Chars.LowerStringNormal | Classes/FlowQuery/FizzleParser.php:971 | a lowered string has no upper-case letter left, so lowering it again changes nothing: `TRUE`, `True` and `true` all compare equal to `true` once lowered |
| FizzleConsumption.AddTextSpans | Classes/FlowQuery/FizzleParser.php:33 | appending a literal that the input has where a node ends keeps the node's text the exact slice of input it consumed |
| PegResult.Place | Resources/Private/PHP/php-peg/Parser.php:200-210 | tagged store without a hook: an unset field gets the child; a single child is promoted to `[first, child]`; a list grows by the child; other fields are untouched |
| PegResult.StoreDefault | Resources/Private/PHP/php-peg/Parser.php:179-211 | `store` always appends the child's text; without a tag the fields are unchanged, and no field is ever removed |
| PegResult.StoreAll | Resources/Private/PHP/php-peg/Parser.php:200-210 | repeated tagged stores keep the node storable and leave the tag set once anything was stored |
| PegResult.StoreAllCollects | Resources/Private/PHP/php-peg/Parser.php:200-210 | storing children one by one under a fresh tag collects exactly them, in order; the text is the concatenation of theirs; other fields are unchanged |
| PegResult.StoreAllAppends | Resources/Private/PHP/php-peg/Parser.php:200-210 | storing more children under a tag that already holds some appends them after the earlier ones, in order |
| Packing.PackN | Resources/Private/PHP/php-peg/Parser.php:263 | `pack('N', p)` is four bytes |
| Packing.Encode | Resources/Private/PHP/php-peg/Parser.php:263-267 | a position is stored as three bytes |
| Packing.EncodeRoundTrip | Resources/Private/PHP/php-peg/Parser.php:230-267 | for positions up to 0x00FDFFFF the high byte is at most 0xFD, never a sentinel, and decoding the three bytes gives the position back |
| Packing.FreshRow | Resources/Private/PHP/php-peg/Parser.php:235 | a new row has a slot for every position 0..len, all "unknown" |
| Packing.WriteEnd | Resources/Private/PHP/php-peg/Parser.php:262-269 | after writing an end position, the slot reads back that end and every other slot is unchanged |
| Packing.WriteFail | Resources/Private/PHP/php-peg/Parser.php:271-273 | after writing the failure sentinel, the slot reads "failed" and every other slot is unchanged |
| Packing.FreshRowAsWritten | Resources/Private/PHP/php-peg/Parser.php:235 | the row as written is `3 * len` bytes, with no slot for position len |
| Packing.EndOfInputAsWritten | Resources/Private/PHP/php-peg/Parser.php:240-243 | a fresh row as written answers `packhas` false before the end but true at position len |
| Packing.EndOfInputCorrected | Resources/Private/PHP/php-peg/Parser.php:240-243 | with the slot for len, a fresh row answers false at every position, len included |
| Peg.FullWriteOk | Resources/Private/PHP/php-peg/Parser.php:255-276 | a `Packrat` write keeps every row's slots and every stored result equal to the grammar meaning, now including the written (key, position) |
| Peg.FalseWriteOk | Resources/Private/PHP/php-peg/Parser.php:301-311 | a `FalseOnlyPackrat` write keeps its rows marking 'F' exactly at the written (key, position) pairs that fail |
| Peg.ParserRegexp.constructor | Resources/Private/PHP/php-peg/Parser.php:18-25 | a new regexp object has no cached search |
| Peg.ParserRegexp.Match | Resources/Private/PHP/php-peg/Parser.php:27-47 | the answer is the anchored class match at the cursor; on success the cursor advances by its length, otherwise it stays; the cache stays valid whether or not the search is re-run |
| Peg.Parser.constructor | Resources/Private/PHP/php-peg/Parser.php:227-238 | cursor 0, empty memo; `Packrat` accepts only inputs of at most 0x00FDFFFF characters |
| Peg.Parser.Literal | Resources/Private/PHP/php-peg/Parser.php:81-90 | succeeds iff the input continues with the token; then it returns the token and advances by its length, otherwise FALSE and no move |
| Peg.Parser.Seek | Classes/FlowQuery/FizzleParser.php:123-124 | restoring a snapshot sets the cursor to it |
| Peg.Parser.Whitespace | Resources/Private/PHP/php-peg/Parser.php:72-79 | succeeds iff a blank or tab is at the cursor; it returns " " and skips the whole run of them; otherwise no move |
| Peg.Parser.Rx | Resources/Private/PHP/php-peg/Parser.php:92-97 | the cached regexp object answers exactly the anchored class match; the memo tables are unchanged |
| Peg.Parser.PackHas | Resources/Private/PHP/php-peg/Parser.php:240-243 | `packhas` holds iff the strategy remembers (key, position): every written pair for `Packrat`; written failures for `FalseOnlyPackrat`; never for `Parser` and `ConservativePackrat` |
| Peg.Parser.PackRead | Resources/Private/PHP/php-peg/Parser.php:245-253 | after `packhas`, the read equals a fresh match; a success moves the cursor to the recorded end |
| Peg.Parser.PackWrite | Resources/Private/PHP/php-peg/Parser.php:141-143 | returns its result argument unchanged with the cursor unmoved, for every strategy; `packhas` then holds for `Packrat`, holds for `FalseOnlyPackrat` iff the result was FALSE, and `ConservativePackrat` only stores NULL |
| Peg.Parser.Recall | Classes/FlowQuery/FizzleParser.php:49 | a memo hit gives the grammar's outcome with the cursor after it; a miss does not move |
| Peg.Parser.Memoise | Classes/FlowQuery/FizzleParser.php:49 | recording a freshly computed outcome passes it through and keeps the memo invariant |
| Peg.Parser.WriteFull | Resources/Private/PHP/php-peg/Parser.php:255-276 | `Packrat::packwrite` keeps the tables consistent and adds the (key, position) to what is remembered |
| Peg.Parser.WriteFalseOnly | Resources/Private/PHP/php-peg/Parser.php:301-311 | `FalseOnlyPackrat::packwrite` adds the pair; a success on an existing row leaves the table unchanged |
| Peg.Parser.WriteConservative | Resources/Private/PHP/php-peg/Parser.php:335-344 | `ConservativePackrat::packwrite` only ever stores NULL under the key |
| Peg.ConservativeFailureReadsAsSuccess | Resources/Private/PHP/php-peg/Parser.php:322-344 | as called from the grammar, `packhas ? packread : packwrite($key, $pos, match())` on tables holding only NULL never reads the table, answers the start position (never FALSE, even for a failed match), leaves the cursor where the matcher left it, and the table still holds only NULL |
| FizzleProperties.ConservativeFilterLoopNeverEnds | Classes/FlowQuery/FizzleParser.php:164-185 | under `ConservativePackrat` as written, where no `[` follows the cursor the `AttributeFilters` loop is still running at the same cursor after any number of passes |
| FizzleProperties.ConservativeFilterNeverEnds | Classes/FlowQuery/FizzleParser.php:105-191 | under `ConservativePackrat` as written, where no `/` follows the cursor and no `[` is at it, the failed PathFilter call answers its start position, so the subject choice takes it with the cursor back at the start, and `match_Filter`'s `AttributeFilters` loop is still running there after any number of passes |
| FizzleProperties.ConservativeStallsAtStart | Classes/FlowQuery/FizzleParser.php:105-191 | on the selector `a`, `match_Filter` as written never ends: the failed PathFilter call reads as a success, so the loop goes round at position 0, before the identifier |
| FizzleProperties.ConstructShape | Classes/FlowQuery/FizzleParser.php:814-818 | a fresh AttributeFilter node already has the attribute shape: Identifier equals PropertyPath and there is neither an operator nor an operand |
| FizzleGrammar.Start | Resources/Private/PHP/php-peg/Parser.php:150-165 | `construct($rule, $rule)`: empty text, the rule as name |
| FizzleGrammar.FinaliseIdempotent | Classes/FlowQuery/FizzleParser.php:970-980 | `val` depends only on the text (and on `dec`), so finalising a node twice is finalising it once; every field other than `val` is kept |
| FizzleGrammar.Store | Resources/Private/PHP/php-peg/Parser.php:179-211 | `store` always appends the child's text and never drops a field; without a grammar hook for (rule, key) it is the default placement |
| FizzleGrammar.ObjectIdentifier | Classes/FlowQuery/FizzleParser.php:28-37 | matches iff an identifier character is at `i`; the text is the maximal run of `[0-9a-zA-Z_-]` |
| FizzleGrammar.UnquotedOperand | Classes/FlowQuery/FizzleParser.php:833-846 | the maximal run of characters other than quotes, brackets and white space; `val` is its text |
| FizzleGrammar.TokenRule | Classes/FlowQuery/FizzleParser.php:848-857 | a single-token rule matches iff the input continues with the token; the node is the bare token |
| FizzleGrammar.NumberLiteral | Classes/FlowQuery/FizzleParser.php:974-980 | `val` is a float iff a `dec` part is present, otherwise an integer, of the literal's text |
| FizzleGrammar.BooleanLiteral | Classes/FlowQuery/FizzleParser.php:970-972 | `val` is true iff the lowered text is "true" |
| FizzleGrammar.FirstOperator | Classes/FlowQuery/FizzleParser.php:505-685 | the first operator in declared order that the input continues with: all earlier ones fail |
| FizzleGrammar.Operator | Classes/FlowQuery/FizzleParser.php:499-692 | the Operator sub-node holds the first operator, in declared order, that matches; it fails iff none does |
| FizzleGrammar.Operand | Classes/FlowQuery/FizzleParser.php:705-762 | a string literal wins; otherwise a number literal, then a boolean literal, then an unquoted operand, in that order; after a bare `instanceof` the only other choice is an unquoted operand |
| FizzleGrammar.ThenS | Classes/FlowQuery/FizzleParser.php:395-398 | matching `S` appends only text, keeps the fields, and fails iff `S` fails |
| FizzleGrammar.OperatorClause | Classes/FlowQuery/FizzleParser.php:497-775 | operator, space, operand, space continue the same AttributeFilter node |
| FizzleGrammar.OperandClause | Classes/FlowQuery/FizzleParser.php:703-775 | operand and space continue the same AttributeFilter node |
| FizzleGrammar.Comparison | Classes/FlowQuery/FizzleParser.php:486-784 | PropertyPath, space, and an optional operator group continue the same node |
| FizzleGrammar.AttributeBody | Classes/FlowQuery/FizzleParser.php:403-790 | the bracket body continues the same node |
| FizzleGrammar.CloseAttribute | Classes/FlowQuery/FizzleParser.php:798-811 | the closing space and ']' extend the node |
| FizzleGrammar.AttributeFilter | Classes/FlowQuery/FizzleParser.php:373-811 | a matched AttributeFilter is at least "[]" long and stays within the input |
| FizzleGrammar.IdentifierFilter | Classes/FlowQuery/FizzleParser.php:212-234 | matches iff '#' is followed by an ObjectIdentifier; the text is '#' plus that identifier |
| FizzleGrammar.PropertyNameFilter | Classes/FlowQuery/FizzleParser.php:237-252 | matches iff an Identifier does; the node holds exactly `Identifier` = its text |
| FizzleGrammar.PathStep | Classes/FlowQuery/FizzleParser.php:280-295 | a '/' Identifier step strictly extends the text and keeps the fields |
| FizzleGrammar.PathTail | Classes/FlowQuery/FizzleParser.php:277-302 | the `( '/' Identifier )*` loop keeps the node's fields |
| FizzleGrammar.RootedPath | Classes/FlowQuery/FizzleParser.php:262-315 | matches iff the input has '/' at the position |
| FizzleGrammar.RelativePath | Classes/FlowQuery/FizzleParser.php:318-364 | a PathFilter node with no fields |
| FizzleGrammar.PathFilter | Classes/FlowQuery/FizzleParser.php:254-370 | a leading '/' always gives a PathFilter, which has no fields |
| FizzleGrammar.Subject | Classes/FlowQuery/FizzleParser.php:112-159 | the subject is one of PathFilter, IdentifierFilter and PropertyNameFilter |
| FizzleGrammar.AttributeLoop | Classes/FlowQuery/FizzleParser.php:164-185 | the AttributeFilter loop keeps the Filter node and stays within the input |
| FizzleGrammar.FilterHead | Classes/FlowQuery/FizzleParser.php:108-163 | the optional subject yields a Filter node |
| FizzleGrammar.Filter | Classes/FlowQuery/FizzleParser.php:103-191 | `match_Filter` never fails |
| FizzleGrammar.AfterComma | Classes/FlowQuery/FizzleParser.php:68-77 | space and a Filter continue the FilterGroup node |
| FizzleGrammar.GroupItem | Classes/FlowQuery/FizzleParser.php:58-80 | a successful `S ',' S Filter` item strictly extends the node |
| FizzleGrammar.GroupLoop | Classes/FlowQuery/FizzleParser.php:54-88 | the item loop keeps the FilterGroup node |
| FizzleGrammar.FilterGroup | Classes/FlowQuery/FizzleParser.php:42-94 | `match_FilterGroup` never fails, because its first Filter cannot |
| FizzleGrammar.ParseFilterGroup | Classes/FlowQuery/FizzleParser.php:961-968 | the tree iff the FilterGroup match spans the whole input, otherwise the error at character `pos + 1`, between 1 and the length |
| FizzleGrammar.OperatorRuleKey | Classes/FlowQuery/FizzleParser.php:848-956 | each operator rule from `^=` to `>` is a token rule with that operator's token, and no hook of AttributeFilter |
| FizzleParser.MatchBase | Classes/FlowQuery/FizzleParser.php:487-488 | a base rule's outcome, with the cursor after a success |
| FizzleParser.MatchObjectIdentifier | Classes/FlowQuery/FizzleParser.php:28-37 | `match_ObjectIdentifier` returns the grammar's ObjectIdentifier and moves past it |
| FizzleParser.MatchUnquotedOperand | Classes/FlowQuery/FizzleParser.php:833-842 | `match_UnquotedOperand` returns the grammar's UnquotedOperand and moves past it |
| FizzleParser.MatchToken | Classes/FlowQuery/FizzleParser.php:848-857 | a token rule method returns the grammar's TokenRule and moves past it |
| FizzleParser.MatchNumberLiteral | Classes/FlowQuery/FizzleParser.php:974-980 | the base NumberLiteral sealed by its finalise hook |
| FizzleParser.MatchBooleanLiteral | Classes/FlowQuery/FizzleParser.php:970-972 | the base BooleanLiteral sealed by its finalise hook |
| FizzleParser.CallS | Classes/FlowQuery/FizzleParser.php:59-60 | a memoised call of `S` equals a fresh match |
| FizzleParser.CallIdentifier | Classes/FlowQuery/FizzleParser.php:241-242 | a memoised `Identifier` call equals a fresh match |
| FizzleParser.CallPropertyPath | Classes/FlowQuery/FizzleParser.php:487-488 | a memoised `PropertyPath` call equals a fresh match |
| FizzleParser.CallStringLiteral | Classes/FlowQuery/FizzleParser.php:709-710 | a memoised `StringLiteral` call equals a fresh match |
| FizzleParser.CallNumberLiteral | Classes/FlowQuery/FizzleParser.php:721-722 | a memoised `NumberLiteral` call equals a fresh match |
| FizzleParser.CallBooleanLiteral | Classes/FlowQuery/FizzleParser.php:733-734 | a memoised `BooleanLiteral` call equals a fresh match |
| FizzleParser.CallObjectIdentifier | Classes/FlowQuery/FizzleParser.php:223-224 | a memoised `ObjectIdentifier` call equals a fresh match |
| FizzleParser.CallUnquotedOperand | Classes/FlowQuery/FizzleParser.php:741-742 | a memoised `UnquotedOperand` call equals a fresh match |
| FizzleParser.CallOperatorRule | Classes/FlowQuery/FizzleParser.php:528-530 | a memoised operator rule call equals a fresh match |
| FizzleParser.MatchOperatorFrom | Classes/FlowQuery/FizzleParser.php:505-685 | the ordered choice over operators `k..n` succeeds iff some operator matches, and takes the first one in declared order |
| FizzleParser.MatchOperator | Classes/FlowQuery/FizzleParser.php:499-696 | the Operator group equals the grammar's Operator |
| FizzleParser.MatchOperand | Classes/FlowQuery/FizzleParser.php:705-762 | the Operand choice, with snapshot restores between alternatives, equals the grammar's Operand |
| FizzleParser.MatchThenS | Classes/FlowQuery/FizzleParser.php:395-398 | an `S` step equals the grammar's ThenS |
| FizzleParser.MatchOperatorClause | Classes/FlowQuery/FizzleParser.php:497-775 | equals the grammar's OperatorClause |
| FizzleParser.MatchOperandClause | Classes/FlowQuery/FizzleParser.php:703-775 | equals the grammar's OperandClause |
| FizzleParser.MatchComparison | Classes/FlowQuery/FizzleParser.php:486-784 | equals the grammar's Comparison; a failed optional group restores the result and the cursor |
| FizzleParser.MatchAttributeBody | Classes/FlowQuery/FizzleParser.php:403-790 | equals the grammar's AttributeBody; the failed first alternative is undone |
| FizzleParser.MatchCloseAttribute | Classes/FlowQuery/FizzleParser.php:798-811 | equals the grammar's CloseAttribute |
| FizzleParser.MatchAttributeFilter | Classes/FlowQuery/FizzleParser.php:386-812 | `match_AttributeFilter` equals the grammar's AttributeFilter and moves past it |
| FizzleParser.MatchIdentifierFilter | Classes/FlowQuery/FizzleParser.php:214-234 | `match_IdentifierFilter` equals the grammar's IdentifierFilter |
| FizzleParser.MatchPropertyNameFilter | Classes/FlowQuery/FizzleParser.php:239-248 | `match_PropertyNameFilter` equals the grammar's PropertyNameFilter |
| FizzleParser.MatchPathStep | Classes/FlowQuery/FizzleParser.php:280-295 | one `'/' Identifier` step equals the grammar's PathStep |
| FizzleParser.MatchPathTail | Classes/FlowQuery/FizzleParser.php:277-302 | the `while(true)` step loop, restored on its failing iteration, equals the grammar's PathTail |
| FizzleParser.MatchRootedPath | Classes/FlowQuery/FizzleParser.php:262-315 | equals the grammar's RootedPath |
| FizzleParser.MatchRelativePath | Classes/FlowQuery/FizzleParser.php:318-364 | equals the grammar's RelativePath |
| FizzleParser.MatchPathFilter | Classes/FlowQuery/FizzleParser.php:256-370 | `match_PathFilter` equals the grammar's PathFilter |
| FizzleParser.CallPathFilter | Classes/FlowQuery/FizzleParser.php:117-118 | a memoised PathFilter call equals a fresh match |
| FizzleParser.CallIdentifierFilter | Classes/FlowQuery/FizzleParser.php:129-130 | a memoised IdentifierFilter call equals a fresh match |
| FizzleParser.CallPropertyNameFilter | Classes/FlowQuery/FizzleParser.php:141-142 | a memoised PropertyNameFilter call equals a fresh match |
| FizzleParser.CallAttributeFilter | Classes/FlowQuery/FizzleParser.php:169-170 | a memoised AttributeFilter call equals a fresh match |
| FizzleParser.MatchSubject | Classes/FlowQuery/FizzleParser.php:112-159 | the ordered subject choice, each failed alternative undone, equals the grammar's Subject |
| FizzleParser.MatchFilterHead | Classes/FlowQuery/FizzleParser.php:108-163 | the optional subject equals the grammar's FilterHead |
| FizzleParser.MatchFilter | Classes/FlowQuery/FizzleParser.php:105-191 | `match_Filter` always succeeds and equals the grammar's Filter, its AttributeFilter loop included |
| FizzleParser.CallFilter | Classes/FlowQuery/FizzleParser.php:48-49 | a memoised Filter call equals a fresh match |
| FizzleParser.MatchAfterComma | Classes/FlowQuery/FizzleParser.php:68-77 | equals the grammar's AfterComma |
| FizzleParser.MatchGroupItem | Classes/FlowQuery/FizzleParser.php:58-80 | one loop iteration equals the grammar's GroupItem |
| FizzleParser.MatchFilterGroup | Classes/FlowQuery/FizzleParser.php:44-94 | `match_FilterGroup` always succeeds and equals the grammar's FilterGroup, its `while(true)` loop restoring the failing iteration |
| FizzleParser.ParseFilterGroup | Classes/FlowQuery/FizzleParser.php:961-968 | under each memo strategy as this model defines it (see Findings for the two corrections), `parseFilterGroup` returns what the grammar's ParseFilterGroup denotes |
| FizzleConsumption.ObjectIdentifierConsumes | Classes/FlowQuery/FizzleParser.php:28-37 | a match's text is the input slice it consumed |
| FizzleConsumption.UnquotedOperandConsumes | Classes/FlowQuery/FizzleParser.php:833-842 | a match's text is the input slice it consumed |
| FizzleConsumption.TokenRuleConsumes | Classes/FlowQuery/FizzleParser.php:848-857 | a match's text is the input slice it consumed |
| FizzleConsumption.NumberLiteralConsumes | Classes/FlowQuery/FizzleParser.php:974-980 | finalising keeps the consumed slice as the text |
| FizzleConsumption.BooleanLiteralConsumes | Classes/FlowQuery/FizzleParser.php:970-972 | finalising keeps the consumed slice as the text |
| FizzleConsumption.StoreSpans | Resources/Private/PHP/php-peg/Parser.php:179-180 | storing a child that continues the node keeps the node's text equal to the consumed slice |
| FizzleConsumption.OperatorConsumes | Classes/FlowQuery/FizzleParser.php:499-692 | a match's text is the input slice it consumed |
| FizzleConsumption.OperandConsumes | Classes/FlowQuery/FizzleParser.php:705-762 | a match's text is the input slice it consumed |
| FizzleConsumption.ThenSConsumes | Classes/FlowQuery/FizzleParser.php:395-398 | a match's text is the input slice it consumed |
| FizzleConsumption.OperandClauseConsumes | Classes/FlowQuery/FizzleParser.php:703-775 | a match's text is the input slice it consumed |
| FizzleConsumption.OperatorClauseConsumes | Classes/FlowQuery/FizzleParser.php:497-775 | a match's text is the input slice it consumed |
| FizzleConsumption.ComparisonConsumes | Classes/FlowQuery/FizzleParser.php:486-784 | a match's text is the input slice it consumed |
| FizzleConsumption.AttributeBodyConsumes | Classes/FlowQuery/FizzleParser.php:403-790 | a match's text is the input slice it consumed |
| FizzleConsumption.CloseAttributeConsumes | Classes/FlowQuery/FizzleParser.php:798-811 | a match's text is the input slice it consumed |
| FizzleConsumption.AttributeFilterConsumes | Classes/FlowQuery/FizzleParser.php:386-812 | an AttributeFilter's text is the input slice it consumed |
| FizzleConsumption.IdentifierFilterConsumes | Classes/FlowQuery/FizzleParser.php:214-234 | an IdentifierFilter's text is the input slice it consumed |
| FizzleConsumption.PropertyNameFilterConsumes | Classes/FlowQuery/FizzleParser.php:239-248 | a PropertyNameFilter's text is the input slice it consumed |
| FizzleConsumption.PathStepConsumes | Classes/FlowQuery/FizzleParser.php:280-295 | a match's text is the input slice it consumed |
| FizzleConsumption.PathTailSpans | Classes/FlowQuery/FizzleParser.php:277-302 | the step loop keeps the text equal to the consumed slice |
| FizzleConsumption.RootedPathConsumes | Classes/FlowQuery/FizzleParser.php:262-315 | a match's text is the input slice it consumed |
| FizzleConsumption.RelativePathConsumes | Classes/FlowQuery/FizzleParser.php:318-364 | a match's text is the input slice it consumed |
| FizzleConsumption.PathFilterConsumes | Classes/FlowQuery/FizzleParser.php:256-370 | a PathFilter's text is the input slice it consumed |
| FizzleConsumption.SubjectConsumes | Classes/FlowQuery/FizzleParser.php:112-159 | a match's text is the input slice it consumed |
| FizzleConsumption.AttributeLoopSpans | Classes/FlowQuery/FizzleParser.php:164-185 | the AttributeFilter loop keeps the text equal to the consumed slice |
| FizzleConsumption.FilterHeadSpans | Classes/FlowQuery/FizzleParser.php:108-163 | the Filter head's text is the consumed slice |
| FizzleConsumption.FilterConsumes | Classes/FlowQuery/FizzleParser.php:105-191 | a Filter's text is the input slice it consumed |
| FizzleConsumption.AfterCommaConsumes | Classes/FlowQuery/FizzleParser.php:68-77 | a match's text is the input slice it consumed |
| FizzleConsumption.GroupItemConsumes | Classes/FlowQuery/FizzleParser.php:58-80 | a match's text is the input slice it consumed |
| FizzleConsumption.GroupLoopSpans | Classes/FlowQuery/FizzleParser.php:54-88 | the item loop keeps the text equal to the consumed slice |
| FizzleConsumption.FilterGroupConsumes | Classes/FlowQuery/FizzleParser.php:44-94 | a FilterGroup's text is the input slice it consumed |
| FizzleConsumption.RuleAtConsumes | Classes/FlowQuery/FizzleParser.php:48-49 | whatever rule a memo key names, a success's text is the slice it consumed |
| FizzleConsumption.MeaningSound | Resources/Private/PHP/php-peg/Parser.php:262-269 | the grammar meaning handed to the memo tables is sound: a recorded end is the start plus the text's length |
| FizzleConsumption.ParseFilterGroupWhole | Classes/FlowQuery/FizzleParser.php:961-968 | an accepted selector's tree has the whole input as its text |
| FizzleProperties.OperatorChosen | Classes/FlowQuery/FizzleParser.php:505-685 | the operator taken is the first in declared order that the input continues with |
| FizzleProperties.NothingBeforeLess | Classes/FlowQuery/FizzleParser.php:505-598 | no operator declared before `<=` can match at a '<' |
| FizzleProperties.NothingBeforeGreater | Classes/FlowQuery/FizzleParser.php:505-622 | no operator declared before `>=` can match at a '>' |
| FizzleProperties.LessOperators | Classes/FlowQuery/FizzleParser.php:586-608 | at a '<', the operator is "<=" iff the input continues with "<=", else "<" |
| FizzleProperties.GreaterOperators | Classes/FlowQuery/FizzleParser.php:610-628 | at a '>', the operator is ">=" iff the input continues with ">=", else ">" |
| FizzleProperties.RootedSubject | Classes/FlowQuery/FizzleParser.php:193-195 | at a '/' the subject is the PathFilter, and the Filter node stores its full text as `PathFilter` |
| FizzleProperties.PathTailExtends | Classes/FlowQuery/FizzleParser.php:277-302 | the step loop only extends the text |
| FizzleProperties.RelativeSubject | Classes/FlowQuery/FizzleParser.php:318-364 | `Identifier '/' Identifier` is a PathFilter whose text starts with "a/b", stored in full as `PathFilter` |
| FizzleProperties.BareIdentifierSubject | Classes/FlowQuery/FizzleParser.php:201-203 | an identifier not followed by '/' becomes a PropertyNameFilter; the Filter stores its Identifier text |
| FizzleProperties.IdentifierRemainder | Classes/FlowQuery/FizzleParser.php:197-199 | the IdentifierFilter text minus '#' is a non-empty maximal run of `[0-9a-zA-Z_-]` taken from the input |
| FizzleProperties.IdentifierSubject | Classes/FlowQuery/FizzleParser.php:197-199 | when no Identifier matches at '#', the subject is the IdentifierFilter, and the Filter stores it without '#' |
| FizzleProperties.OperandClauseShape | Classes/FlowQuery/FizzleParser.php:829-831 | the Operand hook stores the operand's `val` as `Operand`, leaving the other fields |
| FizzleProperties.OperatorClauseShape | Classes/FlowQuery/FizzleParser.php:825-827 | after the operator group, `Operator` holds the operator's text; PropertyPath and Identifier are kept |
| FizzleProperties.ComparisonShape | Classes/FlowQuery/FizzleParser.php:778-783 | PropertyPath and Identifier both hold the PropertyPath's text, and Operator is NULL exactly when no Operand was stored, whether or not the optional group matched |
| FizzleProperties.AttributeFilterShape | Classes/FlowQuery/FizzleParser.php:814-823 | every AttributeFilter has Operator, PropertyPath and Identifier; PropertyPath equals Identifier; Operator is NULL iff there is no Operand, and otherwise is one of the declared operators |
| FizzleProperties.AttributeBodyShape | Classes/FlowQuery/FizzleParser.php:403-790 | both bracket alternatives keep that field shape |
| FizzleProperties.CloseAttributeShape | Classes/FlowQuery/FizzleParser.php:798-811 | closing the bracket leaves the fields unchanged |
| FizzleProperties.StoreAttributeFilter | Classes/FlowQuery/FizzleParser.php:205-210 | the hook appends the AttributeFilter to the Filter's list |
| FizzleProperties.StoreGroupFilter | Classes/FlowQuery/FizzleParser.php:96-101 | the hook appends the Filter to the group's `Filters` list |
| FizzleProperties.StoreAttributesAppends | Classes/FlowQuery/FizzleParser.php:205-210 | storing a run of AttributeFilters appends exactly that run, in order |
| FizzleProperties.StoreAttributesText | Resources/Private/PHP/php-peg/Parser.php:180 | and appends their texts, in order |
| FizzleProperties.AttributeItems | Classes/FlowQuery/FizzleParser.php:164-185 | each loop iteration consumes at least one character, so the run of AttributeFilters from a position is finite |
| FizzleProperties.AttributeLoopStores | Classes/FlowQuery/FizzleParser.php:164-185 | the loop stores exactly the maximal run of consecutive AttributeFilters, stopping at the first failure |
| FizzleProperties.FilterAttributes | Classes/FlowQuery/FizzleParser.php:164-185 | a Filter's AttributeFilters are the consecutive AttributeFilters after its subject, in source order |
| FizzleProperties.GroupItems | Classes/FlowQuery/FizzleParser.php:54-88 | each group item consumes at least one character, so the run of items is finite |
| FizzleProperties.GroupItemStores | Classes/FlowQuery/FizzleParser.php:58-77 | with a separator present, an item appends the Filter after it and ends after that Filter |
| FizzleProperties.GroupItemFails | Classes/FlowQuery/FizzleParser.php:81-87 | without a separator, the item fails |
| FizzleProperties.GroupItemAppends | Classes/FlowQuery/FizzleParser.php:58-87 | an item succeeds iff a separator follows; it then appends exactly one Filter |
| FizzleProperties.GroupLoopCollects | Classes/FlowQuery/FizzleParser.php:54-88 | the loop appends the Filters of the maximal run of items, in order, stopping at the first failure |
| FizzleProperties.FilterGroupFilters | Classes/FlowQuery/FizzleParser.php:44-94 | a group's `Filters` are its first Filter followed by the Filter of every successive item, in source order |

`PegResult.Get` and `PegResult.NewResult` are definitions (PHP's array read, NULL for an unset key, and a fresh result array) and carry no row. Neither do the lemmas `FizzleParser.MeaningIsRuleAt` and `FizzleParser.<Rule>Meaning` / `FizzleParser.<Rule>At`: they only look up the rule that a `match_*` call site's memo key names, which the `match_*` rows rely on.

## Left out

- The rules `S`, `Identifier`, `PropertyPath`, `StringLiteral`, `NumberLiteral` and `BooleanLiteral` come from the base class `Neos\Eel\AbstractParser`. That class is not part of this model, so they are parameters with a contract:
  - deterministic;
  - the text is the consumed slice;
  - nothing beyond the input.
- Which memo strategy `AbstractParser` inherits is not visible. The model proves the grammar under all four as it defines them, with the two corrections listed under Findings; under `Packrat` and `ConservativePackrat` as written the equivalence does not hold.
- PCRE is not modelled. The two grammar expressions (`/ [0-9a-zA-Z_-]+ /` and `/ [^"'\[\]\s]+ /`) and `whitespace`'s `/[ \t]+/` are maximal character-class runs. The `x` flag makes their spaces insignificant. The search is the leftmost position in the class.
- Strings are sequences of characters, not bytes. The width of multi-byte characters is not modelled.
- The float and integer conversion of `NumberLiteral__finalise` is kept as a tagged lexeme (`FloatVal` / `IntVal` of the text). IEEE floats and PHP's integer cast are not modelled.
- Some runtime reflection is replaced by explicit per-rule cases in `FizzleGrammar.Construct`, `FizzleGrammar.Store` and `FizzleGrammar.Finalise`:
  - `Parser::expression`;
  - `typestack`, and the `is_callable` / `call_user_func` lookup of hooks, including the `_STR` catch-all;
  - the `$stack` argument, which only `expression` reads.
- `$this->depth` is never read, so it is not modelled.
- The `Packrat` size check raises `user_error`. The model makes it a precondition of the constructor for the full strategy.
- The `sprintf` message of `parseFilterGroup`'s exception is not kept. Only the reported character number is.
- `ConservativePackrat` keeps the tables of the code in `Peg.Parser`, but not its answer:
  - `packwrite` answers the rule's result, not the position; `Peg.ConservativeCallAsWritten` models the call as written (see Findings);
  - it is keyed by the rule key only;
  - its `packhas` never holds, because only NULL is ever stored under a key.
  - Its "memoise on the second hit" doc comment is not what the code does and is not proved.
  - `packpos`, the position it would restore, is kept per key; `packread` is never reached, because `packhas` never holds.
- FizzleGrammar.PathFilter: the contract states shape and the leading-'/' case only; the full outcome is the function body, and FizzleProperties.RootedSubject and FizzleProperties.RelativeSubject state what is stored.
- FizzleGrammar.RelativePath: the contract states shape only; FizzleProperties.RelativeSubject states its text.
- FizzleGrammar.Subject: the contract states which rule the subject is; the order of the choice is stated by the FizzleProperties subject lemmas.
- FizzleGrammar.AttributeFilter: the contract states shape and length only; FizzleProperties.AttributeFilterShape states its fields.
- A failed rule leaves the cursor where the generated code left it (for example, after the '#' of an IdentifierFilter). The model leaves it unspecified, because every caller restores its snapshot.
- The rows of `FalseOnlyPackrat` also have a slot for position `len`. In the code, a read past a `strlen`-long row is not 'F' and a write there extends the row, so the behaviour is the same.
- The memo rows of the full strategy have a slot for position `len` (`3 * (len + 1)` bytes). The code's rows have `3 * len` bytes (see Findings); Packing.FreshRowAsWritten models them.
- `store` in the source updates `$result` in place. Here each store returns the new node, and the `match_*` methods reassign their result variable.
- The as-written `ConservativePackrat` model covers only where a parse first goes wrong. `FizzleProperties.SubjectAsWritten` and `FizzleProperties.FilterAsWritten` take the exits of the as-written subject matchers as parameters. The only thing assumed of `match_PathFilter` is what its code guarantees: a success needs a `/` literal, and a failure restores the cursor. The `AttributeFilters` loop uses the grammar's `AttributeFilter` as the matcher's outcome. That is exact only where `match_AttributeFilter` fails at its `[` literal, before any inner rule call.
- Peg.Parser.PackWrite: the Conservative branch returns the corrected result, not `$pos` as the code does; the as-written answer, and the endless loop it causes, are under Findings.
- Peg.Parser.Literal: compares with exact string equality, while `literal` uses PHP's loose `==`, under which two numeric strings compare as numbers (`"100" == "1e2"`). No literal this grammar tests is a numeric string, so every literal it tests compares the same way.
- PegResult.Place: requires the tagged field to be unset, a node or a list (`Storable`). PHP raises an Error when a tagged store appends to a scalar field. Every store the grammar performs is proved to meet `FizzleGrammar.StoreAllowed`, so the grammar never reaches that case.

## Findings

| source | as written | input that shows it | evidently intended | confidence | as-written member | corrected member |
|---|---|---|---|---|---|---|
| Resources/Private/PHP/php-peg/Parser.php:235 | each `Packrat` row has `3 * strlen` bytes, so `packhas` at position `strlen` reads past the row, gets "" (not `"\xFF"`) and answers true before anything was recorded there | a selector such as `a[b]` on a `Packrat` parser: once the AttributeFilter row exists, the attempt at position 4 reads as a hit, `packread` moves the cursor to 0 and returns an unset entry | a slot for every position `0..strlen`, so that an unrecorded end position answers false | not executed | Packing.EndOfInputAsWritten | Packing.EndOfInputCorrected |
| Resources/Private/PHP/php-peg/Parser.php:335-344 | `ConservativePackrat::packwrite` declares `($key, $res, $thirdArgument)`, but the rules call `packwrite($key, $pos, $res)`, so it returns the position | any rule that fails at position `p` under `ConservativePackrat`: the call yields `p`, which is never FALSE, so the failure reads as a success; on the selector `a` the failed PathFilter call at position 0 also reads as a success, so `match_Filter`'s `AttributeFilters` loop goes round for ever at position 0 | return the rule's result, as every other strategy does | not executed | FizzleProperties.ConservativeFilterNeverEnds | Peg.Parser.PackWrite |
