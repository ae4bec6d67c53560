# SLR(1) parsing-table generator, modelled in Dafny

The generator reads a context-free grammar typed as text, one rule per line
(`A -> α | β`). It augments the grammar with a start symbol `S'` and builds
the canonical collection of LR(0) item sets with its transitions. It then
computes the FIRST and FOLLOW sets and fills the SLR(1) action and goto
tables.

This project models each step and proves what it computes:

- `text.dfy` (`Text`): the Python string operations the reader uses, i.e.
  `strip`, `split(sep)`, `split()` and `isspace`.
- `grammar.dfy` (`Grammars`): the grammar as an ordered dictionary, and
  `augment_grammar`.
- `parser.dfy` (`GrammarParser`): `get_grammar`.
- `lr0.dfy` (`Lr0`): items, `closure`, `goto` and `generate_lr0_items`.
- `first.dfy` (`First`), `follow.dfy` (`Follow`): `compute_first` and
  `compute_follow`.
- `first_memo.dfy` (`FirstMemo`): the memoised `compute_first` exactly as written, next to two grammars on which it falls short of the FIRST sets.
- `follow_memo.dfy` (`FollowMemo`): the memoised `compute_follow` exactly as written, next to a grammar on which it falls short of the FOLLOW sets.
- `slr_table.dfy` (`SlrTable`): `generate_slr1_parsing_table`.
- `generator.dfy` (`Generator`): joins the steps the way the script does.
  It shows that every step's requirements are met by the steps before it.
- `wrappers.dfy` (`Wrappers`): `Option` and `Result`.

Code that updates state in place becomes a Dafny method with loop invariants.
This covers the `while added` loop of `closure`, the worklist of
`generate_lr0_items`, the dictionaries `first` and `follow`, and the rows of
the parsing table. Each method is proved against a specification function,
and the properties of that function are proved as lemmas.

How this model follows the code:

- **Set iteration order.** A Python set is iterated in hash order, and
  string hashes differ from run to run. The model therefore picks elements
  with `:|`, and every property holds for every order. Order affects only the
  numbering of states after state 0, and which of two conflicting writes to a
  table cell is kept.
- **The "ε" marker.** The model keeps the code's literal string "ε". The
  `production == [""]` branch of `compute_first` is modelled, although the
  reader never produces that production. A terminal spelled `ε` is added to
  FIRST as itself, so it coincides with the marker, exactly as in the code.
- **FOLLOW looks one symbol ahead.** The code looks only at the symbol right
  after an occurrence, not at all of FIRST of the rest of the production. The
  model follows the code.
- **Which grammar.** FIRST, FOLLOW and the "is a nonterminal" test of the
  table use the original grammar, as the script passes it. `closure`, `goto`
  and the automaton use the augmented grammar.
- **A grammar that already has an `S'` key.** `dict.update` then keeps `S'`
  first but replaces its production with the user's. This is modelled as
  written.

## Model

| member | source | states |
|---|---|---|
| Text.StripSpec | app.py:24 | `strip` removes exactly the all-whitespace prefix and suffix: the result is a slice of the input with only whitespace outside it and no whitespace at either end |
| Text.IndexOf | app.py:19 | `'->' in line` is decided by the leftmost occurrence; no earlier position matches, and `None` means no position matches |
| Text.JoinSplit | app.py:23 | `split(sep)` loses nothing: joining the pieces with `sep` gives the input back |
| Text.SplitPieces | app.py:25 | no piece of `split(sep)` contains `sep` |
| Text.WordsConcat | app.py:25 | `split()` yields the input's non-whitespace characters, in order |
| Text.WordsBlank | app.py:25 | `split()` of an alternative is empty exactly when the alternative is all whitespace: that alternative is the empty production |
| Text.Words | app.py:25 | every word of `split()` is non-empty and holds no whitespace; `Text.WordsWeave` and `Text.WordsOfWeave` show that the words are the maximal runs of non-whitespace |
| Text.WordsWeave | app.py:25 | the input is its words interleaved with whitespace gaps, and every gap between two words is non-empty, so `split()` drops only whitespace |
| Text.WordsOfWeave | app.py:25 | any interleaving of non-empty whitespace-free words with whitespace gaps, non-empty between two words, splits back into exactly those words: `A -> ab` has one symbol and `A -> a b` two |
| GrammarParser.ParseLineSpec | app.py:19-25 | a line fails with the missing-arrow error exactly when "->" occurs nowhere in it, and with the unpacking error exactly when "->" occurs at two places; when it occurs at exactly one place i, the rule is the stripped text before i with the alternatives read from the text after the arrow, of which there is at least one |
| GrammarParser.ReadLinesFails | app.py:16-21 | reading fails exactly when some line is malformed, and then reports the first malformed line |
| GrammarParser.BuildGrammarSpec | app.py:27-30 | the dictionary is well formed, its keys are the left-hand sides in order of first appearance, and each key's alternatives are those of all its lines, concatenated in order |
| GrammarParser.LhsOrderMembers | app.py:27-30 | a symbol is a key exactly when it is the left-hand side of some line |
| GrammarParser.ParseGrammarSpec | app.py:14-32 | a grammar that parses is well formed, has at least one nonterminal, and every nonterminal has at least one alternative |
| GrammarParser.GetGrammar | app.py:14-32 | the line-by-line `extend` loop returns the specified parse of the whole text, error cases included |
| Grammars.AugmentGrammar | app.py:41-49 | fails exactly when there is no first key, or the first key is the falsy empty string; otherwise `S'` is the first key, the result is well formed, every original nonterminal keeps its alternatives, and, when `S'` is new, its sole production is `[start]` and the key order is `S'` followed by the original order |
| Lr0.ClosureOf | app.py:54-70 | the closure contains the input, adds only items `N -> . γ` for productions of the grammar, and is closed |
| Lr0.ClosureLeast | app.py:57-69 | the closure lies inside every closed set that contains the input |
| Lr0.ClosureIdempotent | app.py:57-69 | the closure of a closed set is that set, so `closure(closure(S)) == closure(S)` |
| Lr0.ClosureMonotone | app.py:57-69 | a larger input has a larger closure |
| Lr0.ClosureMembers | app.py:60-68 | an item is in the closure exactly when it is an input item or is predicted by an item of the closure |
| Lr0.Closure | app.py:54-70 | the `while added` loop returns exactly the closure |
| Lr0.Goto | app.py:73-78 | the filter and closure return exactly the goto set |
| Lr0.GotoIsClosure | app.py:74-78 | goto is the closure of the items with the dot moved over the symbol |
| Lr0.GotoEmpty | app.py:74-78 | goto is empty exactly when no item has the symbol right after its dot |
| Lr0.GotoShape | app.py:76-78 | a goto set is closed, and each of its items either has the symbol right before its dot or is a production of the grammar with the dot at the start |
| Lr0.GotoWithin | app.py:54-78 | closure and goto stay within the items of the grammar |
| Lr0.GenerateLr0Items | app.py:81-109 | state 0 is the closure of the initial item; states are pairwise distinct, non-empty, closed item sets of the grammar; a transition exists from state i on x exactly when x follows a dot in state i, and it leads to the state equal to goto(state i, x); every state after the first is reached by a transition from an earlier state |
| Lr0.AddSuccessors | app.py:92-107 | one turn of the worklist keeps the numbering, the queue and the transition invariants, and completes the transitions of the current state |
| Lr0.AddTransition | app.py:96-107 | one symbol: the goto state is appended only when new, and the transition on that symbol is recorded |
| First.FirstSetsClosed | app.py:114-134 | the FIRST sets hold what every production adds |
| First.FirstSetsLeast | app.py:114-134 | the FIRST sets lie inside every dictionary closed under the rules |
| First.FirstSetsExact | app.py:114-134 | FIRST of a nonterminal is exactly what its alternatives add |
| First.FirstMembers | app.py:120-134 | a symbol is in FIRST(N) exactly when some alternative of N is `[""]` and the symbol is "ε", or the left-to-right walk over an alternative reaches a position where it adds the symbol |
| First.FirstWalk | app.py:120-134 | after a nullable prefix of a production, a terminal is in FIRST(N), FIRST of a nonterminal without "ε" is included, and "ε" is in FIRST(N) when the whole production is nullable |
| First.FirstTerminals | app.py:125-134 | a FIRST set holds only terminals and "ε" |
| First.AddProductionFirst | app.py:120-134 | the walk over one production adds to `first[symbol]` exactly that production's contribution, computed from the dictionary before the walk; this holds even when the walk reads the set it is growing |
| First.ComputeFirstOf | app.py:114-136 | one call adds to `first[symbol]` only, stays below any closed dictionary, and changes nothing exactly when every alternative's contribution is already recorded |
| First.FirstPass | app.py:138-139 | one pass over the nonterminals either grows the dictionary strictly or leaves it unchanged and closed |
| First.ComputeFirst | app.py:114-139 | the passes return exactly the FIRST sets |
| FirstMemo.MemoFirstSets | app.py:114-139 | the memoised computation as written leaves exactly one entry per nonterminal |
| FirstMemo.MemoUnderComputes | app.py:115-136 | on `A -> B a \| c`, `B -> A b` the memoised computation leaves FIRST(B) empty, while "c" is in the FIRST sets' FIRST(B), so the two differ |
| FirstMemo.MemoDirectMisses | app.py:115-136 | on `E -> E a \|` the memoised computation leaves FIRST(E) = {ε}, while "a" is in the FIRST sets' FIRST(E), so the two differ |
| FollowMemo.MemoFollowSets | app.py:141-171 | the memoised computation as written leaves exactly one entry per nonterminal |
| FollowMemo.MemoFollowMisses | app.py:142-168 | on `S -> B y`, `B -> A`, `A -> B`, `C -> B w` the memoised computation leaves "w" out of FOLLOW(A), while "w" is in the FOLLOW sets' FOLLOW(A), so the two differ |
| Follow.SymbolFollowMembers | app.py:148-166 | a scan for X adds "$" for the start symbol, and otherwise exactly what some occurrence of X in some production adds |
| Follow.FollowSetsClosed | app.py:142-168 | the FOLLOW sets hold what every scan adds |
| Follow.FollowSetsLeast | app.py:142-168 | the FOLLOW sets lie inside every dictionary closed under the scan |
| Follow.FollowSetsExact | app.py:142-168 | FOLLOW of a nonterminal is exactly what its scan adds |
| Follow.FollowStart | app.py:149-150 | "$" is in FOLLOW of the first nonterminal |
| Follow.FollowRules | app.py:152-166 | X followed by terminal t puts t in FOLLOW(X); X followed by nonterminal Y includes FIRST(Y) without "ε", and FOLLOW(lhs) as well when "ε" is in FIRST(Y); X last in a production of N includes FOLLOW(N) |
| Follow.FollowTerminals | app.py:152-166 | with the grammar's own FIRST sets, FOLLOW sets hold only terminals and "$" |
| Follow.RhsFollowFrame | app.py:154-166 | growing `follow[symbol]` while scanning changes what the scan adds only by what that set already holds |
| Follow.FollowInRhs | app.py:154-166 | the scan of one production adds to `follow[symbol]` exactly its occurrences' contributions, computed from the dictionary before the scan; this holds even when lhs is symbol and the scan reads the set it is growing |
| Follow.FollowInRule | app.py:153-166 | the scan of the alternatives of one left-hand side adds exactly their contributions |
| Follow.ComputeFollowOf | app.py:142-168 | one call adds exactly the scan's result to `follow[symbol]` and changes no other entry |
| Follow.FollowPass | app.py:170-171 | one pass over the nonterminals either grows the dictionary strictly or leaves it unchanged and closed |
| Follow.ComputeFollow | app.py:142-171 | the passes return exactly the FOLLOW sets |
| SlrTable.ShiftRowMembers | app.py:178-182 | row i has a shift entry on x exactly for a transition from i on a terminal x, and that entry is Shift of the transition's target |
| SlrTable.EnterTransitions | app.py:178-182 | the transition loop gives every action row exactly its shift entries and every goto row exactly its nonterminal transitions |
| SlrTable.WriteTerminals | app.py:189-191 | writing an action on every terminal of a set, in any order, keeps the overwrite description |
| SlrTable.WriteCompletions | app.py:184-191 | a state's row after its items: a cell is filled exactly when it was filled before or some completed item writes it; a written cell holds one of the writes made to it; every other cell is unchanged |
| SlrTable.GenerateSlr1ParsingTable | app.py:174-193 | one action row and one goto row per state; goto rows are exactly the nonterminal transitions; each action row is its shift row overwritten by the state's completed items (Accept on "$" for S', Reduce on FOLLOW(lhs) otherwise) |
| SlrTable.OverwritesUnique | app.py:184-191 | when no cell is written two different actions, the order of the writes does not matter |
| SlrTable.TableUnique | app.py:174-193 | for a conflict-free grammar the table does not depend on any iteration order |
| SlrTable.TableCells | app.py:174-191 | in a conflict-free table: Shift j for a terminal transition to j, Accept on "$" for a completed S' item, Reduce(N → α) on every terminal of FOLLOW(N) for a completed N → α, and no other cells |
| Generator.AugmentedHasStart | app.py:82-84 | an augmented grammar read from text has a first key with a production, so the initial item exists |
| Generator.Generate | app.py:35-195 | the script fails exactly when the text is malformed or has an empty start symbol; otherwise FIRST and FOLLOW are those of the grammar read, the states and transitions are the canonical LR(0) collection of the augmented grammar exactly as `Lr0.GenerateLr0Items` states it, and the tables meet the table contract for that automaton |

## Left out

- The Streamlit interface is left out: the title, the sidebar widgets, the error messages and `st.stop`. The two ways the script stops become the error values of `Generator.Generate`.
- `display_slr1_parsing_table` and `tabulate` are pure presentation and are left out. The text labels `S{n}`, `R(… → …)` and `ACC` become the `Action` datatype.
- A line with more than one `->` makes the tuple unpacking in `get_grammar` raise ValueError, which ends the script. The model returns the error value `TooManyArrows` instead.
- `generate_slr1_parsing_table` takes a `first` argument that it never uses. The model drops it.
- First.ComputeFirst computes the least FIRST sets: the passes repeat until nothing changes. The code memoises instead, and can compute less when a nonterminal is reached again while its set is still incomplete, as under mutual left recursion or under direct left recursion before an empty alternative (see Findings). The memoised code as written is modelled in `FirstMemo`.
- Follow.ComputeFollow computes the least FOLLOW sets: the passes repeat until nothing changes, and the scan reads `follow[lhs]` from the dictionary instead of recursing. The code memoises instead, and can compute less when two FOLLOW sets include each other (see Findings). The memoised code as written is modelled in `FollowMemo`.
- The inner loops of `generate_lr0_items` and `generate_slr1_parsing_table` are methods of their own, with unchanged bodies. The loops of `compute_first` and `compute_follow` are methods of their own too, but their bodies differ from the code: the recursive `compute_first(sub_symbol)` and `compute_follow(lhs)` calls become reads of the dictionary, and each pass reports through a `changed` flag whether it grew the dictionary.
- Lr0.GenerateLr0Items: state 0 is pinned down, and every later state is proved reachable from an earlier one. The exact order in which later states are numbered is not stated, because it follows Python's set iteration order.
- SlrTable.GenerateSlr1ParsingTable: where writes conflict, it does not say which one survives, because the code keeps whichever written action Python's set iteration order puts last.
- `generate_lr0_items` raises StopIteration on an empty grammar and IndexError when the start symbol has no production, and `generate_slr1_parsing_table` raises KeyError, on inputs the script never passes. The model turns these into preconditions: a start production, transitions from existing states, and FOLLOW entries for the left-hand sides of items. `Generator.Generate` shows that the script's own inputs meet them.
- Strings are sequences of code points, and `isspace` is the list of Unicode whitespace code points. No Unicode normalisation is modelled.

## Findings

| source | as written | input that shows it | evidently intended | confidence | as-written member | corrected member |
|---|---|---|---|---|---|---|
| app.py:115-136 | `compute_first` enters an empty set for a nonterminal before walking its productions. A nonterminal reached again while its set is incomplete, directly or through another nonterminal, contributes that unfinished set, and its dependants are never revisited. | `A -> B a \| c`, `B -> A b`: FIRST(B) is left empty (likewise `E -> E a \|`: FIRST(E) is left {ε}, shown by FirstMemo.MemoDirectMisses) | FIRST(B) = {c}, the least sets closed under the walk | high; not executed | FirstMemo.MemoUnderComputes | First.ComputeFirst |
| app.py:142-168 | `compute_follow` enters a set for a symbol before scanning the productions. A symbol whose FOLLOW set includes the FOLLOW set of a symbol still being computed receives that unfinished set, and is never revisited. | `S -> B y`, `B -> A`, `A -> B`, `C -> B w`: FOLLOW(A) is left as {y} | FOLLOW(A) = {y, w}, the least sets closed under the scan | high; not executed | FollowMemo.MemoFollowMisses | Follow.ComputeFollow |
