/**
 * The SLR(1) parsing table: an action row and a goto row per LR(0) state.
 * Transitions on terminals become shift entries and transitions on
 * nonterminals goto entries.  Then every completed item writes over its
 * cells: the completed S' item writes Accept on "$", any other completed
 * item `N -> α` writes Reduce(N -> α) on every terminal of FOLLOW(N).  The
 * generator detects no conflicts: a later write replaces an earlier one,
 * and the order of the writes is the iteration order of Python sets, so
 * the model lets it be any order.
 */
module SlrTable {
  import opened Grammars
  import opened Lr0
  import opened First
  import opened Follow

  /** A cell of the action table. */
  datatype Action = Shift(target: nat) | Reduce(lhs: Symbol, rhs: Rhs) | Accept

  type Row = map<Symbol, Action>

  /** Shift entries of row `i` from the transitions in `keys`. */
  function ShiftEntries(g: Grammar, transitions: map<(nat, Symbol), nat>, keys: set<(nat, Symbol)>, i: nat): Row {
    map k | k in keys && k in transitions && k.0 == i && k.1 !in g.rules :: k.1 := Shift(transitions[k])
  }

  /** Goto entries of row `i` from the transitions in `keys`. */
  function GotoEntries(g: Grammar, transitions: map<(nat, Symbol), nat>, keys: set<(nat, Symbol)>, i: nat): map<Symbol, nat> {
    map k | k in keys && k in transitions && k.0 == i && k.1 in g.rules :: k.1 := transitions[k]
  }

  /** The shift entries of row `i`: one per terminal transition out of state `i`. */
  function ShiftRow(g: Grammar, transitions: map<(nat, Symbol), nat>, i: nat): Row {
    ShiftEntries(g, transitions, transitions.Keys, i)
  }

  /** The goto row of state `i`: one entry per nonterminal transition out of it. */
  function GotoRow(g: Grammar, transitions: map<(nat, Symbol), nat>, i: nat): map<Symbol, nat> {
    GotoEntries(g, transitions, transitions.Keys, i)
  }

  predicate Complete(it: Item) {
    it.dot == |it.rhs|
  }

  /** What a completed item writes. */
  function ItemAction(it: Item): Action {
    if it.lhs == AugmentedStart then Accept else Reduce(it.lhs, it.rhs)
  }

  /** Where a completed item writes: "$" for S', FOLLOW of the left-hand side otherwise. */
  function Lookaheads(follow: SymbolSets, it: Item): set<Symbol> {
    if it.lhs == AugmentedStart then {EndMarker} else Get(follow, it.lhs)
  }

  /** The cells `ts` of a row, each with the action `a`. */
  function Tagged(ts: set<Symbol>, a: Action): set<(Symbol, Action)> {
    set t | t in ts :: (t, a)
  }

  /** The writes of one item. */
  function ItemWrites(follow: SymbolSets, it: Item): set<(Symbol, Action)> {
    if Complete(it) then Tagged(Lookaheads(follow, it), ItemAction(it)) else {}
  }

  /** Every (terminal, action) write the completed items of a state make. */
  function RowWrites(follow: SymbolSets, items: set<Item>): set<(Symbol, Action)> {
    set it, t | it in items && Complete(it) && t in Lookaheads(follow, it) :: (t, ItemAction(it))
  }

  /** The cells some write goes to. */
  function Cells(writes: set<(Symbol, Action)>): set<Symbol> {
    set w | w in writes :: w.0
  }

  /**
   * `after` is `before` with the writes `writes` made in some order, a later
   * write to a cell replacing an earlier one: a cell is filled exactly when it
   * was filled before or is written; a written cell holds one of its writes;
   * every other cell is unchanged.
   */
  ghost predicate Overwrites(before: Row, after: Row, writes: set<(Symbol, Action)>) {
    && (forall t :: t in after <==> t in before || t in Cells(writes))
    && (forall t :: t in after && t in Cells(writes) ==> (t, after[t]) in writes)
    && (forall t :: t in after && t !in Cells(writes) ==> t in before && after[t] == before[t])
  }

  /** What the generator promises of a table: the goto rows, and each action row overwritten by its completed items. */
  ghost predicate IsTable(g: Grammar, states: seq<set<Item>>, transitions: map<(nat, Symbol), nat>, follow: SymbolSets,
                          parsingTable: seq<Row>, gotoTable: seq<map<Symbol, nat>>) {
    && |parsingTable| == |states| && |gotoTable| == |states|
    && (forall i :: 0 <= i < |states| ==> gotoTable[i] == GotoRow(g, transitions, i))
    && (forall i :: 0 <= i < |states| ==>
          Overwrites(ShiftRow(g, transitions, i), parsingTable[i], RowWrites(follow, states[i])))
  }

  // ----- facts the construction needs -----

  lemma ShiftEntriesAdd(g: Grammar, transitions: map<(nat, Symbol), nat>, keys: set<(nat, Symbol)>, k: (nat, Symbol), i: nat)
    requires k in transitions && k !in keys
    ensures ShiftEntries(g, transitions, keys + {k}, i) ==
      if k.0 == i && k.1 !in g.rules then ShiftEntries(g, transitions, keys, i)[k.1 := Shift(transitions[k])]
      else ShiftEntries(g, transitions, keys, i)
  {
    var before := ShiftEntries(g, transitions, keys, i);
    var after := ShiftEntries(g, transitions, keys + {k}, i);
    if k.0 == i && k.1 !in g.rules {
      var expected := before[k.1 := Shift(transitions[k])];
      forall x | x in after ensures x in expected && after[x] == expected[x] {
        var k' :| k' in keys + {k} && k' in transitions && k'.0 == i && k'.1 !in g.rules && k'.1 == x;
        if x != k.1 {
          assert k' in keys;
        }
      }
      assert after.Keys == expected.Keys;
    } else {
      forall x | x in after ensures x in before && after[x] == before[x] {
        var k' :| k' in keys + {k} && k' in transitions && k'.0 == i && k'.1 !in g.rules && k'.1 == x;
        assert k' in keys;
      }
      assert after.Keys == before.Keys;
    }
  }

  lemma GotoEntriesAdd(g: Grammar, transitions: map<(nat, Symbol), nat>, keys: set<(nat, Symbol)>, k: (nat, Symbol), i: nat)
    requires k in transitions && k !in keys
    ensures GotoEntries(g, transitions, keys + {k}, i) ==
      if k.0 == i && k.1 in g.rules then GotoEntries(g, transitions, keys, i)[k.1 := transitions[k]]
      else GotoEntries(g, transitions, keys, i)
  {
    var before := GotoEntries(g, transitions, keys, i);
    var after := GotoEntries(g, transitions, keys + {k}, i);
    if k.0 == i && k.1 in g.rules {
      var expected := before[k.1 := transitions[k]];
      forall x | x in after ensures x in expected && after[x] == expected[x] {
        var k' :| k' in keys + {k} && k' in transitions && k'.0 == i && k'.1 in g.rules && k'.1 == x;
        if x != k.1 {
          assert k' in keys;
        }
      }
      assert after.Keys == expected.Keys;
    } else {
      forall x | x in after ensures x in before && after[x] == before[x] {
        var k' :| k' in keys + {k} && k' in transitions && k'.0 == i && k'.1 in g.rules && k'.1 == x;
        assert k' in keys;
      }
      assert after.Keys == before.Keys;
    }
  }

  lemma OverwritesNothing(row: Row)
    ensures Overwrites(row, row, {})
  {
  }

  /** One more write keeps the description. */
  lemma OverwritesStep(before: Row, after: Row, writes: set<(Symbol, Action)>, t: Symbol, a: Action)
    requires Overwrites(before, after, writes)
    ensures Overwrites(before, after[t := a], writes + {(t, a)})
  {
    CellsAdd(writes, t, a);
  }

  lemma CellsAdd(writes: set<(Symbol, Action)>, t: Symbol, a: Action)
    ensures Cells(writes + {(t, a)}) == Cells(writes) + {t}
  {
    assert (t, a).0 == t;
  }

  lemma TaggedAdd(ts: set<Symbol>, t: Symbol, a: Action)
    ensures Tagged(ts + {t}, a) == Tagged(ts, a) + {(t, a)}
  {
  }

  lemma RowWritesAdd(follow: SymbolSets, items: set<Item>, it: Item)
    ensures RowWrites(follow, items + {it}) == RowWrites(follow, items) + ItemWrites(follow, it)
  {
    var left := RowWrites(follow, items + {it});
    var right := RowWrites(follow, items) + ItemWrites(follow, it);
    forall w | w in left ensures w in right {
      var it', t :| it' in items + {it} && Complete(it') && t in Lookaheads(follow, it') && w == (t, ItemAction(it'));
      if it' == it {
        assert w in Tagged(Lookaheads(follow, it), ItemAction(it));
      }
    }
    forall w | w in right ensures w in left {
      if w !in RowWrites(follow, items) {
        var t :| t in Lookaheads(follow, it) && w == (t, ItemAction(it));
      }
    }
  }

  // ----- the construction -----

  /**
   * The `for terminal in follow[lhs]` loop for a completed item: write
   * `action` on every terminal of `terminals`, in any order.
   */
  method WriteTerminals(terminals: set<Symbol>, action: Action, row: Row, ghost before: Row, ghost writes: set<(Symbol, Action)>)
    returns (row': Row)
    requires Overwrites(before, row, writes)
    ensures Overwrites(before, row', writes + Tagged(terminals, action))
  {
    row' := row;
    var pending := terminals;
    while pending != {}
      invariant pending <= terminals
      invariant Overwrites(before, row', writes + Tagged(terminals - pending, action))
      decreases pending
    {
      var terminal :| terminal in pending;
      ghost var done := terminals - pending;
      OverwritesStep(before, row', writes + Tagged(done, action), terminal, action);
      TaggedAdd(done, terminal, action);
      assert terminals - (pending - {terminal}) == done + {terminal};
      row' := row'[terminal := action];
      pending := pending - {terminal};
    }
    assert terminals - pending == terminals;
  }

  /**
   * The `for lhs, rhs, dot_pos in items` loop for one state: every completed
   * item writes on its lookaheads, in any order.
   */
  method WriteCompletions(items: set<Item>, follow: SymbolSets, row: Row) returns (row': Row)
    requires forall it :: it in items && Complete(it) && it.lhs != AugmentedStart ==> it.lhs in follow
    ensures Overwrites(row, row', RowWrites(follow, items))
  {
    row' := row;
    OverwritesNothing(row);
    var rest := items;
    ghost var writes: set<(Symbol, Action)> := {};
    while rest != {}
      invariant rest <= items
      invariant writes == RowWrites(follow, items - rest)
      invariant Overwrites(row, row', writes)
      decreases rest
    {
      var item :| item in rest;
      ghost var done := items - rest;
      if item.dot == |item.rhs| {
        if item.lhs == AugmentedStart {
          OverwritesStep(row, row', writes, EndMarker, Accept);
          assert Tagged({EndMarker}, Accept) == {(EndMarker, Accept)};
          row' := row'[EndMarker := Accept];
        } else {
          row' := WriteTerminals(follow[item.lhs], Reduce(item.lhs, item.rhs), row', row, writes);
        }
      }
      RowWritesAdd(follow, done, item);
      assert items - (rest - {item}) == done + {item};
      writes := writes + ItemWrites(follow, item);
      rest := rest - {item};
    }
    assert items - rest == items;
  }

  /**
   * The `for (state, symbol), next_state in transitions.items()` loop, in any
   * order: a shift entry for a terminal transition, a goto entry for a
   * nonterminal one.
   */
  method EnterTransitions(transitions: map<(nat, Symbol), nat>, g: Grammar, parsingTable: seq<Row>, gotoTable: seq<map<Symbol, nat>>)
    returns (parsingTable': seq<Row>, gotoTable': seq<map<Symbol, nat>>)
    requires |parsingTable| == |gotoTable|
    requires forall i :: 0 <= i < |parsingTable| ==> parsingTable[i] == map[] && gotoTable[i] == map[]
    requires forall k :: k in transitions ==> k.0 < |parsingTable|
    ensures |parsingTable'| == |parsingTable| && |gotoTable'| == |gotoTable|
    ensures forall i :: 0 <= i < |parsingTable| ==> parsingTable'[i] == ShiftRow(g, transitions, i)
    ensures forall i :: 0 <= i < |gotoTable| ==> gotoTable'[i] == GotoRow(g, transitions, i)
  {
    parsingTable', gotoTable' := parsingTable, gotoTable;
    var pending := transitions.Keys;
    while pending != {}
      invariant pending <= transitions.Keys
      invariant |parsingTable'| == |parsingTable| && |gotoTable'| == |parsingTable|
      invariant forall i :: 0 <= i < |parsingTable| ==>
        parsingTable'[i] == ShiftEntries(g, transitions, transitions.Keys - pending, i)
      invariant forall i :: 0 <= i < |parsingTable| ==>
        gotoTable'[i] == GotoEntries(g, transitions, transitions.Keys - pending, i)
      decreases pending
    {
      var key :| key in pending;
      var (state, symbol) := key;
      var nextState := transitions[key];
      ghost var done := transitions.Keys - pending;
      assert transitions.Keys - (pending - {key}) == done + {key};
      if symbol in g.rules {
        gotoTable' := gotoTable'[state := gotoTable'[state][symbol := nextState]];
      } else {
        parsingTable' := parsingTable'[state := parsingTable'[state][symbol := Shift(nextState)]];
      }
      forall i | 0 <= i < |parsingTable|
        ensures parsingTable'[i] == ShiftEntries(g, transitions, done + {key}, i)
        ensures gotoTable'[i] == GotoEntries(g, transitions, done + {key}, i)
      {
        ShiftEntriesAdd(g, transitions, done, key, i);
        GotoEntriesAdd(g, transitions, done, key, i);
      }
      pending := pending - {key};
    }
    assert transitions.Keys - pending == transitions.Keys;
  }

  /**
   * `generate_slr1_parsing_table`: the action and goto rows of every state.
   * The goto rows are exactly the nonterminal transitions; each action row is
   * the shift row overwritten by the state's completed items.
   */
  method GenerateSlr1ParsingTable(states: seq<set<Item>>, transitions: map<(nat, Symbol), nat>, g: Grammar, follow: SymbolSets)
    returns (parsingTable: seq<Row>, gotoTable: seq<map<Symbol, nat>>)
    requires forall k :: k in transitions ==> k.0 < |states|
    requires forall i, it :: 0 <= i < |states| && it in states[i] && Complete(it) && it.lhs != AugmentedStart ==> it.lhs in follow
    ensures IsTable(g, states, transitions, follow, parsingTable, gotoTable)
  {
    parsingTable := seq(|states|, _ => map[]);
    gotoTable := seq(|states|, _ => map[]);
    parsingTable, gotoTable := EnterTransitions(transitions, g, parsingTable, gotoTable);
    for state := 0 to |states|
      invariant |parsingTable| == |states|
      invariant forall i :: 0 <= i < state ==>
        Overwrites(ShiftRow(g, transitions, i), parsingTable[i], RowWrites(follow, states[i]))
      invariant forall i :: state <= i < |states| ==> parsingTable[i] == ShiftRow(g, transitions, i)
    {
      var row := WriteCompletions(states[state], follow, parsingTable[state]);
      parsingTable := parsingTable[state := row];
    }
  }

  // ----- conflict-free tables -----

  /** Action `a` can land in cell `t` of row `i`: it is the shift entry there, or a completed item writes it. */
  ghost predicate Candidate(g: Grammar, transitions: map<(nat, Symbol), nat>, follow: SymbolSets,
                            items: set<Item>, i: nat, t: Symbol, a: Action) {
    || (t in ShiftRow(g, transitions, i) && ShiftRow(g, transitions, i)[t] == a)
    || (t, a) in RowWrites(follow, items)
  }

  /** No cell of row `i` has two different candidates. */
  ghost predicate RowConflictFree(g: Grammar, transitions: map<(nat, Symbol), nat>, follow: SymbolSets, items: set<Item>, i: nat) {
    forall t, a, b :: Candidate(g, transitions, follow, items, i, t, a) && Candidate(g, transitions, follow, items, i, t, b) ==> a == b
  }

  /** No cell of any row has two different candidates: no shift/reduce and no reduce/reduce conflict. */
  ghost predicate ConflictFree(g: Grammar, states: seq<set<Item>>, transitions: map<(nat, Symbol), nat>, follow: SymbolSets) {
    forall i: nat :: i < |states| ==> RowConflictFree(g, transitions, follow, states[i], i)
  }

  lemma ShiftRowMembers(g: Grammar, transitions: map<(nat, Symbol), nat>, i: nat, x: Symbol)
    ensures x in ShiftRow(g, transitions, i) <==> (i, x) in transitions && x !in g.rules
    ensures x in ShiftRow(g, transitions, i) ==> ShiftRow(g, transitions, i)[x] == Shift(transitions[(i, x)])
  {
    if x in ShiftRow(g, transitions, i) {
      var k :| k in transitions && k.0 == i && k.1 !in g.rules && k.1 == x;
      assert k == (i, x);
    }
    if (i, x) in transitions && x !in g.rules {
      var k := (i, x);
      assert k.1 == x;
    }
  }

  /** Any order of writes yields the same row when no cell is written two different actions. */
  lemma OverwritesUnique(before: Row, after1: Row, after2: Row, writes: set<(Symbol, Action)>)
    requires forall t, a, b :: (t, a) in writes && (t, b) in writes ==> a == b
    requires Overwrites(before, after1, writes) && Overwrites(before, after2, writes)
    ensures after1 == after2
  {
    forall t | t in after1 ensures t in after2 && after1[t] == after2[t] {
      if t in Cells(writes) {
        assert (t, after1[t]) in writes && (t, after2[t]) in writes;
      }
    }
    assert after1.Keys == after2.Keys;
  }

  /** For a conflict-free grammar the table does not depend on the order of the writes. */
  lemma TableUnique(g: Grammar, states: seq<set<Item>>, transitions: map<(nat, Symbol), nat>, follow: SymbolSets,
                    table1: seq<Row>, goto1: seq<map<Symbol, nat>>, table2: seq<Row>, goto2: seq<map<Symbol, nat>>)
    requires ConflictFree(g, states, transitions, follow)
    requires IsTable(g, states, transitions, follow, table1, goto1)
    requires IsTable(g, states, transitions, follow, table2, goto2)
    ensures table1 == table2 && goto1 == goto2
  {
    forall i | 0 <= i < |states| ensures table1[i] == table2[i] {
      var writes := RowWrites(follow, states[i]);
      forall t, a, b | (t, a) in writes && (t, b) in writes ensures a == b {
        assert Candidate(g, transitions, follow, states[i], i, t, a);
        assert Candidate(g, transitions, follow, states[i], i, t, b);
      }
      OverwritesUnique(ShiftRow(g, transitions, i), table1[i], table2[i], writes);
    }
  }

  /** Every filled cell of a row holds one of its candidates. */
  lemma RowFilled(g: Grammar, transitions: map<(nat, Symbol), nat>, follow: SymbolSets, items: set<Item>, i: nat, row: Row)
    requires Overwrites(ShiftRow(g, transitions, i), row, RowWrites(follow, items))
    ensures forall t :: t in row ==> Candidate(g, transitions, follow, items, i, t, row[t])
  {
  }

  /** In a conflict-free row, a cell with a candidate is filled with it. */
  lemma CandidateIn(g: Grammar, transitions: map<(nat, Symbol), nat>, follow: SymbolSets, items: set<Item>, i: nat,
                    row: Row, t: Symbol, a: Action)
    requires RowConflictFree(g, transitions, follow, items, i)
    requires Overwrites(ShiftRow(g, transitions, i), row, RowWrites(follow, items))
    requires Candidate(g, transitions, follow, items, i, t, a)
    ensures t in row && row[t] == a
  {
    if (t, a) in RowWrites(follow, items) {
      assert t in Cells(RowWrites(follow, items));
    }
    RowFilled(g, transitions, follow, items, i, row);
  }

  /**
   * The cells of a conflict-free row: Shift j for a terminal transition to j,
   * Accept on "$" for a completed S' item, Reduce(N -> α) on every terminal of
   * FOLLOW(N) for a completed item N -> α, and nothing else.
   */
  lemma TableCells(g: Grammar, states: seq<set<Item>>, transitions: map<(nat, Symbol), nat>, follow: SymbolSets,
                   parsingTable: seq<Row>, gotoTable: seq<map<Symbol, nat>>, i: nat)
    requires ConflictFree(g, states, transitions, follow)
    requires IsTable(g, states, transitions, follow, parsingTable, gotoTable) && i < |states|
    ensures forall x :: (i, x) in transitions && x !in g.rules ==>
      x in parsingTable[i] && parsingTable[i][x] == Shift(transitions[(i, x)])
    ensures forall it :: it in states[i] && Complete(it) && it.lhs == AugmentedStart ==>
      EndMarker in parsingTable[i] && parsingTable[i][EndMarker] == Accept
    ensures forall it, t :: it in states[i] && Complete(it) && it.lhs != AugmentedStart && t in Get(follow, it.lhs) ==>
      t in parsingTable[i] && parsingTable[i][t] == Reduce(it.lhs, it.rhs)
    ensures forall t :: t in parsingTable[i] ==> Candidate(g, transitions, follow, states[i], i, t, parsingTable[i][t])
  {
    var row := parsingTable[i];
    var items := states[i];
    var writes := RowWrites(follow, items);
    assert RowConflictFree(g, transitions, follow, items, i);
    assert Overwrites(ShiftRow(g, transitions, i), row, writes);
    RowFilled(g, transitions, follow, items, i, row);
    forall x | (i, x) in transitions && x !in g.rules ensures x in row && row[x] == Shift(transitions[(i, x)]) {
      ShiftRowMembers(g, transitions, i, x);
      CandidateIn(g, transitions, follow, items, i, row, x, Shift(transitions[(i, x)]));
    }
    forall it | it in items && Complete(it) && it.lhs == AugmentedStart
      ensures EndMarker in row && row[EndMarker] == Accept
    {
      assert (EndMarker, Accept) in writes by {
        assert EndMarker in Lookaheads(follow, it);
      }
      CandidateIn(g, transitions, follow, items, i, row, EndMarker, Accept);
    }
    forall it, t | it in items && Complete(it) && it.lhs != AugmentedStart && t in Get(follow, it.lhs)
      ensures t in row && row[t] == Reduce(it.lhs, it.rhs)
    {
      assert (t, Reduce(it.lhs, it.rhs)) in writes by {
        assert t in Lookaheads(follow, it) && ItemAction(it) == Reduce(it.lhs, it.rhs);
      }
      CandidateIn(g, transitions, follow, items, i, row, t, Reduce(it.lhs, it.rhs));
    }
  }
}
