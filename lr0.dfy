/**
 * LR(0) items, their closure, the goto function and the canonical
 * collection of item sets (`closure`, `goto`, `generate_lr0_items`).
 *
 * An item is a production with a dot: `lhs -> rhs[..dot] . rhs[dot..]`.
 * The grammar given to these operations is the augmented one; a symbol is
 * a nonterminal exactly when it is one of its keys.
 */
module Lr0 {
  import opened Grammars

  datatype Item = Item(lhs: Symbol, rhs: Rhs, dot: nat)

  /** The dot stands before a nonterminal of `g`. */
  predicate Predicts(g: Grammar, it: Item) {
    it.dot < |it.rhs| && it.rhs[it.dot] in g.rules
  }

  /** Every item with the dot at the start of a production of `g`. */
  function Predictions(g: Grammar): set<Item> {
    set n, p | n in g.rules && p in g.rules[n] :: Item(n, p, 0)
  }

  /** `B -> . γ` for every production `γ` in `ps`, with `B` the given nonterminal. */
  function Starts(n: Symbol, ps: seq<Rhs>): set<Item> {
    set p | p in ps :: Item(n, p, 0)
  }

  /** The items one closure round adds for the item `it`. */
  function Predict(g: Grammar, it: Item): set<Item> {
    if Predicts(g, it) then Starts(it.rhs[it.dot], g.rules[it.rhs[it.dot]]) else {}
  }

  /** The items one closure round adds for the items of `s`: `B -> . γ` for every `A -> α . B β` in `s`. */
  function Expand(g: Grammar, s: set<Item>): (r: set<Item>)
    ensures r <= Predictions(g)
  {
    set it, p | it in s && Predicts(g, it) && p in g.rules[it.rhs[it.dot]] :: Item(it.rhs[it.dot], p, 0)
  }

  /** No closure round adds anything to `s`. */
  predicate Closed(g: Grammar, s: set<Item>) {
    Expand(g, s) <= s
  }

  /** The closure of `s`: closure rounds repeated until nothing is added. */
  function ClosureOf(g: Grammar, s: set<Item>): (r: set<Item>)
    ensures s <= r <= s + Predictions(g)
    ensures Closed(g, r)
    decreases Predictions(g) - s
  {
    var next := s + Expand(g, s);
    if next == s then s
    else
      assert Predictions(g) - next < Predictions(g) - s;
      ClosureOf(g, next)
  }

  lemma ExpandMonotone(g: Grammar, s: set<Item>, t: set<Item>)
    requires s <= t
    ensures Expand(g, s) <= Expand(g, t)
  {
  }

  /** The closure is the least closed superset: it is below every closed set that contains `s`. */
  lemma {:induction false} ClosureLeast(g: Grammar, s: set<Item>, c: set<Item>)
    requires s <= c && Closed(g, c)
    ensures ClosureOf(g, s) <= c
    decreases Predictions(g) - s
  {
    var next := s + Expand(g, s);
    if next != s {
      ExpandMonotone(g, s, c);
      ClosureLeast(g, next, c);
    }
  }

  /** A closed set is its own closure, so closing twice changes nothing. */
  lemma ClosureIdempotent(g: Grammar, s: set<Item>)
    ensures Closed(g, s) ==> ClosureOf(g, s) == s
    ensures ClosureOf(g, ClosureOf(g, s)) == ClosureOf(g, s)
  {
    var c := ClosureOf(g, s);
    ClosureLeast(g, c, c);
    if Closed(g, s) {
      ClosureLeast(g, s, s);
    }
  }

  /** Closing a larger set gives a larger closure. */
  lemma ClosureMonotone(g: Grammar, s: set<Item>, t: set<Item>)
    requires s <= t
    ensures ClosureOf(g, s) <= ClosureOf(g, t)
  {
    ClosureLeast(g, s, ClosureOf(g, t));
  }

  /** An item is in the closure exactly when it is in `s` or is `B -> . γ` predicted from an item of the closure. */
  lemma ClosureMembers(g: Grammar, s: set<Item>, x: Item)
    ensures x in ClosureOf(g, s) <==> x in s || x in Expand(g, ClosureOf(g, s))
  {
    var c := ClosureOf(g, s);
    if x in c && x !in s && x !in Expand(g, c) {
      var smaller := c - {x};
      assert Closed(g, smaller) by {
        ExpandMonotone(g, smaller, c);
      }
      ClosureLeast(g, s, smaller);
    }
  }

  /**
   * `closure(items, grammar)`: every round scans the current set and collects
   * the predicted items not yet in it; the rounds stop when one adds nothing.
   */
  method Closure(g: Grammar, items: set<Item>) returns (closureSet: set<Item>)
    ensures closureSet == ClosureOf(g, items)
  {
    ghost var target := ClosureOf(g, items);
    closureSet := items;
    var added := true;
    while added
      invariant items <= closureSet <= target
      invariant !added ==> Closed(g, closureSet)
      decreases Predictions(g) - closureSet, added
    {
      added := false;
      var newItems: set<Item> := {};
      var rest := closureSet;
      ghost var seen: set<Item> := {};
      while rest != {}
        invariant seen + rest == closureSet && seen !! rest
        invariant newItems == Expand(g, seen) - closureSet
        invariant added <==> newItems != {}
        decreases rest
      {
        var it :| it in rest;
        ghost var before := newItems;
        if it.dot < |it.rhs| {
          var symbol := it.rhs[it.dot];
          if symbol in g.rules {
            var productions := g.rules[symbol];
            for k := 0 to |productions|
              invariant newItems == before + (Starts(symbol, productions[..k]) - closureSet)
              invariant added <==> newItems != {}
            {
              StartsStep(symbol, productions, k, before, newItems, closureSet);
              var newItem := Item(symbol, productions[k], 0);
              if newItem !in closureSet {
                newItems := newItems + {newItem};
                added := true;
              }
            }
            assert productions[..|productions|] == productions;
          }
        }
        assert newItems == before + (Predict(g, it) - closureSet);
        ExpandAdd(g, seen, it);
        assert newItems == Expand(g, seen + {it}) - closureSet by {
          SetDiffUnion(Expand(g, seen), Predict(g, it), closureSet);
        }
        seen := seen + {it};
        rest := rest - {it};
      }
      assert seen == closureSet;
      ExpandWithin(g, closureSet, target);
      closureSet := closureSet + newItems;
    }
    ClosureLeast(g, items, closureSet);
  }

  lemma SetDiffUnion(a: set<Item>, b: set<Item>, c: set<Item>)
    ensures (a - c) + (b - c) == (a + b) - c
  {
  }

  /** Looking at one more production of `n`: its item is new or already there. */
  lemma StartsStep(n: Symbol, ps: seq<Rhs>, k: nat, before: set<Item>, found: set<Item>, c: set<Item>)
    requires k < |ps| && found == before + (Starts(n, ps[..k]) - c)
    ensures Item(n, ps[k], 0) !in c ==> found + {Item(n, ps[k], 0)} == before + (Starts(n, ps[..k + 1]) - c)
    ensures Item(n, ps[k], 0) in c ==> found == before + (Starts(n, ps[..k + 1]) - c)
  {
    assert ps[..k + 1] == ps[..k] + [ps[k]];
    assert Starts(n, ps[..k + 1]) == Starts(n, ps[..k]) + {Item(n, ps[k], 0)};
  }

  /** Predicting from one more item adds that item's predictions. */
  lemma ExpandAdd(g: Grammar, s: set<Item>, it: Item)
    ensures Expand(g, s + {it}) == Expand(g, s) + Predict(g, it)
  {
  }

  /** A closure round never leaves a closed set that contains where it started. */
  lemma ExpandWithin(g: Grammar, s: set<Item>, c: set<Item>)
    requires s <= c && Closed(g, c)
    ensures s + Expand(g, s) <= c
  {
    ExpandMonotone(g, s, c);
  }

  /** The symbols right after a dot in `s`: the symbols `s` has a transition on. */
  function NextSymbols(s: set<Item>): set<Symbol> {
    set it | it in s && it.dot < |it.rhs| :: it.rhs[it.dot]
  }

  /** The kernel of goto: every item of `s` with `x` after the dot, the dot moved over `x`. */
  function Advance(s: set<Item>, x: Symbol): set<Item> {
    set it | it in s && it.dot < |it.rhs| && it.rhs[it.dot] == x :: Item(it.lhs, it.rhs, it.dot + 1)
  }

  /** `goto(items, symbol)`: the closure of the kernel, or the empty set when there is no kernel. */
  function GotoOf(g: Grammar, s: set<Item>, x: Symbol): set<Item> {
    var kernel := Advance(s, x);
    if kernel == {} then {} else ClosureOf(g, kernel)
  }

  /** `goto`: one scan of the items collects the kernel, which is then closed. */
  method Goto(g: Grammar, items: set<Item>, symbol: Symbol) returns (r: set<Item>)
    ensures r == GotoOf(g, items, symbol)
  {
    var nextItems: set<Item> := {};
    var rest := items;
    ghost var seen: set<Item> := {};
    while rest != {}
      invariant seen + rest == items && seen !! rest
      invariant nextItems == Advance(seen, symbol)
      decreases rest
    {
      var it :| it in rest;
      if it.dot < |it.rhs| && it.rhs[it.dot] == symbol {
        nextItems := nextItems + {Item(it.lhs, it.rhs, it.dot + 1)};
      }
      seen := seen + {it};
      rest := rest - {it};
    }
    if nextItems != {} {
      r := Closure(g, nextItems);
    } else {
      r := {};
    }
  }

  /** The closure of nothing is nothing, so goto is exactly the closure of its kernel. */
  lemma GotoIsClosure(g: Grammar, s: set<Item>, x: Symbol)
    ensures GotoOf(g, s, x) == ClosureOf(g, Advance(s, x))
  {
    ClosureLeast(g, {}, {});
  }

  /** Goto on `x` is non-empty exactly when some item of `s` has `x` after its dot. */
  lemma GotoEmpty(g: Grammar, s: set<Item>, x: Symbol)
    ensures GotoOf(g, s, x) != {} <==> x in NextSymbols(s)
  {
    if x in NextSymbols(s) {
      var it :| it in s && it.dot < |it.rhs| && it.rhs[it.dot] == x;
      assert Item(it.lhs, it.rhs, it.dot + 1) in Advance(s, x);
    }
  }

  /** A goto set is closed, its kernel items have the dot just past `x`, and all its other items have the dot at the start. */
  lemma GotoShape(g: Grammar, s: set<Item>, x: Symbol)
    ensures Closed(g, GotoOf(g, s, x))
    ensures forall it :: it in GotoOf(g, s, x) ==>
              || (1 <= it.dot <= |it.rhs| && it.rhs[it.dot - 1] == x)
              || (it.dot == 0 && it in Predictions(g))
  {
  }

  /** Every item of `g`: each production with the dot at each of its positions. */
  function AllItems(g: Grammar): set<Item> {
    set n, p, d | n in g.rules && p in g.rules[n] && 0 <= d <= |p| :: Item(n, p, d)
  }

  /** Closure and goto never leave the items of the grammar. */
  lemma GotoWithin(g: Grammar, s: set<Item>, x: Symbol)
    requires s <= AllItems(g)
    ensures ClosureOf(g, s) <= AllItems(g)
    ensures GotoOf(g, s, x) <= AllItems(g)
  {
    assert Predictions(g) <= AllItems(g);
    assert Advance(s, x) <= AllItems(g);
  }

  /** `generate_lr0_items` needs a first key with at least one production. */
  predicate HasStart(g: Grammar) {
    g.nonterminals != [] && g.nonterminals[0] in g.rules && g.rules[g.nonterminals[0]] != []
  }

  /** The item `S' -> . α` for the first production of the start symbol. */
  function InitialItem(g: Grammar): Item
    requires HasStart(g)
  {
    Item(g.nonterminals[0], g.rules[g.nonterminals[0]][0], 0)
  }

  function StateSet(states: seq<set<Item>>): set<set<Item>> {
    set s | s in states
  }

  function Subsets(u: set<Item>): set<set<Item>> {
    set s | s <= u
  }

  /** A state added to the list is new, so fewer subsets of the items remain unused. */
  lemma StatesGrow(u: set<Item>, before: seq<set<Item>>, after: seq<set<Item>>)
    requires |before| < |after| && before == after[..|before|]
    requires after[|before|] !in before
    requires forall i :: 0 <= i < |after| ==> after[i] <= u
    ensures Subsets(u) - StateSet(after) < Subsets(u) - StateSet(before)
  {
    assert StateSet(before) <= StateSet(after) by {
      forall s | s in before ensures s in after {
        var i :| 0 <= i < |before| && before[i] == s;
        assert after[i] == s;
      }
    }
    var added := after[|before|];
    assert added in Subsets(u) - StateSet(before);
    assert added !in Subsets(u) - StateSet(after);
  }

  // The invariants of the construction, each with the lemmas that keep it.

  /** `indices` numbers the states: it maps each state to its position and holds nothing else. */
  ghost predicate Numbered(states: seq<set<Item>>, indices: map<set<Item>, nat>) {
    && (forall i :: 0 <= i < |states| ==> states[i] in indices && indices[states[i]] == i)
    && (forall s :: s in indices ==> indices[s] < |states| && states[indices[s]] == s)
  }

  /** A state is a non-empty closed set of items of the grammar. */
  ghost predicate IsState(g: Grammar, s: set<Item>) {
    s != {} && Closed(g, s) && s <= AllItems(g)
  }

  ghost predicate AllStates(g: Grammar, states: seq<set<Item>>) {
    forall i :: 0 <= i < |states| ==> IsState(g, states[i])
  }

  /** Every transition leads to the goto state of its source and symbol. */
  ghost predicate Targets(g: Grammar, states: seq<set<Item>>, transitions: map<(nat, Symbol), nat>) {
    forall k {:trigger transitions[k]} :: k in transitions ==>
      k.0 < |states| && transitions[k] < |states| && states[transitions[k]] == GotoOf(g, states[k.0], k.1)
  }

  /** Transitions exist for every symbol of the states before `current`, and for the symbols `done` of `current`. */
  ghost predicate Keys(states: seq<set<Item>>, transitions: map<(nat, Symbol), nat>, current: nat, done: set<Symbol>) {
    forall i: nat, x {:trigger (i, x) in transitions} :: (i, x) in transitions <==>
      (i < current && i < |states| && x in NextSymbols(states[i])) || (i == current && x in done)
  }

  /** Every state after the first was found through a transition from an earlier state. */
  ghost predicate Parents(states: seq<set<Item>>, transitions: map<(nat, Symbol), nat>, parent: seq<(nat, Symbol)>) {
    && |parent| == |states|
    && forall j :: 1 <= j < |states| ==> parent[j] in transitions && parent[j].0 < j && transitions[parent[j]] == j
  }

  /** Goto from a state on one of its symbols is a state. */
  lemma GotoIsState(g: Grammar, s: set<Item>, x: Symbol)
    requires IsState(g, s) && x in NextSymbols(s)
    ensures IsState(g, GotoOf(g, s, x))
  {
    GotoEmpty(g, s, x);
    GotoWithin(g, s, x);
    GotoShape(g, s, x);
  }

  lemma NumberedAdd(states: seq<set<Item>>, indices: map<set<Item>, nat>, s: set<Item>)
    requires Numbered(states, indices) && s !in indices
    ensures Numbered(states + [s], indices[s := |states|])
  {
    var states', indices' := states + [s], indices[s := |states|];
    forall i | 0 <= i < |states'| ensures states'[i] in indices' && indices'[states'[i]] == i {
      if i < |states| {
        assert states'[i] == states[i];
      }
    }
  }

  lemma AllStatesAdd(g: Grammar, states: seq<set<Item>>, s: set<Item>)
    requires AllStates(g, states) && IsState(g, s)
    ensures AllStates(g, states + [s])
  {
    forall i | 0 <= i < |states| + 1 ensures IsState(g, (states + [s])[i]) {
      if i < |states| {
        assert (states + [s])[i] == states[i];
      }
    }
  }

  lemma TargetsAddState(g: Grammar, states: seq<set<Item>>, transitions: map<(nat, Symbol), nat>, s: set<Item>)
    requires Targets(g, states, transitions)
    ensures Targets(g, states + [s], transitions)
  {
    forall k | k in transitions
      ensures k.0 < |states| + 1 && transitions[k] < |states| + 1
      ensures (states + [s])[transitions[k]] == GotoOf(g, (states + [s])[k.0], k.1)
    {
      assert (states + [s])[transitions[k]] == states[transitions[k]];
      assert (states + [s])[k.0] == states[k.0];
    }
  }

  lemma TargetsAdd(g: Grammar, states: seq<set<Item>>, transitions: map<(nat, Symbol), nat>, current: nat, x: Symbol, t: nat)
    requires Targets(g, states, transitions)
    requires current < |states| && t < |states| && states[t] == GotoOf(g, states[current], x)
    ensures Targets(g, states, transitions[(current, x) := t])
  {
  }

  lemma KeysAddState(states: seq<set<Item>>, transitions: map<(nat, Symbol), nat>, current: nat, done: set<Symbol>, s: set<Item>)
    requires Keys(states, transitions, current, done) && current < |states|
    ensures Keys(states + [s], transitions, current, done)
  {
    forall i: nat | i < current ensures (states + [s])[i] == states[i] {
    }
  }

  lemma KeysAdd(states: seq<set<Item>>, transitions: map<(nat, Symbol), nat>, current: nat, done: set<Symbol>, x: Symbol, t: nat)
    requires Keys(states, transitions, current, done)
    ensures Keys(states, transitions[(current, x) := t], current, done + {x})
  {
  }

  /** Moving to the next state: all symbols of the current one are done. */
  lemma KeysNext(states: seq<set<Item>>, transitions: map<(nat, Symbol), nat>, current: nat)
    requires current < |states| && Keys(states, transitions, current, NextSymbols(states[current]))
    ensures Keys(states, transitions, current + 1, {})
  {
  }

  lemma ParentsAddState(states: seq<set<Item>>, transitions: map<(nat, Symbol), nat>, parent: seq<(nat, Symbol)>, s: set<Item>, k: (nat, Symbol))
    requires Parents(states, transitions, parent)
    requires k.0 < |states| && k !in transitions
    ensures Parents(states + [s], transitions[k := |states|], parent + [k])
  {
    var transitions' := transitions[k := |states|];
    forall j | 1 <= j < |states| + 1
      ensures (parent + [k])[j] in transitions' && (parent + [k])[j].0 < j && transitions'[(parent + [k])[j]] == j
    {
      if j < |states| {
        assert (parent + [k])[j] == parent[j];
        assert parent[j] != k by {
          assert transitions[parent[j]] == j;
        }
      }
    }
  }

  lemma ParentsAdd(states: seq<set<Item>>, transitions: map<(nat, Symbol), nat>, parent: seq<(nat, Symbol)>, k: (nat, Symbol), t: nat)
    requires Parents(states, transitions, parent) && k !in transitions
    ensures Parents(states, transitions[k := t], parent)
  {
  }

  /** State `j` is the target of a transition from an earlier state. */
  ghost predicate Reached(transitions: map<(nat, Symbol), nat>, j: nat) {
    exists k :: k in transitions && k.0 < j && transitions[k] == j
  }

  /** Appending a state to the list and to the queue keeps the queue a suffix and the old list a prefix. */
  lemma QueueAppend(states: seq<set<Item>>, queue: seq<set<Item>>, from: nat, prefix: nat, s: set<Item>)
    requires from <= |states| && queue == states[from..]
    requires prefix <= |states|
    ensures queue + [s] == (states + [s])[from..]
    ensures states[..prefix] == (states + [s])[..prefix]
  {
  }

  /** The closure of the initial item is a state. */
  lemma InitialIsState(g: Grammar)
    requires HasStart(g)
    ensures IsState(g, ClosureOf(g, {InitialItem(g)}))
  {
    GotoWithin(g, {InitialItem(g)}, "");
  }

  /** With the states numbered, a state appended after a prefix is not in that prefix. */
  lemma NumberedFresh(states: seq<set<Item>>, indices: map<set<Item>, nat>, n: nat)
    requires Numbered(states, indices) && n < |states|
    ensures states[n] !in states[..n]
  {
    forall i | 0 <= i < n ensures states[..n][i] != states[n] {
      assert states[..n][i] == states[i];
    }
  }

  /**
   * One turn of the `for symbol in symbols` loop of `generate_lr0_items`:
   * the goto state on `symbol` is looked up, appended to the list and the
   * queue when it is new, and recorded as the transition on `symbol` from
   * the state numbered `stateIndex`.
   */
  method AddTransition(g: Grammar, state: set<Item>, stateIndex: nat, symbol: Symbol,
                       states: seq<set<Item>>, stateIndices: map<set<Item>, nat>,
                       transitions: map<(nat, Symbol), nat>, queue: seq<set<Item>>,
                       ghost parent: seq<(nat, Symbol)>, ghost done: set<Symbol>)
    returns (states': seq<set<Item>>, stateIndices': map<set<Item>, nat>,
             transitions': map<(nat, Symbol), nat>, queue': seq<set<Item>>,
             ghost parent': seq<(nat, Symbol)>)
    requires stateIndex < |states| && states[stateIndex] == state && queue == states[stateIndex + 1..]
    requires Numbered(states, stateIndices) && AllStates(g, states)
    requires Targets(g, states, transitions) && Parents(states, transitions, parent)
    requires symbol in NextSymbols(state) && symbol !in done
    requires Keys(states, transitions, stateIndex, done)
    ensures |states| <= |states'| && states == states'[..|states|]
    ensures queue' == states'[stateIndex + 1..]
    ensures Numbered(states', stateIndices') && AllStates(g, states')
    ensures Targets(g, states', transitions') && Parents(states', transitions', parent')
    ensures Keys(states', transitions', stateIndex, done + {symbol})
  {
    states', stateIndices', queue', parent' := states, stateIndices, queue, parent;
    var newState := Goto(g, state, symbol);
    var newIndex: nat;
    ghost var key := (stateIndex, symbol);
    if newState !in stateIndices {
      GotoIsState(g, state, symbol);
      NumberedAdd(states, stateIndices, newState);
      AllStatesAdd(g, states, newState);
      TargetsAddState(g, states, transitions, newState);
      KeysAddState(states, transitions, stateIndex, done, newState);
      ParentsAddState(states, transitions, parent, newState, key);
      QueueAppend(states, queue, stateIndex + 1, |states|, newState);
      states' := states + [newState];
      newIndex := |states'| - 1;
      stateIndices' := stateIndices[newState := newIndex];
      queue' := queue + [newState];
      parent' := parent + [key];
    } else {
      newIndex := stateIndices[newState];
      ParentsAdd(states, transitions, parent, key, newIndex);
    }
    TargetsAdd(g, states', transitions, stateIndex, symbol, newIndex);
    KeysAdd(states', transitions, stateIndex, done, symbol, newIndex);
    transitions' := transitions[(stateIndex, symbol) := newIndex];
  }

  /**
   * One turn of the `while queue` loop of `generate_lr0_items`, for the
   * state numbered `stateIndex`: a transition for every symbol after a dot.
   */
  method AddSuccessors(g: Grammar, state: set<Item>, stateIndex: nat,
                       states: seq<set<Item>>, stateIndices: map<set<Item>, nat>,
                       transitions: map<(nat, Symbol), nat>, queue: seq<set<Item>>,
                       ghost parent: seq<(nat, Symbol)>)
    returns (states': seq<set<Item>>, stateIndices': map<set<Item>, nat>,
             transitions': map<(nat, Symbol), nat>, queue': seq<set<Item>>,
             ghost parent': seq<(nat, Symbol)>)
    requires stateIndex < |states| && states[stateIndex] == state && queue == states[stateIndex + 1..]
    requires Numbered(states, stateIndices) && AllStates(g, states)
    requires Targets(g, states, transitions) && Parents(states, transitions, parent)
    requires Keys(states, transitions, stateIndex, {})
    ensures |states| <= |states'| && states == states'[..|states|]
    ensures queue' == states'[stateIndex + 1..]
    ensures Numbered(states', stateIndices') && AllStates(g, states')
    ensures Targets(g, states', transitions') && Parents(states', transitions', parent')
    ensures Keys(states', transitions', stateIndex + 1, {})
  {
    states', stateIndices', transitions', queue', parent' := states, stateIndices, transitions, queue, parent;
    var symbols := NextSymbols(state);
    var rest := symbols;
    while rest != {}
      invariant rest <= symbols
      invariant |states| <= |states'| && states == states'[..|states|]
      invariant stateIndex < |states'| && queue' == states'[stateIndex + 1..] && states'[stateIndex] == state
      invariant Numbered(states', stateIndices') && AllStates(g, states')
      invariant Targets(g, states', transitions') && Parents(states', transitions', parent')
      invariant Keys(states', transitions', stateIndex, symbols - rest)
      decreases rest
    {
      var symbol :| symbol in rest;
      ghost var before := states';
      states', stateIndices', transitions', queue', parent' :=
        AddTransition(g, state, stateIndex, symbol, states', stateIndices', transitions', queue', parent', symbols - rest);
      assert states == states'[..|states|] by {
        assert before[..|states|] == states'[..|before|][..|states|];
      }
      assert symbols - rest + {symbol} == symbols - (rest - {symbol});
      rest := rest - {symbol};
    }
    KeysNext(states', transitions', stateIndex);
  }

  /**
   * The canonical LR(0) collection of `g`: state 0 is the closure of the
   * initial item, the states are distinct non-empty closed sets of items,
   * there is a transition on exactly the symbols after a dot of a state, each
   * leading to the goto state, and every later state is reached from an
   * earlier one.
   */
  ghost predicate CanonicalCollection(g: Grammar, states: seq<set<Item>>, transitions: map<(nat, Symbol), nat>)
    requires HasStart(g)
  {
    && |states| >= 1 && states[0] == ClosureOf(g, {InitialItem(g)})
    && Distinct(states)
    && (forall i :: 0 <= i < |states| ==> states[i] != {} && Closed(g, states[i]) && states[i] <= AllItems(g))
    && (forall i: nat, x :: (i, x) in transitions <==> i < |states| && x in NextSymbols(states[i]))
    && (forall k :: k in transitions ==>
          transitions[k] < |states| && states[transitions[k]] == GotoOf(g, states[k.0], k.1))
    && (forall j :: 1 <= j < |states| ==> Reached(transitions, j))
  }

  /**
   * `generate_lr0_items`: breadth-first construction of the canonical
   * collection.  The states are numbered in the order they are found, state 0
   * is the closure of the initial item, and `transitions` maps
   * `(state, symbol)` to the number of the goto state.
   */
  method GenerateLr0Items(g: Grammar) returns (states: seq<set<Item>>, transitions: map<(nat, Symbol), nat>)
    requires HasStart(g)
    ensures CanonicalCollection(g, states, transitions)
  {
    var start := g.nonterminals[0];
    var initialItem := Item(start, g.rules[start][0], 0);
    var initialState := Closure(g, {initialItem});
    InitialIsState(g);
    states := [initialState];
    var stateIndices: map<set<Item>, nat> := map[initialState := 0];
    transitions := map[];
    var queue := [initialState];
    ghost var parent: seq<(nat, Symbol)> := [(0, start)];
    while queue != []
      invariant 1 <= |states| && states[0] == ClosureOf(g, {InitialItem(g)})
      invariant |queue| <= |states| && queue == states[|states| - |queue|..]
      invariant Numbered(states, stateIndices) && AllStates(g, states)
      invariant Targets(g, states, transitions) && Parents(states, transitions, parent)
      invariant Keys(states, transitions, |states| - |queue|, {})
      decreases Subsets(AllItems(g)) - StateSet(states), |queue|
    {
      ghost var states0 := states;
      var state := queue[0];
      queue := queue[1..];
      var stateIndex := stateIndices[state];
      assert stateIndex == |states| - |queue| - 1;
      states, stateIndices, transitions, queue, parent :=
        AddSuccessors(g, state, stateIndex, states, stateIndices, transitions, queue, parent);
      assert |queue| == |states| - (stateIndex + 1);
      if |states| > |states0| {
        NumberedFresh(states, stateIndices, |states0|);
        StatesGrow(AllItems(g), states0, states);
      }
    }
    Finished(g, states, stateIndices, transitions, parent);
  }

  /** When every state has been visited, the invariants give the canonical collection. */
  lemma Finished(g: Grammar, states: seq<set<Item>>, stateIndices: map<set<Item>, nat>,
                 transitions: map<(nat, Symbol), nat>, parent: seq<(nat, Symbol)>)
    requires Numbered(states, stateIndices) && AllStates(g, states)
    requires Targets(g, states, transitions) && Parents(states, transitions, parent)
    requires Keys(states, transitions, |states|, {})
    ensures Distinct(states)
    ensures forall i :: 0 <= i < |states| ==> states[i] != {} && Closed(g, states[i]) && states[i] <= AllItems(g)
    ensures forall i: nat, x :: (i, x) in transitions <==> i < |states| && x in NextSymbols(states[i])
    ensures forall k :: k in transitions ==>
              transitions[k] < |states| && states[transitions[k]] == GotoOf(g, states[k.0], k.1)
    ensures forall j :: 1 <= j < |states| ==> Reached(transitions, j)
  {
    forall j | 1 <= j < |states| ensures Reached(transitions, j) {
      assert parent[j] in transitions;
    }
  }
}
