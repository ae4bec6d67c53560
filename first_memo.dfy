/**
 * `compute_first` as the script writes it: a memoised recursion over a shared
 * dictionary.  Before walking the productions of a nonterminal it enters an
 * empty set for it, so a nonterminal reached again while its own set is still
 * being computed contributes only what has been found so far, and it is never
 * revisited.  Any nonterminal reached again while its set is incomplete can
 * lose symbols this way: `MemoUnderComputes` exhibits mutual left recursion,
 * `MemoDirectMisses` direct left recursion before an empty alternative, and
 * `First.ComputeFirst` is the corrected computation the rest of the model
 * uses.
 */
module FirstMemo {
  import opened Grammars
  import opened First

  /**
   * `compute_first(symbol)` on the dictionary `first`: the dictionary after
   * the call; the call's result is the new entry for `symbol`.
   */
  function MemoFirst(g: Grammar, first: SymbolSets, symbol: Symbol): (r: SymbolSets)
    requires first.Keys <= g.rules.Keys && symbol in g.rules
    ensures first.Keys <= r.Keys <= g.rules.Keys && symbol in r
    ensures symbol in first ==> r == first
    decreases g.rules.Keys - first.Keys, 0, 0, 0
  {
    if symbol in first then first
    else MemoAlternatives(g, first[symbol := {}], symbol, g.rules[symbol])
  }

  /** The loop over the productions of `symbol`. */
  function MemoAlternatives(g: Grammar, first: SymbolSets, symbol: Symbol, productions: seq<Rhs>): (r: SymbolSets)
    requires first.Keys <= g.rules.Keys && symbol in first
    ensures first.Keys <= r.Keys <= g.rules.Keys
    decreases g.rules.Keys - first.Keys, 2, |productions|, 0
  {
    if productions == [] then first
    else
      var f := if productions[0] == [""] then first[symbol := first[symbol] + {Epsilon}]
               else MemoWalk(g, first, symbol, productions[0], 0);
      MemoAlternatives(g, f, symbol, productions[1..])
  }

  /**
   * The walk over one production from index `j`.  A nonterminal's set is
   * obtained by a recursive call, which answers from the dictionary when the
   * nonterminal already has an entry, finished or not.
   */
  function MemoWalk(g: Grammar, first: SymbolSets, symbol: Symbol, production: Rhs, j: nat): (r: SymbolSets)
    requires first.Keys <= g.rules.Keys && symbol in first && j <= |production|
    ensures first.Keys <= r.Keys <= g.rules.Keys
    decreases g.rules.Keys - first.Keys, 1, |production| - j, 0
  {
    if j == |production| then first[symbol := first[symbol] + {Epsilon}]
    else if production[j] !in g.rules then first[symbol := first[symbol] + {production[j]}]
    else
      var f := MemoFirst(g, first, production[j]);
      var sub := f[production[j]];
      var f' := f[symbol := f[symbol] + (sub - {Epsilon})];
      if Epsilon !in sub then f' else MemoWalk(g, f', symbol, production, j + 1)
  }

  /** `for nt in grammar: compute_first(nt)`, from `first` over the symbols `ns`. */
  function MemoAll(g: Grammar, first: SymbolSets, ns: seq<Symbol>): (r: SymbolSets)
    requires first.Keys <= g.rules.Keys && forall n :: n in ns ==> n in g.rules
    ensures first.Keys <= r.Keys <= g.rules.Keys
    ensures forall n :: n in ns ==> n in r
    decreases |ns|
  {
    if ns == [] then first else MemoAll(g, MemoFirst(g, first, ns[0]), ns[1..])
  }

  /** The dictionary the script's memoised FIRST computation leaves: one entry per nonterminal. */
  function MemoFirstSets(g: Grammar): (r: SymbolSets)
    requires WellFormed(g)
    ensures r.Keys == g.rules.Keys
  {
    MemoAll(g, map[], g.nonterminals)
  }

  /** `A -> B a | c` and `B -> A b`: B reaches A while FIRST(A) is still empty. */
  const Mutual: Grammar := Grammar(["A", "B"], map["A" := [["B", "a"], ["c"]], "B" := [["A", "b"]]])

  /** FIRST(A) and FIRST(B) entered empty, as `compute_first("B")` finds them inside `compute_first("A")`. */
  const Entered: SymbolSets := map["A" := {}, "B" := {}]

  /** `compute_first("B")` reads the unfinished, empty FIRST(A) and so adds nothing. */
  lemma MemoInnerB()
    ensures MemoFirst(Mutual, map["A" := {}], "B") == Entered
  {
    var g := Mutual;
    var f2 := Entered;
    assert MemoFirst(g, f2, "A") == f2;
    assert f2["B"] + (f2["A"] - {Epsilon}) == {};
    assert f2["B" := {}] == f2;
    assert MemoWalk(g, f2, "B", ["A", "b"], 0) == f2;
    assert MemoAlternatives(g, f2, "B", [["A", "b"]]) == f2 by {
      assert [["A", "b"]][1..] == [];
    }
    var f1: SymbolSets := map["A" := {}];
    assert f1["B" := {}] == f2;
  }

  /** `compute_first("A")` then adds "c" for `A -> c`; B keeps its empty entry. */
  lemma MemoOuterA()
    ensures MemoFirst(Mutual, map[], "A") == map["A" := {"c"}, "B" := {}]
  {
    var g := Mutual;
    var f1: SymbolSets := map["A" := {}];
    var f2 := Entered;
    var f3: SymbolSets := map["A" := {"c"}, "B" := {}];
    MemoInnerB();
    assert f2["A"] + (f2["B"] - {Epsilon}) == {};
    assert f2["A" := {}] == f2;
    assert MemoWalk(g, f1, "A", ["B", "a"], 0) == f2;
    assert "c" !in g.rules;
    assert f2["A"] + {"c"} == {"c"};
    assert f2["A" := {"c"}] == f3;
    assert MemoWalk(g, f2, "A", ["c"], 0) == f3;
    assert MemoAlternatives(g, f2, "A", [["c"]]) == f3 by {
      assert [["c"]][1..] == [];
    }
    assert MemoAlternatives(g, f1, "A", g.rules["A"]) == f3 by {
      assert g.rules["A"][1..] == [["c"]];
    }
    var f0: SymbolSets := map[];
    assert f0["A" := {}] == f1;
  }

  /** The FIRST sets put "c" in FIRST(A), and FIRST(A) without "ε" in FIRST(B). */
  lemma MutualFirstB()
    ensures "c" in Get(FirstSets(Mutual), "B")
  {
    FirstWalk(Mutual, "A", ["c"], 0);
    FirstWalk(Mutual, "B", ["A", "b"], 0);
  }

  /** On `Mutual` the memoised computation leaves FIRST(B) empty, although "c" is in FIRST(B). */
  lemma MemoUnderComputes()
    ensures WellFormed(Mutual)
    ensures MemoFirstSets(Mutual)["B"] == {}
    ensures "c" in Get(FirstSets(Mutual), "B")
    ensures MemoFirstSets(Mutual) != FirstSets(Mutual)
  {
    var g := Mutual;
    assert WellFormed(g) by {
      assert forall n :: n in g.rules <==> n in g.nonterminals;
    }
    var f3: SymbolSets := map["A" := {"c"}, "B" := {}];
    MemoOuterA();
    assert MemoAll(g, f3, ["B"]) == f3 by {
      assert MemoFirst(g, f3, "B") == f3;
      assert ["B"][1..] == [];
    }
    assert MemoFirstSets(g) == f3 by {
      assert g.nonterminals[1..] == ["B"];
    }
    MutualFirstB();
  }

  /** `E -> E a |`: E reaches itself while FIRST(E) is still empty. */
  const Direct: Grammar := Grammar(["E"], map["E" := [["E", "a"], []]])

  /** `compute_first("E")` reads its own empty entry for `E a`, and only the empty alternative adds "ε". */
  lemma MemoDirectE()
    ensures MemoFirst(Direct, map[], "E") == map["E" := {Epsilon}]
  {
    var g := Direct;
    var f1: SymbolSets := map["E" := {}];
    var f2: SymbolSets := map["E" := {Epsilon}];
    assert MemoFirst(g, f1, "E") == f1;
    assert f1["E"] + (f1["E"] - {Epsilon}) == {};
    assert f1["E" := {}] == f1;
    assert MemoWalk(g, f1, "E", ["E", "a"], 0) == f1;
    assert f1["E"] + {Epsilon} == {Epsilon};
    assert MemoWalk(g, f1, "E", [], 0) == f2;
    var last: seq<Rhs> := [[]];
    assert MemoAlternatives(g, f1, "E", last) == f2 by {
      assert last[1..] == [];
    }
    assert MemoAlternatives(g, f1, "E", g.rules["E"]) == f2 by {
      assert g.rules["E"][1..] == [[]];
    }
    var f0: SymbolSets := map[];
    assert f0["E" := {}] == f1;
  }

  /**
   * Direct left recursion loses symbols too, when the empty alternative comes
   * after the recursive one: the memoised FIRST(E) is {ε}, while "a" is in the
   * FIRST sets' FIRST(E).
   */
  lemma MemoDirectMisses()
    ensures WellFormed(Direct)
    ensures MemoFirstSets(Direct)["E"] == {Epsilon}
    ensures "a" in Get(FirstSets(Direct), "E")
    ensures MemoFirstSets(Direct) != FirstSets(Direct)
  {
    var g := Direct;
    assert WellFormed(g) by {
      assert forall n :: n in g.rules <==> n in g.nonterminals;
    }
    MemoDirectE();
    var f2: SymbolSets := map["E" := {Epsilon}];
    assert MemoAll(g, f2, []) == f2;
    assert MemoFirstSets(g) == f2 by {
      assert g.nonterminals[1..] == [];
    }
    FirstWalk(g, "E", [], 0);
    FirstWalk(g, "E", ["E", "a"], 1);
  }
}
