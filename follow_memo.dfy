/**
 * `compute_follow` as the script writes it: a memoised recursion over a
 * shared dictionary.  It enters FOLLOW(X) with "$" or nothing before scanning
 * the productions, and answers a call for a symbol that already has an entry
 * from the dictionary, finished or not.  When two FOLLOW sets include each
 * other, the one computed inside the other's scan can miss what the outer
 * scan finds afterwards; `MemoFollowMisses` exhibits a grammar where it does, and
 * `Follow.ComputeFollow` is the corrected computation the rest of the model
 * uses.
 */
module FollowMemo {
  import opened Grammars
  import opened First
  import opened Follow

  /** `compute_follow(symbol)` on the dictionary `follow`: the dictionary after the call. */
  function MemoFollow(g: Grammar, first: SymbolSets, follow: SymbolSets, symbol: Symbol): (r: SymbolSets)
    requires WellFormed(g) && follow.Keys <= g.rules.Keys && symbol in g.rules
    ensures follow.Keys <= r.Keys <= g.rules.Keys && symbol in r
    ensures symbol in follow ==> r == follow
    decreases g.rules.Keys - follow.Keys, 0, 0, 0
  {
    if symbol in follow then follow
    else MemoScan(g, first, follow[symbol := StartFollow(g, symbol)], symbol, g.nonterminals)
  }

  /** The loop over the left-hand sides `lhss` of the grammar, in key order. */
  function MemoScan(g: Grammar, first: SymbolSets, follow: SymbolSets, symbol: Symbol, lhss: seq<Symbol>): (r: SymbolSets)
    requires WellFormed(g) && follow.Keys <= g.rules.Keys && symbol in follow
    requires forall n :: n in lhss ==> n in g.rules
    ensures follow.Keys <= r.Keys <= g.rules.Keys
    decreases g.rules.Keys - follow.Keys, 3, |lhss|, 0
  {
    if lhss == [] then follow
    else
      var f := MemoRule(g, first, follow, symbol, lhss[0], g.rules[lhss[0]]);
      MemoScan(g, first, f, symbol, lhss[1..])
  }

  /** The loop over the productions `rhss` of `lhs`. */
  function MemoRule(g: Grammar, first: SymbolSets, follow: SymbolSets, symbol: Symbol, lhs: Symbol, rhss: seq<Rhs>): (r: SymbolSets)
    requires WellFormed(g) && follow.Keys <= g.rules.Keys && symbol in follow && lhs in g.rules
    ensures follow.Keys <= r.Keys <= g.rules.Keys
    decreases g.rules.Keys - follow.Keys, 2, |rhss|, 0
  {
    if rhss == [] then follow
    else
      var f := MemoRhs(g, first, follow, symbol, lhs, rhss[0], 0);
      MemoRule(g, first, f, symbol, lhs, rhss[1..])
  }

  /** The loop over the positions of one production from `i`; `compute_follow(lhs)` is a recursive call. */
  function MemoRhs(g: Grammar, first: SymbolSets, follow: SymbolSets, symbol: Symbol, lhs: Symbol, rhs: Rhs, i: nat): (r: SymbolSets)
    requires WellFormed(g) && follow.Keys <= g.rules.Keys && symbol in follow && lhs in g.rules && i <= |rhs|
    ensures follow.Keys <= r.Keys <= g.rules.Keys
    decreases g.rules.Keys - follow.Keys, 1, |rhs| - i, 0
  {
    if i == |rhs| then follow
    else if rhs[i] != symbol then MemoRhs(g, first, follow, symbol, lhs, rhs, i + 1)
    else if i + 1 < |rhs| then
      var next := rhs[i + 1];
      if next !in g.rules then MemoRhs(g, first, follow[symbol := follow[symbol] + {next}], symbol, lhs, rhs, i + 1)
      else
        var f := follow[symbol := follow[symbol] + (Get(first, next) - {Epsilon})];
        if Epsilon in Get(first, next) then
          var f' := MemoFollow(g, first, f, lhs);
          MemoRhs(g, first, f'[symbol := f'[symbol] + f'[lhs]], symbol, lhs, rhs, i + 1)
        else MemoRhs(g, first, f, symbol, lhs, rhs, i + 1)
    else if lhs != symbol then
      var f' := MemoFollow(g, first, follow, lhs);
      MemoRhs(g, first, f'[symbol := f'[symbol] + f'[lhs]], symbol, lhs, rhs, i + 1)
    else MemoRhs(g, first, follow, symbol, lhs, rhs, i + 1)
  }

  /** `for nt in grammar: compute_follow(nt)`, from `follow` over the symbols `ns`. */
  function MemoFollowAll(g: Grammar, first: SymbolSets, follow: SymbolSets, ns: seq<Symbol>): (r: SymbolSets)
    requires WellFormed(g) && follow.Keys <= g.rules.Keys && forall n :: n in ns ==> n in g.rules
    ensures follow.Keys <= r.Keys <= g.rules.Keys
    ensures forall n :: n in ns ==> n in r
    decreases |ns|
  {
    if ns == [] then follow else MemoFollowAll(g, first, MemoFollow(g, first, follow, ns[0]), ns[1..])
  }

  /** The dictionary the script's memoised FOLLOW computation leaves: one entry per nonterminal. */
  function MemoFollowSets(g: Grammar, first: SymbolSets): (r: SymbolSets)
    requires WellFormed(g)
    ensures r.Keys == g.rules.Keys
  {
    MemoFollowAll(g, first, map[], g.nonterminals)
  }

  // ----- scans that find nothing -----

  /** No production of `g` mentions `x`. */
  ghost predicate Unused(g: Grammar, x: Symbol) {
    forall n, rhs :: n in g.rules && rhs in g.rules[n] ==> x !in rhs
  }

  lemma {:induction false} RhsUnused(g: Grammar, first: SymbolSets, follow: SymbolSets, symbol: Symbol, lhs: Symbol, rhs: Rhs, i: nat)
    requires WellFormed(g) && follow.Keys <= g.rules.Keys && symbol in follow && lhs in g.rules && i <= |rhs|
    requires forall k :: i <= k < |rhs| ==> rhs[k] != symbol
    ensures MemoRhs(g, first, follow, symbol, lhs, rhs, i) == follow
    decreases |rhs| - i
  {
    if i < |rhs| {
      RhsUnused(g, first, follow, symbol, lhs, rhs, i + 1);
    }
  }

  lemma {:induction false} RuleUnused(g: Grammar, first: SymbolSets, follow: SymbolSets, symbol: Symbol, lhs: Symbol, rhss: seq<Rhs>)
    requires WellFormed(g) && follow.Keys <= g.rules.Keys && symbol in follow && lhs in g.rules
    requires forall rhs :: rhs in rhss ==> symbol !in rhs
    ensures MemoRule(g, first, follow, symbol, lhs, rhss) == follow
    decreases |rhss|
  {
    if rhss != [] {
      assert rhss[0] in rhss;
      assert forall k :: 0 <= k < |rhss[0]| ==> rhss[0][k] in rhss[0];
      RhsUnused(g, first, follow, symbol, lhs, rhss[0], 0);
      RuleUnused(g, first, follow, symbol, lhs, rhss[1..]);
    }
  }

  /** A scan for a symbol no production mentions leaves the dictionary as it is. */
  lemma {:induction false} ScanUnused(g: Grammar, first: SymbolSets, follow: SymbolSets, symbol: Symbol, lhss: seq<Symbol>)
    requires WellFormed(g) && follow.Keys <= g.rules.Keys && symbol in follow
    requires forall n :: n in lhss ==> n in g.rules
    requires Unused(g, symbol)
    ensures MemoScan(g, first, follow, symbol, lhss) == follow
    decreases |lhss|
  {
    if lhss != [] {
      RuleUnused(g, first, follow, symbol, lhss[0], g.rules[lhss[0]]);
      ScanUnused(g, first, follow, symbol, lhss[1..]);
    }
  }

  // ----- the counterexample -----

  /** `S -> B y`, `B -> A`, `A -> B`, `C -> B w`: FOLLOW(A) and FOLLOW(B) include each other. */
  ghost predicate Cycle(g: Grammar) {
    && g.nonterminals == ["S", "B", "A", "C"]
    && g.rules == map["S" := [["B", "y"]], "B" := [["A"]], "A" := [["B"]], "C" := [["B", "w"]]]
  }

  lemma CycleWellFormed(g: Grammar)
    requires Cycle(g)
    ensures WellFormed(g)
  {
    assert forall n :: n in g.rules <==> n in g.nonterminals;
  }

  /** In the scan for A, `B -> A` reads the unfinished FOLLOW(B) = {y}. */
  lemma MemoInnerB(g: Grammar, first: SymbolSets)
    requires Cycle(g)
    ensures WellFormed(g) && MemoRule(g, first, map["S" := {EndMarker}, "B" := {"y"}, "A" := {}], "A", "B", g.rules["B"])
                                 == map["S" := {EndMarker}, "B" := {"y"}, "A" := {"y"}]
  {
    CycleWellFormed(g);
    var f: SymbolSets := map["S" := {EndMarker}, "B" := {"y"}, "A" := {}];
    var f': SymbolSets := map["S" := {EndMarker}, "B" := {"y"}, "A" := {"y"}];
    assert MemoFollow(g, first, f, "B") == f;
    assert f["A"] + f["B"] == {"y"};
    assert f["A" := {"y"}] == f';
    RhsUnused(g, first, f', "A", "B", ["A"], 1);
    assert MemoRhs(g, first, f, "A", "B", ["A"], 0) == f';
    assert g.rules["B"][1..] == [];
  }

  /** `compute_follow("A")`, called inside the scan for B, reads FOLLOW(B) while it is only {y}. */
  lemma MemoInnerA(g: Grammar, first: SymbolSets)
    requires Cycle(g)
    ensures WellFormed(g) && MemoFollow(g, first, map["S" := {EndMarker}, "B" := {"y"}], "A")
                                 == map["S" := {EndMarker}, "B" := {"y"}, "A" := {"y"}]
  {
    CycleWellFormed(g);
    var f: SymbolSets := map["S" := {EndMarker}, "B" := {"y"}, "A" := {}];
    var f': SymbolSets := map["S" := {EndMarker}, "B" := {"y"}, "A" := {"y"}];
    var e: SymbolSets := map["S" := {EndMarker}, "B" := {"y"}];
    assert StartFollow(g, "A") == {};
    assert e["A" := {}] == f;
    RuleUnused(g, first, f, "A", "S", g.rules["S"]);
    MemoInnerB(g, first);
    RuleUnused(g, first, f', "A", "A", g.rules["A"]);
    RuleUnused(g, first, f', "A", "C", g.rules["C"]);
    assert MemoScan(g, first, f', "A", []) == f';
    assert MemoScan(g, first, f', "A", ["C"]) == f';
    assert MemoScan(g, first, f', "A", ["A", "C"]) == f';
    assert MemoScan(g, first, f, "A", ["B", "A", "C"]) == f';
    assert MemoScan(g, first, f, "A", g.nonterminals) == f';
  }

  /** In the scan for B, `S -> B y` adds y. */
  lemma MemoOuterS(g: Grammar, first: SymbolSets)
    requires Cycle(g)
    ensures WellFormed(g) && MemoRule(g, first, map["S" := {EndMarker}, "B" := {}], "B", "S", g.rules["S"])
                                 == map["S" := {EndMarker}, "B" := {"y"}]
  {
    CycleWellFormed(g);
    var f0: SymbolSets := map["S" := {EndMarker}, "B" := {}];
    var f1: SymbolSets := map["S" := {EndMarker}, "B" := {"y"}];
    assert "y" !in g.rules;
    assert f0["B"] + {"y"} == {"y"};
    assert f0["B" := {"y"}] == f1;
    RhsUnused(g, first, f1, "B", "S", ["B", "y"], 1);
    assert MemoRhs(g, first, f0, "B", "S", ["B", "y"], 0) == f1;
    assert g.rules["S"][1..] == [];
  }

  /** In the scan for B, `A -> B` runs `compute_follow("A")` and adds FOLLOW(A) = {y}. */
  lemma MemoOuterA(g: Grammar, first: SymbolSets)
    requires Cycle(g)
    ensures WellFormed(g) && MemoRule(g, first, map["S" := {EndMarker}, "B" := {"y"}], "B", "A", g.rules["A"])
                                 == map["S" := {EndMarker}, "B" := {"y"}, "A" := {"y"}]
  {
    CycleWellFormed(g);
    var f1: SymbolSets := map["S" := {EndMarker}, "B" := {"y"}];
    var f2: SymbolSets := map["S" := {EndMarker}, "B" := {"y"}, "A" := {"y"}];
    MemoInnerA(g, first);
    assert f2["B"] + f2["A"] == {"y"};
    assert f2["B" := {"y"}] == f2;
    assert MemoRhs(g, first, f2, "B", "A", ["B"], 1) == f2;
    assert MemoRhs(g, first, f1, "B", "A", ["B"], 0) == f2;
    assert g.rules["A"][1..] == [];
  }

  /** In the scan for B, `C -> B w` adds w. */
  lemma MemoOuterC(g: Grammar, first: SymbolSets)
    requires Cycle(g)
    ensures WellFormed(g) && MemoRule(g, first, map["S" := {EndMarker}, "B" := {"y"}, "A" := {"y"}], "B", "C", g.rules["C"])
                                 == map["S" := {EndMarker}, "B" := {"y", "w"}, "A" := {"y"}]
  {
    CycleWellFormed(g);
    var f2: SymbolSets := map["S" := {EndMarker}, "B" := {"y"}, "A" := {"y"}];
    var f3: SymbolSets := map["S" := {EndMarker}, "B" := {"y", "w"}, "A" := {"y"}];
    assert "w" !in g.rules;
    assert f2["B"] + {"w"} == {"y", "w"};
    assert f2["B" := {"y", "w"}] == f3;
    RhsUnused(g, first, f3, "B", "C", ["B", "w"], 1);
    assert MemoRhs(g, first, f2, "B", "C", ["B", "w"], 0) == f3;
    assert g.rules["C"][1..] == [];
  }

  /** `compute_follow("B")`: y from `S -> B y`, then FOLLOW(A) from `A -> B`, then w from `C -> B w`. */
  lemma MemoOuterB(g: Grammar, first: SymbolSets)
    requires Cycle(g)
    ensures WellFormed(g) && MemoFollow(g, first, map["S" := {EndMarker}], "B")
                                 == map["S" := {EndMarker}, "B" := {"y", "w"}, "A" := {"y"}]
  {
    CycleWellFormed(g);
    var e: SymbolSets := map["S" := {EndMarker}];
    var f0: SymbolSets := map["S" := {EndMarker}, "B" := {}];
    var f1: SymbolSets := map["S" := {EndMarker}, "B" := {"y"}];
    var f2: SymbolSets := map["S" := {EndMarker}, "B" := {"y"}, "A" := {"y"}];
    var f3: SymbolSets := map["S" := {EndMarker}, "B" := {"y", "w"}, "A" := {"y"}];
    assert StartFollow(g, "B") == {};
    assert e["B" := {}] == f0;
    MemoOuterS(g, first);
    RuleUnused(g, first, f1, "B", "B", g.rules["B"]);
    MemoOuterA(g, first);
    MemoOuterC(g, first);
    assert MemoScan(g, first, f3, "B", []) == f3;
    assert MemoScan(g, first, f2, "B", ["C"]) == f3;
    assert MemoScan(g, first, f1, "B", ["A", "C"]) == f3;
    assert MemoScan(g, first, f1, "B", ["B", "A", "C"]) == f3;
    assert MemoScan(g, first, f0, "B", g.nonterminals) == f3;
  }

  /** Neither S nor C appears in a production of `g`. */
  lemma CycleUnused(g: Grammar, x: Symbol)
    requires Cycle(g) && (x == "S" || x == "C")
    ensures Unused(g, x)
  {
    forall n, rhs | n in g.rules && rhs in g.rules[n] ensures x !in rhs {
      assert n == "S" || n == "B" || n == "A" || n == "C";
    }
  }

  /** `compute_follow("S")`: "$" for the start symbol, and no production mentions S. */
  lemma MemoStartS(g: Grammar, first: SymbolSets)
    requires Cycle(g)
    ensures WellFormed(g) && MemoFollow(g, first, map[], "S") == map["S" := {EndMarker}]
  {
    CycleWellFormed(g);
    var f0: SymbolSets := map[];
    var e: SymbolSets := map["S" := {EndMarker}];
    assert StartFollow(g, "S") == {EndMarker};
    assert f0["S" := {EndMarker}] == e;
    CycleUnused(g, "S");
    ScanUnused(g, first, e, "S", g.nonterminals);
  }

  /** `compute_follow("C")`: no production mentions C, so FOLLOW(C) stays empty. */
  lemma MemoLastC(g: Grammar, first: SymbolSets)
    requires Cycle(g)
    ensures WellFormed(g) && MemoFollow(g, first, map["S" := {EndMarker}, "B" := {"y", "w"}, "A" := {"y"}], "C")
                             == map["S" := {EndMarker}, "B" := {"y", "w"}, "A" := {"y"}, "C" := {}]
  {
    CycleWellFormed(g);
    var f3: SymbolSets := map["S" := {EndMarker}, "B" := {"y", "w"}, "A" := {"y"}];
    var f4: SymbolSets := map["S" := {EndMarker}, "B" := {"y", "w"}, "A" := {"y"}, "C" := {}];
    assert StartFollow(g, "C") == {};
    assert f3["C" := {}] == f4;
    CycleUnused(g, "C");
    ScanUnused(g, first, f4, "C", g.nonterminals);
  }

  /** The end of the script's loop: A is already entered, and C finds nothing. */
  lemma MemoTail(g: Grammar, first: SymbolSets)
    requires Cycle(g)
    ensures WellFormed(g) && MemoFollowAll(g, first, map["S" := {EndMarker}, "B" := {"y", "w"}, "A" := {"y"}], ["A", "C"])
                             == map["S" := {EndMarker}, "B" := {"y", "w"}, "A" := {"y"}, "C" := {}]
  {
    CycleWellFormed(g);
    var f3: SymbolSets := map["S" := {EndMarker}, "B" := {"y", "w"}, "A" := {"y"}];
    var f4: SymbolSets := map["S" := {EndMarker}, "B" := {"y", "w"}, "A" := {"y"}, "C" := {}];
    MemoLastC(g, first);
    assert MemoFollowAll(g, first, f4, []) == f4;
    assert MemoFollowAll(g, first, f3, ["C"]) == f4;
    assert ["A", "C"][1..] == ["C"];
  }

  /** The script's loop: S finds nothing, B is computed as above, A is memoised, C finds nothing. */
  lemma MemoCycleSets(g: Grammar, first: SymbolSets)
    requires Cycle(g)
    ensures WellFormed(g) && MemoFollowSets(g, first)
                             == map["S" := {EndMarker}, "B" := {"y", "w"}, "A" := {"y"}, "C" := {}]
  {
    CycleWellFormed(g);
    var f0: SymbolSets := map[];
    var e: SymbolSets := map["S" := {EndMarker}];
    var f3: SymbolSets := map["S" := {EndMarker}, "B" := {"y", "w"}, "A" := {"y"}];
    var f4: SymbolSets := map["S" := {EndMarker}, "B" := {"y", "w"}, "A" := {"y"}, "C" := {}];
    MemoStartS(g, first);
    MemoOuterB(g, first);
    MemoTail(g, first);
    assert MemoFollowAll(g, first, e, ["B", "A", "C"]) == f4;
    assert MemoFollowAll(g, first, f0, g.nonterminals) == f4;
  }

  /** The FOLLOW sets put w in FOLLOW(B) for `C -> B w`, and FOLLOW(B) in FOLLOW(A) for `B -> A`. */
  lemma CycleFollowA(g: Grammar, first: SymbolSets)
    requires Cycle(g)
    ensures "w" in Get(FollowSets(g, first), "A")
  {
    CycleWellFormed(g);
    FollowRules(g, first, "C", ["B", "w"], 0);
    FollowRules(g, first, "B", ["A"], 0);
  }

  /** On `Cycle` the memoised computation leaves w out of FOLLOW(A), although the FOLLOW sets put it there. */
  lemma MemoFollowMisses(g: Grammar, first: SymbolSets)
    requires Cycle(g)
    ensures WellFormed(g)
    ensures "w" !in MemoFollowSets(g, first)["A"]
    ensures "w" in Get(FollowSets(g, first), "A")
    ensures MemoFollowSets(g, first) != FollowSets(g, first)
  {
    MemoCycleSets(g, first);
    CycleFollowA(g, first);
  }
}
