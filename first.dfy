/**
 * FIRST sets of the nonterminals of the (unaugmented) grammar.  The
 * generator computes them by a memoised recursive walk that fills the
 * dictionary `first` in place; here they are the least sets closed under
 * the rules that walk applies, and the imperative computation repeats the
 * walk over every nonterminal until nothing changes.
 *
 * The empty string is the marker symbol "ε".  A production that is exactly
 * the one-symbol sequence [""] contributes "ε"; a production whose every
 * symbol is a nullable nonterminal (in particular the empty production)
 * contributes "ε" too.  A literal terminal spelled "ε" is added as itself,
 * and so coincides with the marker.
 */
module First {
  import opened Grammars

  /** The marker the generator uses for the empty string. */
  const Epsilon: Symbol := "ε"

  /** A set of symbols per nonterminal: the shape of the `first` and `follow` dictionaries. */
  type SymbolSets = map<Symbol, set<Symbol>>

  /** The set recorded for `x`; nothing is recorded for a symbol that is not a key. */
  function Get(f: SymbolSets, x: Symbol): set<Symbol> {
    if x in f then f[x] else {}
  }

  /** `f` records no more than `h` for any symbol. */
  ghost predicate Le(f: SymbolSets, h: SymbolSets) {
    forall x :: Get(f, x) <= Get(h, x)
  }

  /**
   * The walk over a right-hand side: a terminal is added and ends the walk;
   * a nonterminal adds its FIRST set without "ε" and the walk goes on only
   * when that set holds "ε"; running off the end adds "ε".
   */
  function SeqFirst(g: Grammar, f: SymbolSets, rhs: Rhs): set<Symbol>
    decreases |rhs|
  {
    if rhs == [] then {Epsilon}
    else if rhs[0] !in g.rules then {rhs[0]}
    else
      var sub := Get(f, rhs[0]);
      (sub - {Epsilon}) + if Epsilon in sub then SeqFirst(g, f, rhs[1..]) else {}
  }

  /** What one production adds to the FIRST set of its left-hand side. */
  function ProductionFirst(g: Grammar, f: SymbolSets, production: Rhs): set<Symbol> {
    if production == [""] then {Epsilon} else SeqFirst(g, f, production)
  }

  /** What all the alternatives of a nonterminal add. */
  function AlternativesFirst(g: Grammar, f: SymbolSets, productions: seq<Rhs>): set<Symbol> {
    set p, t | p in productions && t in ProductionFirst(g, f, p) :: t
  }

  /** Every production's contribution is already recorded for its left-hand side. */
  ghost predicate Closed(g: Grammar, f: SymbolSets) {
    forall n, p :: n in g.rules && p in g.rules[n] ==> ProductionFirst(g, f, p) <= Get(f, n)
  }

  /** The symbols before index `j` are nonterminals whose recorded set holds "ε". */
  ghost predicate NullablePrefix(g: Grammar, f: SymbolSets, rhs: Rhs, j: int)
    requires j <= |rhs|
  {
    forall k :: 0 <= k < j ==> rhs[k] in g.rules && Epsilon in Get(f, rhs[k])
  }

  /** What the walk adds at index `j`, once it gets there. */
  ghost predicate StepAdds(g: Grammar, f: SymbolSets, rhs: Rhs, j: int, t: Symbol)
    requires 0 <= j <= |rhs|
  {
    if j == |rhs| then t == Epsilon
    else if rhs[j] !in g.rules then t == rhs[j]
    else t in Get(f, rhs[j]) && t != Epsilon
  }

  /** The walk reaches index `j` of `rhs` and adds `t` there. */
  ghost predicate Adds(g: Grammar, f: SymbolSets, rhs: Rhs, j: int, t: Symbol) {
    0 <= j <= |rhs| && NullablePrefix(g, f, rhs, j) && StepAdds(g, f, rhs, j, t)
  }

  // ----- the least fixpoint -----

  /** Every symbol a FIRST set can hold: "ε" and the symbols of the productions. */
  function Vocabulary(g: Grammar): set<Symbol> {
    {Epsilon} + set n, p, y | n in g.rules && p in g.rules[n] && y in p :: y
  }

  ghost predicate Bounded(g: Grammar, f: SymbolSets) {
    f.Keys == g.rules.Keys && forall n :: n in f ==> f[n] <= Vocabulary(g)
  }

  /** The relation a dictionary of sets stands for. */
  function Pairs(f: SymbolSets): set<(Symbol, Symbol)> {
    set n, t | n in f && t in f[n] :: (n, t)
  }

  function Top(g: Grammar): SymbolSets {
    map n | n in g.rules :: Vocabulary(g)
  }

  /** One round: every nonterminal gets the contributions of all its alternatives. */
  function FirstStep(g: Grammar, f: SymbolSets): SymbolSets {
    map n | n in g.rules :: Get(f, n) + AlternativesFirst(g, f, g.rules[n])
  }

  /** Rounds from `f` until one adds nothing. */
  function FirstFrom(g: Grammar, f: SymbolSets): SymbolSets
    requires Bounded(g, f)
    decreases Pairs(Top(g)) - Pairs(f)
  {
    var next := FirstStep(g, f);
    if next == f then f
    else
      StepGrows(g, f);
      FirstFrom(g, next)
  }

  function Nothing(g: Grammar): SymbolSets {
    map n | n in g.rules :: {}
  }

  /** The FIRST sets of the grammar: the least dictionary closed under the walk. */
  function FirstSets(g: Grammar): SymbolSets {
    assert Bounded(g, Nothing(g));
    FirstFrom(g, Nothing(g))
  }

  // ----- facts about the walk -----

  /** The elements of a walk, each where the walk adds it. */
  lemma {:induction false} SeqFirstMembers(g: Grammar, f: SymbolSets, rhs: Rhs, t: Symbol)
    ensures t in SeqFirst(g, f, rhs) <==> exists j :: Adds(g, f, rhs, j, t)
    decreases |rhs|
  {
    if rhs == [] || rhs[0] !in g.rules {
      if t in SeqFirst(g, f, rhs) {
        assert Adds(g, f, rhs, 0, t);
      }
      forall j | Adds(g, f, rhs, j, t) ensures t in SeqFirst(g, f, rhs) {
        assert j == 0;
      }
    } else {
      var sub := Get(f, rhs[0]);
      var rest := rhs[1..];
      SeqFirstMembers(g, f, rest, t);
      if t in SeqFirst(g, f, rhs) {
        if t in sub - {Epsilon} {
          assert Adds(g, f, rhs, 0, t);
        } else {
          var j :| Adds(g, f, rest, j, t);
          assert Adds(g, f, rhs, j + 1, t) by {
            forall k | 0 <= k < j + 1 ensures rhs[k] in g.rules && Epsilon in Get(f, rhs[k]) {
              if k > 0 { assert rhs[k] == rest[k - 1]; }
            }
          }
        }
      }
      forall j | Adds(g, f, rhs, j, t) ensures t in SeqFirst(g, f, rhs) {
        if j > 0 {
          assert Adds(g, f, rest, j - 1, t) by {
            forall k | 0 <= k < j - 1 ensures rest[k] in g.rules && Epsilon in Get(f, rest[k]) {
              assert rest[k] == rhs[k + 1];
            }
          }
        }
      }
    }
  }

  /** Recording more makes every walk add more. */
  lemma {:induction false} SeqFirstMonotone(g: Grammar, f: SymbolSets, h: SymbolSets, rhs: Rhs)
    requires Le(f, h)
    ensures SeqFirst(g, f, rhs) <= SeqFirst(g, h, rhs)
    decreases |rhs|
  {
    if rhs != [] && rhs[0] in g.rules {
      assert Get(f, rhs[0]) <= Get(h, rhs[0]);
      SeqFirstMonotone(g, f, h, rhs[1..]);
    }
  }

  lemma AlternativesMonotone(g: Grammar, f: SymbolSets, h: SymbolSets, productions: seq<Rhs>)
    requires Le(f, h)
    ensures AlternativesFirst(g, f, productions) <= AlternativesFirst(g, h, productions)
  {
    forall t | t in AlternativesFirst(g, f, productions) ensures t in AlternativesFirst(g, h, productions) {
      var p :| p in productions && t in ProductionFirst(g, f, p);
      SeqFirstMonotone(g, f, h, p);
      assert t in ProductionFirst(g, h, p);
    }
  }

  /** A walk adds nothing outside "ε", its own symbols and what is recorded. */
  lemma {:induction false} SeqFirstWithin(g: Grammar, f: SymbolSets, rhs: Rhs, n: Symbol)
    requires Bounded(g, f)
    requires n in g.rules && rhs in g.rules[n]
    ensures ProductionFirst(g, f, rhs) <= Vocabulary(g)
  {
    if rhs != [""] {
      forall t | t in SeqFirst(g, f, rhs) ensures t in Vocabulary(g) {
        SeqFirstMembers(g, f, rhs, t);
        var j :| Adds(g, f, rhs, j, t);
        if j < |rhs| && rhs[j] !in g.rules {
          assert rhs[j] in rhs;
        }
      }
    }
  }

  lemma StepBounded(g: Grammar, f: SymbolSets)
    requires Bounded(g, f)
    ensures Bounded(g, FirstStep(g, f))
  {
    forall n, p | n in g.rules && p in g.rules[n] {
      SeqFirstWithin(g, f, p, n);
    }
  }

  lemma PairsLe(f: SymbolSets, h: SymbolSets)
    requires Le(f, h)
    ensures Pairs(f) <= Pairs(h)
  {
    forall n, t | n in f && t in f[n] ensures (n, t) in Pairs(h) {
      assert t in Get(f, n);
    }
  }

  lemma PairsGrow(f: SymbolSets, h: SymbolSets)
    requires Le(f, h) && f.Keys == h.Keys && f != h
    ensures Pairs(f) < Pairs(h)
  {
    PairsLe(f, h);
    var n :| n in f && f[n] != h[n];
    assert Get(f, n) <= Get(h, n);
    var t :| t in h[n] && t !in f[n];
    assert (n, t) in Pairs(h);
  }

  /** A round that adds something keeps the bound and moves closer to the top. */
  lemma StepGrows(g: Grammar, f: SymbolSets)
    requires Bounded(g, f) && FirstStep(g, f) != f
    ensures Bounded(g, FirstStep(g, f)) && Le(f, FirstStep(g, f))
    ensures Pairs(Top(g)) - Pairs(FirstStep(g, f)) < Pairs(Top(g)) - Pairs(f)
  {
    var next := FirstStep(g, f);
    StepBounded(g, f);
    PairsLe(f, next);
    PairsLe(next, Top(g));
    PairsGrow(f, next);
  }

  /** A round from below a closed dictionary stays below it. */
  lemma StepBelow(g: Grammar, f: SymbolSets, c: SymbolSets)
    requires Closed(g, c) && Le(f, c)
    ensures Le(FirstStep(g, f), c)
  {
    forall x ensures Get(FirstStep(g, f), x) <= Get(c, x) {
      if x in g.rules {
        AlternativesMonotone(g, f, c, g.rules[x]);
      }
    }
  }

  // ----- the fixpoint's properties -----

  /** Each round only adds, and keeps every set within the vocabulary. */
  lemma {:induction false} FirstFromFacts(g: Grammar, f: SymbolSets)
    requires Bounded(g, f)
    ensures Bounded(g, FirstFrom(g, f)) && Le(f, FirstFrom(g, f))
    ensures FirstStep(g, FirstFrom(g, f)) == FirstFrom(g, f)
    decreases Pairs(Top(g)) - Pairs(f)
  {
    var next := FirstStep(g, f);
    if next != f {
      StepGrows(g, f);
      FirstFromFacts(g, next);
    }
  }

  /** The FIRST sets hold every production's contribution. */
  lemma FirstSetsClosed(g: Grammar)
    ensures Bounded(g, FirstSets(g))
    ensures Closed(g, FirstSets(g))
  {
    var r := FirstSets(g);
    FirstFromFacts(g, Nothing(g));
    forall n, p | n in g.rules && p in g.rules[n] ensures ProductionFirst(g, r, p) <= Get(r, n) {
      assert Get(r, n) == FirstStep(g, r)[n];
    }
  }

  lemma {:induction false} FirstFromLeast(g: Grammar, f: SymbolSets, c: SymbolSets)
    requires Bounded(g, f) && Closed(g, c) && Le(f, c)
    ensures Le(FirstFrom(g, f), c)
    decreases Pairs(Top(g)) - Pairs(f)
  {
    var next := FirstStep(g, f);
    if next != f {
      StepGrows(g, f);
      StepBelow(g, f, c);
      FirstFromLeast(g, next, c);
    }
  }

  /** Any dictionary closed under the walk records at least the FIRST sets. */
  lemma FirstSetsLeast(g: Grammar, c: SymbolSets)
    requires Closed(g, c)
    ensures Le(FirstSets(g), c)
  {
    assert Bounded(g, Nothing(g));
    FirstFromLeast(g, Nothing(g), c);
  }

  /** Everything recorded is justified by some production as of the same dictionary. */
  ghost predicate Justified(g: Grammar, f: SymbolSets) {
    forall n :: n in f ==> n in g.rules && f[n] <= AlternativesFirst(g, f, g.rules[n])
  }

  lemma {:induction false} FirstFromJustified(g: Grammar, f: SymbolSets)
    requires Bounded(g, f) && Justified(g, f)
    ensures Justified(g, FirstFrom(g, f))
    decreases Pairs(Top(g)) - Pairs(f)
  {
    var next := FirstStep(g, f);
    if next != f {
      StepGrows(g, f);
      forall n | n in next ensures next[n] <= AlternativesFirst(g, next, g.rules[n]) {
        AlternativesMonotone(g, f, next, g.rules[n]);
      }
      FirstFromJustified(g, next);
    }
  }

  /** The FIRST set of a nonterminal is exactly what its alternatives add. */
  lemma FirstSetsExact(g: Grammar, n: Symbol)
    requires n in g.rules
    ensures Get(FirstSets(g), n) == AlternativesFirst(g, FirstSets(g), g.rules[n])
  {
    assert Bounded(g, Nothing(g));
    FirstFromJustified(g, Nothing(g));
    FirstSetsClosed(g);
    assert n in FirstSets(g);
  }

  /** What one production adds: "ε" for [""], otherwise what its walk adds somewhere. */
  ghost predicate ProductionAdds(g: Grammar, f: SymbolSets, p: Rhs, t: Symbol) {
    if p == [""] then t == Epsilon else exists j :: Adds(g, f, p, j, t)
  }

  /**
   * Membership in FIRST(n): some alternative is [""] and the symbol is "ε",
   * or the walk over some alternative reaches an index where it adds the symbol.
   */
  lemma FirstMembers(g: Grammar, n: Symbol, t: Symbol)
    requires n in g.rules
    ensures t in Get(FirstSets(g), n) <==> exists p :: p in g.rules[n] && ProductionAdds(g, FirstSets(g), p, t)
  {
    var r := FirstSets(g);
    FirstSetsExact(g, n);
    forall p | p in g.rules[n] ensures t in ProductionFirst(g, r, p) <==> ProductionAdds(g, r, p, t) {
      SeqFirstMembers(g, r, p, t);
    }
  }

  /**
   * A production whose first `j` symbols are nullable nonterminals puts into
   * FIRST of its left-hand side: the terminal at `j`, or FIRST of the
   * nonterminal at `j` without "ε", or "ε" when the whole production is nullable.
   */
  lemma FirstWalk(g: Grammar, n: Symbol, p: Rhs, j: nat)
    requires n in g.rules && p in g.rules[n] && p != [""]
    requires j <= |p| && NullablePrefix(g, FirstSets(g), p, j)
    ensures j == |p| ==> Epsilon in Get(FirstSets(g), n)
    ensures j < |p| && p[j] !in g.rules ==> p[j] in Get(FirstSets(g), n)
    ensures j < |p| && p[j] in g.rules ==> Get(FirstSets(g), p[j]) - {Epsilon} <= Get(FirstSets(g), n)
  {
    var r := FirstSets(g);
    FirstSetsClosed(g);
    assert ProductionFirst(g, r, p) <= Get(r, n);
    forall t | Adds(g, r, p, j, t) ensures t in Get(r, n) {
      SeqFirstMembers(g, r, p, t);
    }
  }

  /** A FIRST set holds only terminals and "ε". */
  lemma FirstTerminals(g: Grammar, n: Symbol, t: Symbol)
    requires t in Get(FirstSets(g), n)
    ensures t !in g.rules || t == Epsilon
  {
    var r := FirstSets(g);
    var c := map m | m in r :: set u | u in r[m] && (u !in g.rules || u == Epsilon);
    FirstSetsClosed(g);
    assert Le(c, r);
    forall m, p | m in g.rules && p in g.rules[m] ensures ProductionFirst(g, c, p) <= Get(c, m) {
      assert ProductionFirst(g, r, p) <= Get(r, m);
      if p != [""] {
        SeqFirstMonotone(g, c, r, p);
        forall u | u in SeqFirst(g, c, p) ensures u in Get(c, m) {
          SeqFirstMembers(g, c, p, u);
          var j :| Adds(g, c, p, j, u);
          assert u !in g.rules || u == Epsilon;
        }
      }
    }
    FirstSetsLeast(g, c);
  }

  // ----- the computation -----

  /**
   * The walk of `compute_first` over one production of `symbol`, adding to
   * `first[symbol]` as it goes.  Reading `first[sub]` while it grows is the
   * same as reading it before the walk: only the walk's last step can add "ε".
   */
  method AddProductionFirst(g: Grammar, symbol: Symbol, production: Rhs, first: SymbolSets)
    returns (first': SymbolSets)
    requires symbol in first
    ensures first' == first[symbol := first[symbol] + ProductionFirst(g, first, production)]
  {
    first' := first;
    if production == [""] {
      first' := first'[symbol := first'[symbol] + {Epsilon}];
      return;
    }
    ghost var added: set<Symbol> := {};
    assert first[symbol] + added == first[symbol];
    assert first == first[symbol := first[symbol] + added];
    var j := 0;
    var stopped := false;
    while j < |production| && !stopped
      invariant 0 <= j <= |production|
      invariant first' == first[symbol := first[symbol] + added]
      invariant !stopped ==> Epsilon !in added
      invariant !stopped ==> SeqFirst(g, first, production) == added + SeqFirst(g, first, production[j..])
      invariant stopped ==> SeqFirst(g, first, production) == added
      decreases |production| - j, !stopped
    {
      var sub := production[j];
      assert production[j..][1..] == production[j + 1..];
      if sub !in g.rules {
        assert first'[symbol] + {sub} == first[symbol] + (added + {sub});
        first' := first'[symbol := first'[symbol] + {sub}];
        added := added + {sub};
        stopped := true;
      } else {
        var subFirst := Get(first', sub);
        ghost var recorded := Get(first, sub);
        assert subFirst == recorded + (if sub == symbol then added else {});
        assert Epsilon in subFirst <==> Epsilon in recorded;
        assert first'[symbol] + (subFirst - {Epsilon}) == first[symbol] + (added + (recorded - {Epsilon}));
        first' := first'[symbol := first'[symbol] + (subFirst - {Epsilon})];
        added := added + (recorded - {Epsilon});
        if Epsilon !in subFirst {
          stopped := true;
        } else {
          j := j + 1;
        }
      }
    }
    if !stopped {
      assert production[j..] == [];
      assert first'[symbol] + {Epsilon} == first[symbol] + (added + {Epsilon});
      first' := first'[symbol := first'[symbol] + {Epsilon}];
    }
  }

  /** Adding a production's contribution keeps the dictionary below any closed dictionary. */
  lemma AddBelow(g: Grammar, symbol: Symbol, production: Rhs, f: SymbolSets, bound: SymbolSets)
    requires symbol in g.rules && production in g.rules[symbol] && symbol in f
    requires Closed(g, bound) && Le(f, bound)
    ensures Le(f[symbol := f[symbol] + ProductionFirst(g, f, production)], bound)
  {
    SeqFirstMonotone(g, f, bound, production);
    assert ProductionFirst(g, bound, production) <= Get(bound, symbol);
    assert Get(f, symbol) <= Get(bound, symbol);
    var f' := f[symbol := f[symbol] + ProductionFirst(g, f, production)];
    forall x ensures Get(f', x) <= Get(bound, x) {
      assert Get(f, x) <= Get(bound, x);
    }
  }

  /** The first `k` productions of `n` have their contributions recorded. */
  ghost predicate ClosedAt(g: Grammar, f: SymbolSets, n: Symbol, k: nat)
    requires n in g.rules && k <= |g.rules[n]|
  {
    forall i :: 0 <= i < k ==> ProductionFirst(g, f, g.rules[n][i]) <= Get(f, n)
  }

  /**
   * The body of `compute_first(symbol)`: every production of `symbol` walked
   * in order.  It only adds to `first[symbol]`, never beyond the FIRST sets,
   * and adds nothing exactly when every production's contribution is there.
   */
  method ComputeFirstOf(g: Grammar, symbol: Symbol, first: SymbolSets, ghost bound: SymbolSets)
    returns (first': SymbolSets)
    requires symbol in g.rules && symbol in first && Closed(g, bound)
    ensures symbol in first' && first' == first[symbol := first'[symbol]]
    ensures first[symbol] <= first'[symbol]
    ensures Le(first, bound) ==> Le(first', bound)
    ensures first'[symbol] == first[symbol] <==> ClosedAt(g, first, symbol, |g.rules[symbol]|)
  {
    var productions := g.rules[symbol];
    first' := first;
    for k := 0 to |productions|
      invariant symbol in first'
      invariant first' == first[symbol := first'[symbol]]
      invariant first[symbol] <= first'[symbol]
      invariant Le(first, bound) ==> Le(first', bound)
      invariant first'[symbol] == first[symbol] <==> ClosedAt(g, first, symbol, k)
    {
      if Le(first, bound) {
        AddBelow(g, symbol, productions[k], first', bound);
      }
      ghost var before := first';
      first' := AddProductionFirst(g, symbol, productions[k], first');
      if first'[symbol] == first[symbol] {
        assert before == first;
      }
    }
  }

  /** The first `i` nonterminals in dictionary order have all their contributions recorded. */
  ghost predicate PassDone(g: Grammar, f: SymbolSets, i: int)
    requires WellFormed(g) && i <= |g.nonterminals|
  {
    forall k :: 0 <= k < i ==> ClosedAt(g, f, g.nonterminals[k], |g.rules[g.nonterminals[k]]|)
  }

  lemma PassDoneStep(g: Grammar, f: SymbolSets, i: nat)
    requires WellFormed(g) && i < |g.nonterminals| && PassDone(g, f, i)
    requires ClosedAt(g, f, g.nonterminals[i], |g.rules[g.nonterminals[i]]|)
    ensures PassDone(g, f, i + 1)
  {
  }

  lemma PassClosed(g: Grammar, f: SymbolSets)
    requires WellFormed(g) && PassDone(g, f, |g.nonterminals|)
    ensures Closed(g, f)
  {
    forall n, p | n in g.rules && p in g.rules[n] ensures ProductionFirst(g, f, p) <= Get(f, n) {
      var k :| 0 <= k < |g.nonterminals| && g.nonterminals[k] == n;
      var i :| 0 <= i < |g.rules[n]| && g.rules[n][i] == p;
      assert ClosedAt(g, f, n, |g.rules[n]|);
    }
  }

  lemma UpdateSame(f: SymbolSets, n: Symbol)
    requires n in f
    ensures f[n := f[n]] == f
  {
  }

  lemma UpdateTwice(f: SymbolSets, n: Symbol, a: set<Symbol>, b: set<Symbol>)
    ensures f[n := a][n := b] == f[n := b]
  {
  }

  lemma LeUpdate(f: SymbolSets, n: Symbol, s: set<Symbol>)
    requires n in f && f[n] <= s
    ensures Le(f, f[n := s])
  {
    forall x ensures Get(f, x) <= Get(f[n := s], x) {
    }
  }

  /**
   * One pass of `for nt in grammar: compute_first(nt)`, reporting whether it
   * added anything.  A pass that adds nothing finds every contribution recorded.
   */
  method FirstPass(g: Grammar, first: SymbolSets, ghost bound: SymbolSets) returns (first': SymbolSets, changed: bool)
    requires WellFormed(g) && first.Keys == g.rules.Keys && Closed(g, bound)
    ensures first'.Keys == first.Keys
    ensures Le(first, first')
    ensures Le(first, bound) ==> Le(first', bound)
    ensures changed ==> Pairs(first) < Pairs(first')
    ensures !changed ==> first' == first && Closed(g, first)
  {
    first' := first;
    changed := false;
    for i := 0 to |g.nonterminals|
      invariant first'.Keys == g.rules.Keys
      invariant Le(first, first')
      invariant Le(first, bound) ==> Le(first', bound)
      invariant changed ==> Pairs(first) < Pairs(first')
      invariant !changed ==> first' == first && PassDone(g, first, i)
    {
      var symbol := g.nonterminals[i];
      var before := first'[symbol];
      ghost var previous := first';
      first' := ComputeFirstOf(g, symbol, first', bound);
      LeUpdate(previous, symbol, first'[symbol]);
      PairsLe(previous, first');
      if first'[symbol] != before {
        PairsLe(first, previous);
        PairsGrow(previous, first');
        changed := true;
      } else if !changed {
        PassDoneStep(g, first, i);
      }
    }
    if !changed {
      PassClosed(g, first);
    }
  }

  /**
   * `compute_first` for every nonterminal in dictionary order, repeated until
   * a whole pass adds nothing: the result is the FIRST sets.
   */
  method ComputeFirst(g: Grammar) returns (first: SymbolSets)
    requires WellFormed(g)
    ensures first == FirstSets(g)
  {
    ghost var least := FirstSets(g);
    FirstSetsClosed(g);
    first := Nothing(g);
    var changed := true;
    while changed
      invariant first.Keys == g.rules.Keys
      invariant Le(first, least)
      invariant !changed ==> Closed(g, first)
      decreases Pairs(least) - Pairs(first), changed
    {
      first, changed := FirstPass(g, first, least);
      PairsLe(first, least);
    }
    FirstSetsLeast(g, first);
    LeAntisymmetric(first, least);
  }

  lemma LeAntisymmetric(f: SymbolSets, h: SymbolSets)
    requires Le(f, h) && Le(h, f) && f.Keys == h.Keys
    ensures f == h
  {
    forall x | x in f ensures f[x] == h[x] {
      assert Get(f, x) == Get(h, x);
    }
  }
}
