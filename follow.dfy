/**
 * FOLLOW sets of the nonterminals of the (unaugmented) grammar, given the
 * FIRST dictionary.  The generator computes them by a memoised recursive
 * scan over every occurrence of a nonterminal in every production; here
 * they are the least sets closed under the rules that scan applies, and
 * the imperative computation repeats the scan over every nonterminal
 * until nothing changes.
 *
 * The scan looks at the one symbol after an occurrence only: a terminal
 * there is added; a nonterminal there adds its FIRST set without "ε" and,
 * when that FIRST set holds "ε", the FOLLOW set of the production's
 * left-hand side.  An occurrence at the end of a production adds the
 * FOLLOW set of the left-hand side unless it is the left-hand side itself.
 * The first nonterminal in dictionary order gets the end marker "$".
 */
module Follow {
  import opened Grammars
  import opened First

  /** The end-of-input marker. */
  const EndMarker: Symbol := "$"

  /** What the occurrence of `rhs[i]` in a production of `lhs` adds to FOLLOW(rhs[i]). */
  function OccurrenceFollow(g: Grammar, first: SymbolSets, f: SymbolSets, lhs: Symbol, rhs: Rhs, i: int): set<Symbol>
    requires 0 <= i < |rhs|
  {
    if i + 1 < |rhs| then
      var next := rhs[i + 1];
      if next !in g.rules then {next}
      else (Get(first, next) - {Epsilon}) + if Epsilon in Get(first, next) then Get(f, lhs) else {}
    else if lhs != rhs[i] then Get(f, lhs)
    else {}
  }

  /** What the occurrences of `symbol` among the first `k` symbols of `rhs` add. */
  function RhsFollow(g: Grammar, first: SymbolSets, f: SymbolSets, symbol: Symbol, lhs: Symbol, rhs: Rhs, k: int): set<Symbol>
    requires 0 <= k <= |rhs|
    decreases k
  {
    if k == 0 then {}
    else
      RhsFollow(g, first, f, symbol, lhs, rhs, k - 1)
        + if rhs[k - 1] == symbol then OccurrenceFollow(g, first, f, lhs, rhs, k - 1) else {}
  }

  /** What the occurrences of `symbol` in the alternatives `rhss` of `lhs` add. */
  function RuleFollow(g: Grammar, first: SymbolSets, f: SymbolSets, symbol: Symbol, lhs: Symbol, rhss: seq<Rhs>): set<Symbol>
    decreases |rhss|
  {
    if rhss == [] then {}
    else
      var rhs := rhss[|rhss| - 1];
      RuleFollow(g, first, f, symbol, lhs, rhss[..|rhss| - 1]) + RhsFollow(g, first, f, symbol, lhs, rhs, |rhs|)
  }

  /** What the occurrences of `symbol` in the rules of the nonterminals `lhss` add. */
  function GrammarFollow(g: Grammar, first: SymbolSets, f: SymbolSets, symbol: Symbol, lhss: seq<Symbol>): set<Symbol>
    decreases |lhss|
  {
    if lhss == [] then {}
    else
      var lhs := lhss[|lhss| - 1];
      GrammarFollow(g, first, f, symbol, lhss[..|lhss| - 1])
        + if lhs in g.rules then RuleFollow(g, first, f, symbol, lhs, g.rules[lhs]) else {}
  }

  /** The end marker, for the first nonterminal in dictionary order. */
  function StartFollow(g: Grammar, symbol: Symbol): set<Symbol> {
    if g.nonterminals != [] && symbol == g.nonterminals[0] then {EndMarker} else {}
  }

  /** Everything one scan for `symbol` adds. */
  function SymbolFollow(g: Grammar, first: SymbolSets, f: SymbolSets, symbol: Symbol): set<Symbol> {
    StartFollow(g, symbol) + GrammarFollow(g, first, f, symbol, g.nonterminals)
  }

  /** Every scan's result is already recorded. */
  ghost predicate FollowClosed(g: Grammar, first: SymbolSets, f: SymbolSets) {
    forall x :: x in g.rules ==> SymbolFollow(g, first, f, x) <= Get(f, x)
  }

  // ----- the least fixpoint -----

  function Values(f: SymbolSets): set<Symbol> {
    set n, t | n in f && t in f[n] :: t
  }

  /** Every symbol a FOLLOW set can hold. */
  function FollowVocabulary(g: Grammar, first: SymbolSets): set<Symbol> {
    {EndMarker} + Vocabulary(g) + Values(first)
  }

  ghost predicate FollowBounded(g: Grammar, first: SymbolSets, f: SymbolSets) {
    f.Keys == g.rules.Keys && forall n :: n in f ==> f[n] <= FollowVocabulary(g, first)
  }

  function FollowTop(g: Grammar, first: SymbolSets): SymbolSets {
    map n | n in g.rules :: FollowVocabulary(g, first)
  }

  /** One round: every nonterminal gets what its scan adds. */
  function FollowStep(g: Grammar, first: SymbolSets, f: SymbolSets): SymbolSets {
    map x | x in g.rules :: Get(f, x) + SymbolFollow(g, first, f, x)
  }

  /** Rounds from `f` until one adds nothing. */
  function FollowFrom(g: Grammar, first: SymbolSets, f: SymbolSets): SymbolSets
    requires FollowBounded(g, first, f)
    decreases Pairs(FollowTop(g, first)) - Pairs(f)
  {
    var next := FollowStep(g, first, f);
    if next == f then f
    else
      FollowStepGrows(g, first, f);
      FollowFrom(g, first, next)
  }

  /** The FOLLOW sets: the least dictionary closed under the scan. */
  function FollowSets(g: Grammar, first: SymbolSets): SymbolSets {
    assert FollowBounded(g, first, Nothing(g));
    FollowFrom(g, first, Nothing(g))
  }

  // ----- facts about one scan -----

  /** `rhs[i]` is an occurrence of `x` in a production of `lhs`. */
  ghost predicate Occurs(g: Grammar, x: Symbol, lhs: Symbol, rhs: Rhs, i: int) {
    lhs in g.nonterminals && lhs in g.rules && rhs in g.rules[lhs] && 0 <= i < |rhs| && rhs[i] == x
  }

  lemma {:induction false} RhsFollowMembers(g: Grammar, first: SymbolSets, f: SymbolSets, symbol: Symbol,
                                            lhs: Symbol, rhs: Rhs, k: int, t: Symbol)
    requires 0 <= k <= |rhs|
    ensures t in RhsFollow(g, first, f, symbol, lhs, rhs, k) <==>
      exists i :: 0 <= i < k && rhs[i] == symbol && t in OccurrenceFollow(g, first, f, lhs, rhs, i)
    decreases k
  {
    if k > 0 {
      RhsFollowMembers(g, first, f, symbol, lhs, rhs, k - 1, t);
    }
  }

  lemma {:induction false} RuleFollowMembers(g: Grammar, first: SymbolSets, f: SymbolSets, symbol: Symbol,
                                             lhs: Symbol, rhss: seq<Rhs>, t: Symbol)
    ensures t in RuleFollow(g, first, f, symbol, lhs, rhss) <==>
      exists rhs :: rhs in rhss && t in RhsFollow(g, first, f, symbol, lhs, rhs, |rhs|)
    decreases |rhss|
  {
    if rhss != [] {
      var init := rhss[..|rhss| - 1];
      RuleFollowMembers(g, first, f, symbol, lhs, init, t);
      assert forall rhs :: rhs in rhss <==> rhs in init || rhs == rhss[|rhss| - 1] by {
        assert rhss == init + [rhss[|rhss| - 1]];
      }
    }
  }

  lemma {:induction false} GrammarFollowMembers(g: Grammar, first: SymbolSets, f: SymbolSets, symbol: Symbol,
                                                lhss: seq<Symbol>, t: Symbol)
    ensures t in GrammarFollow(g, first, f, symbol, lhss) <==>
      exists lhs :: lhs in lhss && lhs in g.rules && t in RuleFollow(g, first, f, symbol, lhs, g.rules[lhs])
    decreases |lhss|
  {
    if lhss != [] {
      var init := lhss[..|lhss| - 1];
      GrammarFollowMembers(g, first, f, symbol, init, t);
      assert forall lhs :: lhs in lhss <==> lhs in init || lhs == lhss[|lhss| - 1] by {
        assert lhss == init + [lhss[|lhss| - 1]];
      }
    }
  }

  /** Membership in one scan's result: the end marker, or what some occurrence adds. */
  lemma SymbolFollowMembers(g: Grammar, first: SymbolSets, f: SymbolSets, x: Symbol, t: Symbol)
    ensures t in SymbolFollow(g, first, f, x) <==>
      || t in StartFollow(g, x)
      || exists lhs, rhs, i :: Occurs(g, x, lhs, rhs, i) && t in OccurrenceFollow(g, first, f, lhs, rhs, i)
  {
    GrammarFollowMembers(g, first, f, x, g.nonterminals, t);
    if t in GrammarFollow(g, first, f, x, g.nonterminals) {
      var lhs :| lhs in g.nonterminals && lhs in g.rules && t in RuleFollow(g, first, f, x, lhs, g.rules[lhs]);
      RuleFollowMembers(g, first, f, x, lhs, g.rules[lhs], t);
      var rhs :| rhs in g.rules[lhs] && t in RhsFollow(g, first, f, x, lhs, rhs, |rhs|);
      RhsFollowMembers(g, first, f, x, lhs, rhs, |rhs|, t);
      var i :| 0 <= i < |rhs| && rhs[i] == x && t in OccurrenceFollow(g, first, f, lhs, rhs, i);
      assert Occurs(g, x, lhs, rhs, i);
    }
    forall lhs, rhs, i | Occurs(g, x, lhs, rhs, i) && t in OccurrenceFollow(g, first, f, lhs, rhs, i)
      ensures t in GrammarFollow(g, first, f, x, g.nonterminals)
    {
      RhsFollowMembers(g, first, f, x, lhs, rhs, |rhs|, t);
      RuleFollowMembers(g, first, f, x, lhs, g.rules[lhs], t);
    }
  }

  lemma SymbolFollowMonotone(g: Grammar, first: SymbolSets, f: SymbolSets, h: SymbolSets, x: Symbol)
    requires Le(f, h)
    ensures SymbolFollow(g, first, f, x) <= SymbolFollow(g, first, h, x)
  {
    forall t | t in SymbolFollow(g, first, f, x) ensures t in SymbolFollow(g, first, h, x) {
      SymbolFollowMembers(g, first, f, x, t);
      SymbolFollowMembers(g, first, h, x, t);
      if t !in StartFollow(g, x) {
        var lhs, rhs, i :| Occurs(g, x, lhs, rhs, i) && t in OccurrenceFollow(g, first, f, lhs, rhs, i);
        assert Get(f, lhs) <= Get(h, lhs);
        assert t in OccurrenceFollow(g, first, h, lhs, rhs, i);
      }
    }
  }

  lemma SymbolFollowWithin(g: Grammar, first: SymbolSets, f: SymbolSets, x: Symbol)
    requires FollowBounded(g, first, f)
    ensures SymbolFollow(g, first, f, x) <= FollowVocabulary(g, first)
  {
    forall t | t in SymbolFollow(g, first, f, x) ensures t in FollowVocabulary(g, first) {
      SymbolFollowMembers(g, first, f, x, t);
      if t !in StartFollow(g, x) {
        var lhs, rhs, i :| Occurs(g, x, lhs, rhs, i) && t in OccurrenceFollow(g, first, f, lhs, rhs, i);
        if i + 1 < |rhs| {
          var next := rhs[i + 1];
          if next !in g.rules {
            assert next in rhs;
          } else if t in Get(first, next) {
            assert next in first;
          }
        }
      }
    }
  }

  lemma FollowStepFacts(g: Grammar, first: SymbolSets, f: SymbolSets)
    requires FollowBounded(g, first, f)
    ensures FollowBounded(g, first, FollowStep(g, first, f))
    ensures Le(f, FollowStep(g, first, f))
    ensures Pairs(f) <= Pairs(FollowStep(g, first, f))
  {
    var next := FollowStep(g, first, f);
    forall x | x in g.rules {
      SymbolFollowWithin(g, first, f, x);
    }
    assert Le(f, next) by {
      forall x ensures Get(f, x) <= Get(next, x) {
      }
    }
    PairsLe(f, next);
  }

  /** A round that adds something keeps the bound and moves closer to the top. */
  lemma FollowStepGrows(g: Grammar, first: SymbolSets, f: SymbolSets)
    requires FollowBounded(g, first, f) && FollowStep(g, first, f) != f
    ensures FollowBounded(g, first, FollowStep(g, first, f)) && Le(f, FollowStep(g, first, f))
    ensures Pairs(FollowTop(g, first)) - Pairs(FollowStep(g, first, f)) < Pairs(FollowTop(g, first)) - Pairs(f)
  {
    var next := FollowStep(g, first, f);
    FollowStepFacts(g, first, f);
    PairsLe(next, FollowTop(g, first));
    PairsGrow(f, next);
  }

  /** A round from below a closed dictionary stays below it. */
  lemma FollowStepBelow(g: Grammar, first: SymbolSets, f: SymbolSets, c: SymbolSets)
    requires FollowClosed(g, first, c) && Le(f, c)
    ensures Le(FollowStep(g, first, f), c)
  {
    forall x ensures Get(FollowStep(g, first, f), x) <= Get(c, x) {
      if x in g.rules {
        SymbolFollowMonotone(g, first, f, c, x);
      }
    }
  }

  // ----- the fixpoint's properties -----

  lemma {:induction false} FollowFromFacts(g: Grammar, first: SymbolSets, f: SymbolSets)
    requires FollowBounded(g, first, f)
    ensures FollowBounded(g, first, FollowFrom(g, first, f))
    ensures FollowStep(g, first, FollowFrom(g, first, f)) == FollowFrom(g, first, f)
    decreases Pairs(FollowTop(g, first)) - Pairs(f)
  {
    var next := FollowStep(g, first, f);
    if next != f {
      FollowStepGrows(g, first, f);
      FollowFromFacts(g, first, next);
    }
  }

  /** The FOLLOW sets hold what every scan adds. */
  lemma FollowSetsClosed(g: Grammar, first: SymbolSets)
    ensures FollowBounded(g, first, FollowSets(g, first))
    ensures FollowClosed(g, first, FollowSets(g, first))
  {
    var r := FollowSets(g, first);
    assert FollowBounded(g, first, Nothing(g));
    FollowFromFacts(g, first, Nothing(g));
    forall x | x in g.rules ensures SymbolFollow(g, first, r, x) <= Get(r, x) {
      assert Get(r, x) == FollowStep(g, first, r)[x];
    }
  }

  lemma {:induction false} FollowFromLeast(g: Grammar, first: SymbolSets, f: SymbolSets, c: SymbolSets)
    requires FollowBounded(g, first, f) && FollowClosed(g, first, c) && Le(f, c)
    ensures Le(FollowFrom(g, first, f), c)
    decreases Pairs(FollowTop(g, first)) - Pairs(f)
  {
    var next := FollowStep(g, first, f);
    if next != f {
      FollowStepGrows(g, first, f);
      FollowStepBelow(g, first, f, c);
      FollowFromLeast(g, first, next, c);
    }
  }

  /** Any dictionary closed under the scan records at least the FOLLOW sets. */
  lemma FollowSetsLeast(g: Grammar, first: SymbolSets, c: SymbolSets)
    requires FollowClosed(g, first, c)
    ensures Le(FollowSets(g, first), c)
  {
    assert FollowBounded(g, first, Nothing(g));
    FollowFromLeast(g, first, Nothing(g), c);
  }

  ghost predicate FollowJustified(g: Grammar, first: SymbolSets, f: SymbolSets) {
    forall x :: x in f ==> f[x] <= SymbolFollow(g, first, f, x)
  }

  lemma {:induction false} FollowFromJustified(g: Grammar, first: SymbolSets, f: SymbolSets)
    requires FollowBounded(g, first, f) && FollowJustified(g, first, f)
    ensures FollowJustified(g, first, FollowFrom(g, first, f))
    decreases Pairs(FollowTop(g, first)) - Pairs(f)
  {
    var next := FollowStep(g, first, f);
    if next != f {
      FollowStepGrows(g, first, f);
      forall x | x in next ensures next[x] <= SymbolFollow(g, first, next, x) {
        SymbolFollowMonotone(g, first, f, next, x);
      }
      FollowFromJustified(g, first, next);
    }
  }

  /** The FOLLOW set of a nonterminal is exactly what its scan adds. */
  lemma FollowSetsExact(g: Grammar, first: SymbolSets, x: Symbol)
    requires x in g.rules
    ensures Get(FollowSets(g, first), x) == SymbolFollow(g, first, FollowSets(g, first), x)
  {
    assert FollowBounded(g, first, Nothing(g));
    FollowFromJustified(g, first, Nothing(g));
    FollowSetsClosed(g, first);
    assert x in FollowSets(g, first);
  }

  /** The first nonterminal in dictionary order is followed by the end marker. */
  lemma FollowStart(g: Grammar, first: SymbolSets)
    requires WellFormed(g) && g.nonterminals != []
    ensures EndMarker in Get(FollowSets(g, first), g.nonterminals[0])
  {
    FollowSetsClosed(g, first);
    assert g.nonterminals[0] in g.rules;
  }

  /**
   * The four rules of the scan, for the occurrence of nonterminal `rhs[i]`
   * in a production of `lhs`: a terminal after it, FIRST of a nonterminal
   * after it without "ε", FOLLOW of `lhs` when that FIRST holds "ε", and
   * FOLLOW of `lhs` when the occurrence ends the production.
   */
  lemma FollowRules(g: Grammar, first: SymbolSets, lhs: Symbol, rhs: Rhs, i: nat)
    requires WellFormed(g) && lhs in g.rules && rhs in g.rules[lhs]
    requires i < |rhs| && rhs[i] in g.rules
    ensures
      var follow := FollowSets(g, first);
      && (i + 1 < |rhs| && rhs[i + 1] !in g.rules ==> rhs[i + 1] in Get(follow, rhs[i]))
      && (i + 1 < |rhs| && rhs[i + 1] in g.rules ==> Get(first, rhs[i + 1]) - {Epsilon} <= Get(follow, rhs[i]))
      && (i + 1 < |rhs| && rhs[i + 1] in g.rules && Epsilon in Get(first, rhs[i + 1]) ==>
            Get(follow, lhs) <= Get(follow, rhs[i]))
      && (i + 1 == |rhs| ==> Get(follow, lhs) <= Get(follow, rhs[i]))
  {
    var follow := FollowSets(g, first);
    var x := rhs[i];
    FollowSetsClosed(g, first);
    forall t | t in OccurrenceFollow(g, first, follow, lhs, rhs, i) ensures t in Get(follow, x) {
      assert Occurs(g, x, lhs, rhs, i);
      SymbolFollowMembers(g, first, follow, x, t);
    }
  }

  /** Every set of `f` holds only terminals and the end marker. */
  ghost predicate OnlyTerminals(g: Grammar, f: SymbolSets) {
    forall x, u :: x in f && u in f[x] ==> u !in g.rules || u == EndMarker
  }

  lemma OccurrenceTerminals(g: Grammar, f: SymbolSets, lhs: Symbol, rhs: Rhs, i: int, u: Symbol)
    requires OnlyTerminals(g, f) && 0 <= i < |rhs|
    requires u in OccurrenceFollow(g, FirstSets(g), f, lhs, rhs, i)
    ensures u !in g.rules || u == EndMarker
  {
    if i + 1 < |rhs| && rhs[i + 1] in g.rules && u in Get(FirstSets(g), rhs[i + 1]) {
      FirstTerminals(g, rhs[i + 1], u);
    }
  }

  lemma ScanTerminals(g: Grammar, f: SymbolSets, y: Symbol, u: Symbol)
    requires OnlyTerminals(g, f) && u in SymbolFollow(g, FirstSets(g), f, y)
    ensures u !in g.rules || u == EndMarker
  {
    SymbolFollowMembers(g, FirstSets(g), f, y, u);
    if u !in StartFollow(g, y) {
      var lhs, rhs, i :| Occurs(g, y, lhs, rhs, i) && u in OccurrenceFollow(g, FirstSets(g), f, lhs, rhs, i);
      OccurrenceTerminals(g, f, lhs, rhs, i, u);
    }
  }

  /** With the grammar's own FIRST sets, FOLLOW sets hold only terminals and "$". */
  lemma FollowTerminals(g: Grammar, x: Symbol, t: Symbol)
    requires t in Get(FollowSets(g, FirstSets(g)), x)
    ensures t !in g.rules || t == EndMarker
  {
    var first := FirstSets(g);
    var r := FollowSets(g, first);
    var c := map m | m in r :: set u | u in r[m] && (u !in g.rules || u == EndMarker);
    FollowSetsClosed(g, first);
    assert OnlyTerminals(g, c);
    assert Le(c, r);
    forall y | y in g.rules ensures SymbolFollow(g, first, c, y) <= Get(c, y) {
      SymbolFollowMonotone(g, first, c, r, y);
      forall u | u in SymbolFollow(g, first, c, y) ensures u in Get(c, y) {
        ScanTerminals(g, c, y, u);
      }
    }
    FollowSetsLeast(g, first, c);
  }

  // ----- the computation -----

  /** Growing the scanned symbol's own set changes what a scan adds only by what that set already holds. */
  lemma OccurrenceFrame(g: Grammar, first: SymbolSets, f: SymbolSets, symbol: Symbol, s: set<Symbol>,
                        lhs: Symbol, rhs: Rhs, i: int)
    requires symbol in f && f[symbol] <= s && 0 <= i < |rhs| && rhs[i] == symbol
    ensures OccurrenceFollow(g, first, f, lhs, rhs, i) <= OccurrenceFollow(g, first, f[symbol := s], lhs, rhs, i)
    ensures OccurrenceFollow(g, first, f[symbol := s], lhs, rhs, i) <= s + OccurrenceFollow(g, first, f, lhs, rhs, i)
  {
  }

  lemma {:induction false} RhsFollowFrame(g: Grammar, first: SymbolSets, f: SymbolSets, symbol: Symbol, s: set<Symbol>,
                                          lhs: Symbol, rhs: Rhs, k: int)
    requires symbol in f && f[symbol] <= s && 0 <= k <= |rhs|
    ensures s + RhsFollow(g, first, f[symbol := s], symbol, lhs, rhs, k) == s + RhsFollow(g, first, f, symbol, lhs, rhs, k)
    decreases k
  {
    if k > 0 {
      RhsFollowFrame(g, first, f, symbol, s, lhs, rhs, k - 1);
      if rhs[k - 1] == symbol {
        OccurrenceFrame(g, first, f, symbol, s, lhs, rhs, k - 1);
      }
    }
  }

  lemma {:induction false} RuleFollowFrame(g: Grammar, first: SymbolSets, f: SymbolSets, symbol: Symbol, s: set<Symbol>,
                                           lhs: Symbol, rhss: seq<Rhs>)
    requires symbol in f && f[symbol] <= s
    ensures s + RuleFollow(g, first, f[symbol := s], symbol, lhs, rhss) == s + RuleFollow(g, first, f, symbol, lhs, rhss)
    decreases |rhss|
  {
    if rhss != [] {
      var rhs := rhss[|rhss| - 1];
      RuleFollowFrame(g, first, f, symbol, s, lhs, rhss[..|rhss| - 1]);
      RhsFollowFrame(g, first, f, symbol, s, lhs, rhs, |rhs|);
    }
  }

  /**
   * The `for i, sub_symbol in enumerate(rhs)` loop of `compute_follow(symbol)`
   * over one production of `lhs`.  `own` is the set object `follow[symbol]`
   * that the loop updates in place; reading `follow[lhs]` when `lhs` is
   * `symbol` reads that same object.
   */
  method FollowInRhs(g: Grammar, first: SymbolSets, symbol: Symbol, lhs: Symbol, rhs: Rhs, follow: SymbolSets)
    returns (follow': SymbolSets)
    requires symbol in follow
    ensures follow' == follow[symbol := follow[symbol] + RhsFollow(g, first, follow, symbol, lhs, rhs, |rhs|)]
  {
    var own := follow[symbol];
    for i := 0 to |rhs|
      invariant own == follow[symbol] + RhsFollow(g, first, follow, symbol, lhs, rhs, i)
    {
      if rhs[i] == symbol {
        if i + 1 < |rhs| {
          var next := rhs[i + 1];
          if next !in g.rules {
            own := own + {next};
          } else {
            own := own + (Get(first, next) - {Epsilon});
            if Epsilon in Get(first, next) {
              var lhsFollow := if lhs == symbol then own else Get(follow, lhs);
              own := own + lhsFollow;
            }
          }
        } else if lhs != symbol {
          own := own + Get(follow, lhs);
        }
      }
    }
    follow' := follow[symbol := own];
  }

  /** The `for rhs in rhs_list` loop of `compute_follow(symbol)` over the alternatives of `lhs`. */
  method FollowInRule(g: Grammar, first: SymbolSets, symbol: Symbol, lhs: Symbol, rhss: seq<Rhs>, follow: SymbolSets)
    returns (follow': SymbolSets)
    requires symbol in follow
    ensures follow' == follow[symbol := follow[symbol] + RuleFollow(g, first, follow, symbol, lhs, rhss)]
  {
    follow' := follow;
    assert follow[symbol] + {} == follow[symbol];
    UpdateSame(follow, symbol);
    for k := 0 to |rhss|
      invariant follow' == follow[symbol := follow[symbol] + RuleFollow(g, first, follow, symbol, lhs, rhss[..k])]
    {
      ghost var s := follow'[symbol];
      var rhs := rhss[k];
      assert rhss[..k + 1][..k] == rhss[..k];
      RhsFollowFrame(g, first, follow, symbol, s, lhs, rhs, |rhs|);
      UpdateTwice(follow, symbol, s, s + RhsFollow(g, first, follow', symbol, lhs, rhs, |rhs|));
      assert s + RhsFollow(g, first, follow', symbol, lhs, rhs, |rhs|)
        == follow[symbol] + RuleFollow(g, first, follow, symbol, lhs, rhss[..k + 1]);
      follow' := FollowInRhs(g, first, symbol, lhs, rhs, follow');
    }
    assert rhss[..|rhss|] == rhss;
  }

  /**
   * The body of `compute_follow(symbol)`: the end marker for the start
   * symbol, then every occurrence of `symbol` in every production, the
   * rules taken in dictionary order.
   */
  method ComputeFollowOf(g: Grammar, first: SymbolSets, symbol: Symbol, follow: SymbolSets)
    returns (follow': SymbolSets)
    requires WellFormed(g) && symbol in follow
    ensures follow' == follow[symbol := follow[symbol] + SymbolFollow(g, first, follow, symbol)]
  {
    follow' := follow[symbol := follow[symbol] + StartFollow(g, symbol)];
    if g.nonterminals != [] && symbol == g.nonterminals[0] {
      ghost var marked := follow[symbol] + {EndMarker};
      assert follow[symbol := follow[symbol] + {EndMarker}] == follow[symbol := marked];
    } else {
      assert follow[symbol] + {} == follow[symbol];
      UpdateSame(follow, symbol);
    }
    assert follow'[symbol] == follow[symbol] + StartFollow(g, symbol) + {};
    for k := 0 to |g.nonterminals|
      invariant follow' == follow[symbol := follow[symbol] + StartFollow(g, symbol) + GrammarFollow(g, first, follow, symbol, g.nonterminals[..k])]
    {
      var lhs := g.nonterminals[k];
      ghost var s := follow'[symbol];
      assert g.nonterminals[..k + 1][..k] == g.nonterminals[..k];
      RuleFollowFrame(g, first, follow, symbol, s, lhs, g.rules[lhs]);
      UpdateTwice(follow, symbol, s, s + RuleFollow(g, first, follow', symbol, lhs, g.rules[lhs]));
      assert s + RuleFollow(g, first, follow', symbol, lhs, g.rules[lhs])
        == follow[symbol] + StartFollow(g, symbol) + GrammarFollow(g, first, follow, symbol, g.nonterminals[..k + 1]);
      follow' := FollowInRule(g, first, symbol, lhs, g.rules[lhs], follow');
    }
    assert g.nonterminals[..|g.nonterminals|] == g.nonterminals;
    assert follow[symbol] + StartFollow(g, symbol) + GrammarFollow(g, first, follow, symbol, g.nonterminals)
      == follow[symbol] + SymbolFollow(g, first, follow, symbol);
  }

  /** Adding a scan's result keeps the dictionary below any closed dictionary. */
  lemma FollowAddBelow(g: Grammar, first: SymbolSets, symbol: Symbol, f: SymbolSets, bound: SymbolSets)
    requires symbol in g.rules && symbol in f
    requires FollowClosed(g, first, bound) && Le(f, bound)
    ensures Le(f[symbol := f[symbol] + SymbolFollow(g, first, f, symbol)], bound)
  {
    SymbolFollowMonotone(g, first, f, bound, symbol);
    assert Get(f, symbol) <= Get(bound, symbol);
    var f' := f[symbol := f[symbol] + SymbolFollow(g, first, f, symbol)];
    forall x ensures Get(f', x) <= Get(bound, x) {
      assert Get(f, x) <= Get(bound, x);
    }
  }

  /** What one `compute_follow(symbol)` call does to the dictionary, as the pass needs it. */
  lemma ScanFacts(g: Grammar, first: SymbolSets, symbol: Symbol, f: SymbolSets, bound: SymbolSets)
    requires symbol in g.rules && symbol in f && FollowClosed(g, first, bound)
    ensures
      var f' := f[symbol := f[symbol] + SymbolFollow(g, first, f, symbol)];
      && f'.Keys == f.Keys && Le(f, f') && Pairs(f) <= Pairs(f')
      && (Le(f, bound) ==> Le(f', bound))
      && (f'[symbol] == f[symbol] ==> f' == f && SymbolFollow(g, first, f, symbol) <= Get(f, symbol))
      && (f'[symbol] != f[symbol] ==> Pairs(f) < Pairs(f'))
  {
    var f' := f[symbol := f[symbol] + SymbolFollow(g, first, f, symbol)];
    if Le(f, bound) {
      FollowAddBelow(g, first, symbol, f, bound);
    }
    LeUpdate(f, symbol, f'[symbol]);
    PairsLe(f, f');
    if f'[symbol] == f[symbol] {
      UpdateSame(f, symbol);
    } else {
      PairsGrow(f, f');
    }
  }

  /** The first `i` nonterminals in dictionary order have their scans recorded. */
  ghost predicate FollowPassDone(g: Grammar, first: SymbolSets, f: SymbolSets, i: int)
    requires WellFormed(g) && i <= |g.nonterminals|
  {
    forall k :: 0 <= k < i ==> SymbolFollow(g, first, f, g.nonterminals[k]) <= Get(f, g.nonterminals[k])
  }

  lemma FollowPassDoneStep(g: Grammar, first: SymbolSets, f: SymbolSets, i: nat)
    requires WellFormed(g) && i < |g.nonterminals| && FollowPassDone(g, first, f, i)
    requires SymbolFollow(g, first, f, g.nonterminals[i]) <= Get(f, g.nonterminals[i])
    ensures FollowPassDone(g, first, f, i + 1)
  {
  }

  lemma FollowPassClosed(g: Grammar, first: SymbolSets, f: SymbolSets)
    requires WellFormed(g) && FollowPassDone(g, first, f, |g.nonterminals|)
    ensures FollowClosed(g, first, f)
  {
    forall x | x in g.rules ensures SymbolFollow(g, first, f, x) <= Get(f, x) {
      var k :| 0 <= k < |g.nonterminals| && g.nonterminals[k] == x;
    }
  }

  /**
   * One pass of `for nt in grammar: compute_follow(nt)`, reporting whether
   * it added anything.  A pass that adds nothing finds every scan recorded.
   */
  method FollowPass(g: Grammar, first: SymbolSets, follow: SymbolSets, ghost bound: SymbolSets)
    returns (follow': SymbolSets, changed: bool)
    requires WellFormed(g) && follow.Keys == g.rules.Keys && FollowClosed(g, first, bound)
    ensures follow'.Keys == follow.Keys
    ensures Le(follow, bound) ==> Le(follow', bound)
    ensures changed ==> Pairs(follow) < Pairs(follow')
    ensures !changed ==> follow' == follow && FollowClosed(g, first, follow)
  {
    follow' := follow;
    changed := false;
    for i := 0 to |g.nonterminals|
      invariant follow'.Keys == g.rules.Keys
      invariant Le(follow, follow')
      invariant Le(follow, bound) ==> Le(follow', bound)
      invariant changed ==> Pairs(follow) < Pairs(follow')
      invariant !changed ==> follow' == follow && FollowPassDone(g, first, follow, i)
    {
      var symbol := g.nonterminals[i];
      var before := follow'[symbol];
      ghost var previous := follow';
      ScanFacts(g, first, symbol, previous, bound);
      follow' := ComputeFollowOf(g, first, symbol, follow');
      if follow'[symbol] != before {
        changed := true;
      } else if !changed {
        FollowPassDoneStep(g, first, follow, i);
      }
    }
    if !changed {
      FollowPassClosed(g, first, follow);
    }
  }

  /**
   * `compute_follow` for every nonterminal in dictionary order, repeated
   * until a whole pass adds nothing: the result is the FOLLOW sets.
   */
  method ComputeFollow(g: Grammar, first: SymbolSets) returns (follow: SymbolSets)
    requires WellFormed(g)
    ensures follow == FollowSets(g, first)
  {
    ghost var least := FollowSets(g, first);
    FollowSetsClosed(g, first);
    follow := Nothing(g);
    var changed := true;
    while changed
      invariant follow.Keys == g.rules.Keys
      invariant Le(follow, least)
      invariant !changed ==> FollowClosed(g, first, follow)
      decreases Pairs(least) - Pairs(follow), changed
    {
      follow, changed := FollowPass(g, first, follow, least);
      PairsLe(follow, least);
    }
    FollowSetsLeast(g, first, follow);
    LeAntisymmetric(follow, least);
  }
}
