/**
 * A context-free grammar as the generator holds it: a dictionary from
 * nonterminal to its alternatives, whose key order (Python's insertion
 * order) is kept explicitly.  A symbol is a nonterminal exactly when it
 * is a key; every other symbol is a terminal.  An empty right-hand side
 * is an epsilon production.
 */
module Grammars {
  import opened Wrappers

  type Symbol = string
  type Rhs = seq<Symbol>

  datatype Grammar = Grammar(nonterminals: seq<Symbol>, rules: map<Symbol, seq<Rhs>>)

  /** The name of the synthetic start symbol added by augmentation. */
  const AugmentedStart: Symbol := "S'"

  predicate Distinct<T(==)>(s: seq<T>) {
    forall i, j :: 0 <= i < j < |s| ==> s[i] != s[j]
  }

  /** The key order lists every key of the dictionary exactly once. */
  ghost predicate WellFormed(g: Grammar) {
    && Distinct(g.nonterminals)
    && forall n :: n in g.rules <==> n in g.nonterminals
  }

  predicate IsNonterminal(g: Grammar, x: Symbol) {
    x in g.rules
  }

  /** `s` with every occurrence of `v` removed. */
  function Remove(s: seq<Symbol>, v: Symbol): (r: seq<Symbol>)
    ensures forall x :: x in r <==> x in s && x != v
    ensures Distinct(s) ==> Distinct(r)
  {
    if s == [] then []
    else if s[0] == v then Remove(s[1..], v)
    else
      var rest := Remove(s[1..], v);
      assert Distinct(s) ==> Distinct([s[0]] + rest) by {
        if Distinct(s) {
          assert s[0] !in s[1..] by {
            forall j | 0 <= j < |s| - 1 ensures s[1..][j] != s[0] {
              assert s[1..][j] == s[j + 1];
            }
          }
          assert s[0] !in rest;
          assert Distinct(s[1..]) by {
            forall i, j | 0 <= i < j < |s[1..]| ensures s[1..][i] != s[1..][j] {
              assert s[1..][i] == s[i + 1] && s[1..][j] == s[j + 1];
            }
          }
        }
      }
      [s[0]] + rest
  }

  datatype AugmentError = EmptyGrammar

  /**
   * `augment_grammar`: a new dictionary whose first key is S' with the single
   * production [start], updated with the original rules.  The start symbol is
   * the first key; an empty dictionary, or a first key that is the empty
   * string (falsy in Python), is reported as an empty grammar.
   */
  function AugmentGrammar(g: Grammar): (r: Result<Grammar, AugmentError>)
    requires WellFormed(g)
    ensures r.Err? <==> g.nonterminals == [] || g.nonterminals[0] == ""
    ensures r.Ok? ==> WellFormed(r.value)
    ensures r.Ok? ==> r.value.nonterminals != [] && r.value.nonterminals[0] == AugmentedStart
    ensures r.Ok? ==> r.value.rules.Keys == g.rules.Keys + {AugmentedStart}
    ensures r.Ok? ==> forall n :: n in g.rules ==> r.value.rules[n] == g.rules[n]
    ensures r.Ok? && AugmentedStart !in g.rules ==>
              && r.value.rules[AugmentedStart] == [[g.nonterminals[0]]]
              && r.value.nonterminals == [AugmentedStart] + g.nonterminals
  {
    if g.nonterminals == [] || g.nonterminals[0] == "" then
      Err(EmptyGrammar)
    else
      var start := g.nonterminals[0];
      var order := [AugmentedStart] + Remove(g.nonterminals, AugmentedStart);
      AugmentedOrder(g);
      assert AugmentedStart !in g.rules ==> Remove(g.nonterminals, AugmentedStart) == g.nonterminals by {
        if AugmentedStart !in g.rules { RemoveAbsent(g.nonterminals, AugmentedStart); }
      }
      Ok(Grammar(order, map[AugmentedStart := [[start]]] + g.rules))
  }

  /** The augmented key order lists S' first and every other key once. */
  lemma AugmentedOrder(g: Grammar)
    requires WellFormed(g)
    ensures var order := [AugmentedStart] + Remove(g.nonterminals, AugmentedStart);
      && Distinct(order)
      && forall n :: n in order <==> n in g.rules || n == AugmentedStart
  {
    var rest := Remove(g.nonterminals, AugmentedStart);
    var order := [AugmentedStart] + rest;
    forall i, j | 0 <= i < j < |order| ensures order[i] != order[j] {
      assert order[j] == rest[j - 1] && rest[j - 1] in rest;
      if i > 0 {
        assert order[i] == rest[i - 1];
      }
    }
  }

  lemma {:induction false} RemoveAbsent(s: seq<Symbol>, v: Symbol)
    requires v !in s
    ensures Remove(s, v) == s
  {
    if s != [] {
      RemoveAbsent(s[1..], v);
    }
  }
}
