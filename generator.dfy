/**
 * The generator end to end, as the script runs it: read the grammar, give
 * up on a malformed or empty one, augment it, build the LR(0) automaton of
 * the augmented grammar, compute FIRST and FOLLOW of the original grammar,
 * and fill the SLR(1) table.  What this adds to the parts is that each
 * stage's requirements are met by the stages before it.
 */
module Generator {
  import opened Wrappers
  import opened Grammars
  import opened GrammarParser
  import opened Lr0
  import opened First
  import opened Follow
  import opened SlrTable

  /** Why the generator stops without a table. */
  datatype GenerateError =
    | InvalidGrammar(reason: ParseError)  // a rule line without exactly one "->"
    | EmptyStart                          // "Grammar is empty": no usable first left-hand side

  datatype Tables = Tables(
    grammar: Grammar,
    augmented: Grammar,
    states: seq<set<Item>>,
    transitions: map<(nat, Symbol), nat>,
    first: SymbolSets,
    follow: SymbolSets,
    parsingTable: seq<Row>,
    gotoTable: seq<map<Symbol, nat>>)

  /** The grammar the automaton is built for, or why the script stops before it. */
  function Augmented(text: string): Result<Grammar, GenerateError> {
    match ParseGrammar(text)
    case Err(e) => Err(InvalidGrammar(e))
    case Ok(g) =>
      ParseGrammarSpec(text);
      match AugmentGrammar(g)
      case Err(_) => Err(EmptyStart)
      case Ok(aug) => Ok(aug)
  }

  /** An augmented grammar read from text has a start production. */
  lemma AugmentedHasStart(text: string)
    requires Augmented(text).Ok?
    ensures HasStart(Augmented(text).value)
  {
    var g := ParseGrammar(text).value;
    ParseGrammarSpec(text);
    var aug := AugmentGrammar(g).value;
    if AugmentedStart in g.rules {
      assert aug.rules[AugmentedStart] == g.rules[AugmentedStart];
    }
  }

  /** Every item of the augmented grammar other than an S' item has a FOLLOW entry. */
  lemma ItemsHaveFollow(g: Grammar, aug: Grammar, follow: SymbolSets, it: Item)
    requires aug.rules.Keys == g.rules.Keys + {AugmentedStart} && follow.Keys == g.rules.Keys
    requires it in AllItems(aug) && it.lhs != AugmentedStart
    ensures it.lhs in follow
  {
  }

  /**
   * The script from the text area to the two tables.  It fails exactly when
   * the text does not read as a grammar or its first left-hand side is empty;
   * otherwise FIRST and FOLLOW are those of the grammar read, the automaton is
   * that of the augmented grammar, and the tables are filled from them.
   */
  method Generate(text: string) returns (r: Result<Tables, GenerateError>)
    ensures r.Err? <==> Augmented(text).Err?
    ensures r.Err? ==> r.error == Augmented(text).error
    ensures r.Ok? ==>
      && ParseGrammar(text) == Ok(r.value.grammar)
      && Augmented(text) == Ok(r.value.augmented)
      && HasStart(r.value.augmented)
      && CanonicalCollection(r.value.augmented, r.value.states, r.value.transitions)
      && r.value.first == FirstSets(r.value.grammar)
      && r.value.follow == FollowSets(r.value.grammar, r.value.first)
      && IsTable(r.value.grammar, r.value.states, r.value.transitions, r.value.follow, r.value.parsingTable, r.value.gotoTable)
  {
    var parsed := GetGrammar(text);
    if parsed.Err? {
      return Err(InvalidGrammar(parsed.error));
    }
    var grammar := parsed.value;
    ParseGrammarSpec(text);
    var augmented := AugmentGrammar(grammar);
    if augmented.Err? {
      return Err(EmptyStart);
    }
    var aug := augmented.value;
    AugmentedHasStart(text);
    var states, transitions := GenerateLr0Items(aug);
    var first := ComputeFirst(grammar);
    var follow := ComputeFollow(grammar, first);
    FollowSetsClosed(grammar, first);
    forall i, it | 0 <= i < |states| && it in states[i] && Complete(it) && it.lhs != AugmentedStart
      ensures it.lhs in follow
    {
      ItemsHaveFollow(grammar, aug, follow, it);
    }
    var parsingTable, gotoTable := GenerateSlr1ParsingTable(states, transitions, grammar, follow);
    return Ok(Tables(grammar, aug, states, transitions, first, follow, parsingTable, gotoTable));
  }
}
