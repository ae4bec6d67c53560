/**
 * Reading rule lines `A -> x y | z` into a grammar (`get_grammar`).
 *
 * The text is stripped and cut at newlines.  Every line must contain `->`;
 * the first line that does not stops the reader (the source shows an error
 * and returns None).  A line with two or more arrows makes the tuple
 * unpacking `lhs, rhs = line.split('->')` raise, which stops the reader too.
 * The left-hand side is stripped, the right-hand side is cut at `|` and each
 * alternative is split on whitespace.  A nonterminal seen again gets its new
 * alternatives appended after the earlier ones.
 */
module GrammarParser {
  import opened Wrappers
  import opened Text
  import opened Grammars

  datatype ParseError =
    | MissingArrow(line: string)   // the line has no "->"
    | TooManyArrows(line: string)  // "lhs, rhs = line.split('->')" cannot unpack

  /** A parsed line: its left-hand side and its alternatives. */
  datatype Rule = Rule(lhs: Symbol, alts: seq<Rhs>)

  /** `grammar_text.strip().split("\n")` */
  function Lines(text: string): seq<string> {
    Split(Strip(text), "\n")
  }

  /** One right-hand side: every `|`-separated alternative, split on whitespace. */
  function Alternatives(rhs: string): seq<Rhs> {
    var parts := Split(rhs, "|");
    seq(|parts|, k requires 0 <= k < |parts| => Words(parts[k]))
  }

  /** One rule line. */
  function ParseLine(line: string): Result<Rule, ParseError> {
    if !Contains(line, "->") then Err(MissingArrow(line))
    else
      var parts := Split(line, "->");
      if |parts| != 2 then Err(TooManyArrows(line))
      else Ok(Rule(Strip(parts[0]), Alternatives(parts[1])))
  }

  /** An arrow after the first one is a second occurrence of "->" in the line. */
  lemma ArrowAfter(line: string, i: nat, m: nat)
    requires OccursAt(line, "->", i) && OccursAt(line[i + 2..], "->", m)
    ensures OccursAt(line, "->", i + 2 + m)
  {
    assert line[i + 2 + m..i + 2 + m + 2] == line[i + 2..][m..m + 2];
  }

  /**
   * An occurrence of "->" later than the first one starts after it:
   * occurrences cannot overlap, since "->" starts with '-' and its second
   * character is '>'.
   */
  lemma ArrowBefore(line: string, i: nat, b: nat)
    requires OccursAt(line, "->", i) && OccursAt(line, "->", b) && i < b
    ensures OccursAt(line[i + 2..], "->", b - i - 2)
  {
    assert line[i + 1] == '>' by { assert line[i..i + 2][1] == line[i + 1]; }
    assert line[b] == '-' by { assert line[b..b + 2][0] == line[b]; }
    assert line[i + 2..][b - i - 2..b - i] == line[b..b + 2];
  }

  /** A second arrow is left after the first exactly when the line has two occurrences of "->". */
  lemma SecondArrow(line: string, i: nat)
    requires IndexOf(line, "->") == Some(i)
    ensures Contains(line[i + 2..], "->") <==>
              exists a, b :: a < b && OccursAt(line, "->", a) && OccursAt(line, "->", b)
  {
    var rest := line[i + 2..];
    if Contains(rest, "->") {
      ArrowAfter(line, i, IndexOf(rest, "->").value);
    }
    if exists a, b :: a < b && OccursAt(line, "->", a) && OccursAt(line, "->", b) {
      var a, b :| a < b && OccursAt(line, "->", a) && OccursAt(line, "->", b);
      ArrowBefore(line, i, b);
    }
  }

  /** "->" occurs in `line` at `i` and nowhere else. */
  ghost predicate OnlyArrowAt(line: string, i: int) {
    OccursAt(line, "->", i) && forall j :: OccursAt(line, "->", j) ==> j == i
  }

  /**
   * A line without "->" is a missing arrow, a line with two or more is one
   * the unpacking rejects, and a line with exactly one, at `i`, is the rule
   * whose left-hand side is the stripped text before it and whose
   * alternatives are read from the text after it.
   */
  lemma ParseLineSpec(line: string)
    ensures ParseLine(line) == Err(MissingArrow(line)) <==> forall i :: !OccursAt(line, "->", i)
    ensures ParseLine(line) == Err(TooManyArrows(line)) <==>
              exists a, b :: a < b && OccursAt(line, "->", a) && OccursAt(line, "->", b)
    ensures ParseLine(line).Ok? <==> exists i :: OnlyArrowAt(line, i)
    ensures forall i :: OnlyArrowAt(line, i) ==>
              ParseLine(line) == Ok(Rule(Strip(line[..i]), Alternatives(line[i + 2..])))
    ensures ParseLine(line).Ok? ==> |ParseLine(line).value.alts| >= 1
  {
    if Contains(line, "->") {
      var i := IndexOf(line, "->").value;
      var rest := line[i + 2..];
      SecondArrow(line, i);
      assert Split(line, "->") == [line[..i]] + Split(rest, "->");
      if Contains(rest, "->") {
        assert |Split(rest, "->")| >= 2;
      } else {
        assert Split(rest, "->") == [rest];
        forall j | OccursAt(line, "->", j) ensures j == i {
          assert !(i < j && OccursAt(line, "->", i) && OccursAt(line, "->", j));
        }
        assert OnlyArrowAt(line, i);
      }
    }
  }

  /** The result of reading each line on its own. */
  function LineResults(lines: seq<string>): (r: seq<Result<Rule, ParseError>>)
    ensures |r| == |lines|
  {
    seq(|lines|, i requires 0 <= i < |lines| => ParseLine(lines[i]))
  }

  /** The rules of all lines, or the first error among them. */
  function Collect(results: seq<Result<Rule, ParseError>>): Result<seq<Rule>, ParseError> {
    if results == [] then Ok([])
    else
      match results[0]
      case Err(e) => Err(e)
      case Ok(rule) =>
        match Collect(results[1..])
        case Err(e) => Err(e)
        case Ok(rest) => Ok([rule] + rest)
  }

  /** All alternatives given for `n`, in the order of the rules. */
  function AltsFor(rules: seq<Rule>, n: Symbol): seq<Rhs> {
    if rules == [] then []
    else (if rules[0].lhs == n then rules[0].alts else []) + AltsFor(rules[1..], n)
  }

  /** Left-hand sides, each once, in order of first appearance. */
  function LhsOrder(rules: seq<Rule>): (r: seq<Symbol>)
    ensures Distinct(r)
  {
    if rules == [] then []
    else
      var before := LhsOrder(rules[..|rules| - 1]);
      var lhs := rules[|rules| - 1].lhs;
      if lhs in before then before else before + [lhs]
  }

  /** A symbol is listed exactly when some rule has it on the left. */
  lemma {:induction false} LhsOrderMembers(rules: seq<Rule>, n: Symbol)
    ensures n in LhsOrder(rules) <==> exists i :: 0 <= i < |rules| && rules[i].lhs == n
    decreases |rules|
  {
    if rules != [] {
      var init := rules[..|rules| - 1];
      LhsOrderMembers(init, n);
      assert forall i :: 0 <= i < |init| ==> init[i] == rules[i];
    }
  }

  /** One rule line entered into the dictionary: a new left-hand side becomes the last key, a known one has its alternatives extended. */
  function AddRule(g: Grammar, rule: Rule): Grammar {
    if rule.lhs in g.rules
    then Grammar(g.nonterminals, g.rules[rule.lhs := g.rules[rule.lhs] + rule.alts])
    else Grammar(g.nonterminals + [rule.lhs], g.rules[rule.lhs := rule.alts])
  }

  /** The dictionary the rules build, entered one after the other into an empty one. */
  function BuildGrammar(rules: seq<Rule>): Grammar {
    if rules == [] then Grammar([], map[])
    else AddRule(BuildGrammar(rules[..|rules| - 1]), rules[|rules| - 1])
  }

  /** The grammar the lines describe, or the error of the first bad line. */
  function ReadLines(lines: seq<string>): Result<Grammar, ParseError> {
    match Collect(LineResults(lines))
    case Err(e) => Err(e)
    case Ok(rules) => Ok(BuildGrammar(rules))
  }

  /** The grammar the text describes, or the error of its first bad line. */
  function ParseGrammar(text: string): Result<Grammar, ParseError> {
    ReadLines(Lines(text))
  }

  /** Repeated left-hand sides: the alternatives of later rules come after those of earlier ones. */
  lemma {:induction false} AltsForAppend(a: seq<Rule>, b: seq<Rule>, n: Symbol)
    ensures AltsFor(a + b, n) == AltsFor(a, n) + AltsFor(b, n)
    decreases |a|
  {
    if a == [] {
      assert a + b == b;
    } else {
      AltsForAppend(a[1..], b, n);
      assert (a + b)[1..] == a[1..] + b;
    }
  }

  lemma {:induction false} CollectAppend(a: seq<Result<Rule, ParseError>>, line: Result<Rule, ParseError>)
    ensures Collect(a + [line]) ==
              match Collect(a)
              case Err(e) => Err(e)
              case Ok(rules) =>
                match line
                case Err(e) => Err(e)
                case Ok(rule) => Ok(rules + [rule])
    decreases |a|
  {
    if a == [] {
      assert a + [line] == [line];
      assert [line][1..] == [];
      if line.Ok? {
        assert [line.value] + [] == [] + [line.value];
      }
    } else {
      CollectAppend(a[1..], line);
      assert (a + [line])[1..] == a[1..] + [line];
      match a[0]
      case Err(_) =>
      case Ok(first) =>
        match Collect(a[1..])
        case Err(_) =>
        case Ok(rest) =>
          match line
          case Err(_) =>
          case Ok(rule) =>
            assert [first] + (rest + [rule]) == ([first] + rest) + [rule];
    }
  }

  lemma {:induction false} CollectErrPrefix(a: seq<Result<Rule, ParseError>>, b: seq<Result<Rule, ParseError>>)
    requires Collect(a).Err?
    ensures Collect(a + b) == Collect(a)
    decreases |a|
  {
    assert a != [];
    assert (a + b)[0] == a[0];
    if a[0].Ok? {
      CollectErrPrefix(a[1..], b);
      assert (a + b)[1..] == a[1..] + b;
    }
  }

  /** A symbol that is no rule's left-hand side has no alternatives. */
  lemma {:induction false} AltsForAbsent(rules: seq<Rule>, n: Symbol)
    requires n !in LhsOrder(rules)
    ensures AltsFor(rules, n) == []
  {
    LhsOrderMembers(rules, n);
    if rules != [] {
      LhsOrderMembers(rules[1..], n);
      assert forall i :: 0 <= i < |rules[1..]| ==> rules[1..][i] == rules[i + 1];
      AltsForAbsent(rules[1..], n);
    }
  }

  lemma AltsForSnoc(rules: seq<Rule>, rule: Rule, n: Symbol)
    ensures AltsFor(rules + [rule], n) == AltsFor(rules, n) + (if rule.lhs == n then rule.alts else [])
  {
    AltsForAppend(rules, [rule], n);
    assert [rule][1..] == [];
  }

  /** Collecting one more line: the prefix's rules extended by that line's rule, or the first error. */
  lemma CollectStep(results: seq<Result<Rule, ParseError>>, i: nat)
    requires i < |results|
    ensures Collect(results[..i + 1]) ==
              match Collect(results[..i])
              case Err(e) => Err(e)
              case Ok(rules) =>
                match results[i]
                case Err(e) => Err(e)
                case Ok(rule) => Ok(rules + [rule])
  {
    assert results[..i + 1] == results[..i] + [results[i]];
    CollectAppend(results[..i], results[i]);
  }

  /** Once a prefix fails, the whole collection fails with the same error. */
  lemma CollectStop(results: seq<Result<Rule, ParseError>>, i: nat)
    requires i <= |results|
    requires Collect(results[..i]).Err?
    ensures Collect(results) == Collect(results[..i])
  {
    CollectErrPrefix(results[..i], results[i..]);
    assert results == results[..i] + results[i..];
  }

  /** `get_grammar`, accumulating the dictionary line by line with `extend`. */
  method GetGrammar(text: string) returns (r: Result<Grammar, ParseError>)
    ensures r == ParseGrammar(text)
  {
    var lines := Lines(text);
    ghost var results := LineResults(lines);
    var nonterminals: seq<Symbol> := [];
    var grammar: map<Symbol, seq<Rhs>> := map[];
    ghost var parsed: seq<Rule> := [];
    for i := 0 to |lines|
      invariant Collect(results[..i]) == Ok(parsed)
      invariant Grammar(nonterminals, grammar) == BuildGrammar(parsed)
    {
      var line := ParseLine(lines[i]);
      assert line == results[i];
      CollectStep(results, i);
      if line.Err? {
        CollectStop(results, i + 1);
        return Err(line.error);
      }
      var lhs, alts := line.value.lhs, line.value.alts;
      assert (parsed + [line.value])[..|parsed|] == parsed;
      if lhs in grammar {
        grammar := grammar[lhs := grammar[lhs] + alts];
      } else {
        grammar := grammar[lhs := alts];
        nonterminals := nonterminals + [lhs];
      }
      parsed := parsed + [line.value];
    }
    assert results[..|lines|] == results;
    r := Ok(Grammar(nonterminals, grammar));
  }

  /** Collecting fails exactly when some line failed, and then reports the first failure. */
  lemma {:induction false} CollectFails(results: seq<Result<Rule, ParseError>>)
    ensures Collect(results).Err? <==> exists i :: 0 <= i < |results| && results[i].Err?
    ensures Collect(results).Err? ==>
              exists i :: && 0 <= i < |results|
                          && results[i] == Err(Collect(results).error)
                          && forall j :: 0 <= j < i ==> results[j].Ok?
    decreases |results|
  {
    if results != [] {
      CollectFails(results[1..]);
      forall i | 0 < i < |results| ensures results[i] == results[1..][i - 1] {}
      if results[0].Ok? && Collect(results).Err? {
        var i :| && 0 <= i < |results[1..]|
                 && results[1..][i] == Err(Collect(results[1..]).error)
                 && forall j :: 0 <= j < i ==> results[1..][j].Ok?;
        assert results[i + 1] == Err(Collect(results).error);
      }
    }
  }

  /** A successful collection holds one rule per line, in order. */
  lemma {:induction false} CollectOk(results: seq<Result<Rule, ParseError>>)
    requires Collect(results).Ok?
    ensures |Collect(results).value| == |results|
    ensures forall i :: 0 <= i < |results| ==> results[i] == Ok(Collect(results).value[i])
    decreases |results|
  {
    if results != [] {
      CollectOk(results[1..]);
      forall i | 0 < i < |results| ensures results[i] == results[1..][i - 1] {}
    }
  }

  /** The reader fails exactly when some line is malformed, and then reports the first such line's error. */
  lemma ReadLinesFails(lines: seq<string>)
    ensures ReadLines(lines).Err? <==> exists i :: 0 <= i < |lines| && ParseLine(lines[i]).Err?
    ensures ReadLines(lines).Err? ==>
              exists i :: && 0 <= i < |lines|
                          && ParseLine(lines[i]) == Err(ReadLines(lines).error)
                          && forall j :: 0 <= j < i ==> ParseLine(lines[j]).Ok?
  {
    var results := LineResults(lines);
    CollectFails(results);
    assert forall i :: 0 <= i < |lines| ==> results[i] == ParseLine(lines[i]);
  }

  /**
   * The rules build a well-formed grammar: its keys are the left-hand sides in
   * order of first appearance, and the alternatives of `n` are those of every
   * rule for `n`, concatenated in order.
   */
  lemma {:induction false} BuildGrammarSpec(rules: seq<Rule>)
    ensures WellFormed(BuildGrammar(rules))
    ensures BuildGrammar(rules).nonterminals == LhsOrder(rules)
    ensures forall n :: n in BuildGrammar(rules).rules ==> BuildGrammar(rules).rules[n] == AltsFor(rules, n)
    decreases |rules|
  {
    if rules != [] {
      var init, last := rules[..|rules| - 1], rules[|rules| - 1];
      assert rules == init + [last];
      BuildGrammarSpec(init);
      var g := BuildGrammar(init);
      forall n | n in BuildGrammar(rules).rules ensures BuildGrammar(rules).rules[n] == AltsFor(rules, n) {
        AltsForSnoc(init, last, n);
        if n == last.lhs && n !in g.rules {
          AltsForAbsent(init, n);
        }
      }
    }
  }

  /** A symbol is a key exactly when some rule has it on the left. */
  lemma BuildGrammarKeys(rules: seq<Rule>, n: Symbol)
    ensures n in BuildGrammar(rules).rules <==> exists i :: 0 <= i < |rules| && rules[i].lhs == n
  {
    BuildGrammarSpec(rules);
    LhsOrderMembers(rules, n);
  }

  /** A successful read has one rule per line, so it never gives an empty grammar. */
  lemma ReadLinesOk(lines: seq<string>)
    requires |lines| >= 1
    requires ReadLines(lines).Ok?
    ensures ReadLines(lines).value.nonterminals != []
  {
    var results := LineResults(lines);
    CollectOk(results);
    var rules := Collect(results).value;
    BuildGrammarKeys(rules, rules[0].lhs);
    BuildGrammarSpec(rules);
  }

  /** Every key the reader produces has at least one alternative: cutting at `|` gives one piece or more. */
  lemma {:induction false} AltsForNonEmpty(rules: seq<Rule>, n: Symbol)
    requires forall i :: 0 <= i < |rules| ==> rules[i].alts != []
    requires n in LhsOrder(rules)
    ensures AltsFor(rules, n) != []
    decreases |rules|
  {
    LhsOrderMembers(rules, n);
    var i :| 0 <= i < |rules| && rules[i].lhs == n;
    if rules[0].lhs != n {
      LhsOrderMembers(rules[1..], n);
      assert rules[1..][i - 1] == rules[i];
      AltsForNonEmpty(rules[1..], n);
    }
  }

  /** A grammar read from text is well formed, has a first key, and every key has an alternative. */
  lemma ParseGrammarSpec(text: string)
    requires ParseGrammar(text).Ok?
    ensures WellFormed(ParseGrammar(text).value)
    ensures ParseGrammar(text).value.nonterminals != []
    ensures forall n :: n in ParseGrammar(text).value.rules ==> ParseGrammar(text).value.rules[n] != []
  {
    var lines := Lines(text);
    var results := LineResults(lines);
    CollectOk(results);
    var rules := Collect(results).value;
    ReadLinesOk(lines);
    BuildGrammarSpec(rules);
    forall i | 0 <= i < |rules| ensures rules[i].alts != [] {
      assert ParseLine(lines[i]) == Ok(rules[i]);
    }
    forall n | n in BuildGrammar(rules).rules ensures BuildGrammar(rules).rules[n] != [] {
      AltsForNonEmpty(rules, n);
    }
  }
}
