/**
 * Two shapes the ten syntax checks let through although no tree can be built
 * from them: a `(` directly followed by an operator, as in `2*(-3)`, and an
 * operator directly followed by `)`, as in `(2+)`. Both reach the builder,
 * which throws because an operator finds a single operand; the page then
 * reports a processing error instead of a syntax error.
 */
module ValidatorGaps {
  import opened Wrappers
  import opened Tokens
  import Syntax
  import Parens
  import Tokenizer
  import ShuntingYard
  import ExpressionTree
  import Page

  /** One step of the converter's main loop, read off the state it reaches. */
  lemma FeedStep(s: ShuntingYard.State, t: Token, s': ShuntingYard.State, rest: seq<Token>)
    requires ShuntingYard.Feed(s, t).Ok?
    requires ShuntingYard.Feed(s, t).value.output == s'.output
    requires ShuntingYard.Feed(s, t).value.stack == s'.stack
    ensures ShuntingYard.FeedFrom([t] + rest, s) == ShuntingYard.FeedFrom(rest, s')
  {
    assert ([t] + rest)[1..] == rest;
  }

  /** A text spelled by well-formed tokens, no two numbers adjacent, tokenizes back to them. */
  lemma TokensOf(s: string, ts: seq<Token>)
    requires ts != [] && forall i | 0 <= i < |ts| :: WellFormedToken(ts[i])
    requires Tokenizer.NoAdjacentNums(ts) && Tokenizer.Texts(ts) == s
    ensures Tokenizer.Tokenize(s) == Ok(ts)
  {
    Tokenizer.ScanUnique(ts);
  }

  /** How the page ends on a blank-free input that passes validation and converts. */
  lemma ProcessAfterConversion(s: string, ts: seq<Token>, p: seq<Token>)
    requires s != [] && forall k | 0 <= k < |s| :: !Syntax.IsSpace(s[k])
    requires Syntax.Validate(s) == None
    requires Tokenizer.Tokenize(s) == Ok(ts) && ShuntingYard.Convert(ts) == Ok(p)
    ensures Page.Process(s) == match ExpressionTree.Construct(p, 0).0
      case Err(k) => Err(Page.Failed(k))
      case Ok(t) => Ok(t)
  {
    Page.StripSpacesSpec(s);
    Syntax.TrimNoSpaces(s);
  }

  // `2*(-3)`

  lemma NegatedGroupChars(s: string)
    requires s == "2*(-3)"
    ensures forall i | 0 <= i < |s| :: !Syntax.IsSpace(s[i]) && Syntax.IsAllowedChar(s[i])
    ensures forall i | 0 <= i < |s| - 1 :: Syntax.NeighboursPass(s, i)
  {
    assert s[0] == '2' && s[1] == '*' && s[2] == '(' && s[3] == '-' && s[4] == '3' && s[5] == ')';
    forall i | 0 <= i < |s|
      ensures !Syntax.IsSpace(s[i]) && Syntax.IsAllowedChar(s[i])
    {
      assert i == 0 || i == 1 || i == 2 || i == 3 || i == 4 || i == 5;
    }
    forall i | 0 <= i < |s| - 1
      ensures Syntax.NeighboursPass(s, i)
    {
      assert i == 0 || i == 1 || i == 2 || i == 3 || i == 4;
    }
  }

  lemma NegatedGroupValid(s: string)
    requires s == "2*(-3)"
    ensures Syntax.Validate(s) == None
  {
    NegatedGroupChars(s);
    Syntax.BlankFreeChecks(s);
    Syntax.TrimNoSpaces(s);
    assert Parens.Balanced(s) by {
      Parens.NoParensBalanced("2*");
      Parens.NoParensBalanced("-3");
      Parens.BalancedWrap("-3");
      Parens.BalancedAppend("2*", "(" + "-3" + ")");
      assert s == "2*" + ("(" + "-3" + ")");
    }
    assert Syntax.DropLeadingOpen(s) == s;
    var r := "2*(-3";
    assert Syntax.DropTrailingClose(s) == r by {
      assert s[..5] == r;
    }
    assert r[0] == '2' && !Syntax.IsSpace(r[0]);
    assert s[0] == '2' && s[5] == ')';
    Syntax.NoCheckFires(s);
  }

  lemma NegatedGroupTokens()
    ensures Tokenizer.Tokenize("2*(-3)") == Ok([Num("2"), Op(Mul), LParen, Op(Sub), Num("3"), RParen])
  {
    var ts := [Num("2"), Op(Mul), LParen, Op(Sub), Num("3"), RParen];
    assert Tokenizer.NoAdjacentNums(ts) by {
      forall i | 0 <= i < |ts| - 1
        ensures !Tokenizer.NumPairAt(ts, i)
      {
        assert i == 0 || i == 1 || i == 2 || i == 3 || i == 4;
      }
    }
    assert Tokenizer.Texts(ts) == "2*(-3)";
    TokensOf("2*(-3)", ts);
  }

  lemma NegatedGroupFeed()
    ensures ShuntingYard.FeedFrom([Num("2"), Op(Mul), LParen, Op(Sub), Num("3"), RParen], ShuntingYard.State([], []))
      == Ok(ShuntingYard.State([Num("2"), Num("3"), Op(Sub)], [Op(Mul)]))
  {
    NegatedGroupOpening();
    NegatedGroupClosing();
  }

  /** The first three tokens, `2`, `*` and `(`, go to the output and the stack. */
  lemma NegatedGroupOpening()
    ensures ShuntingYard.FeedFrom([Num("2"), Op(Mul), LParen, Op(Sub), Num("3"), RParen], ShuntingYard.State([], []))
      == ShuntingYard.FeedFrom([Op(Sub), Num("3"), RParen], ShuntingYard.State([Num("2")], [Op(Mul), LParen]))
  {
    var ts := [Num("2"), Op(Mul), LParen, Op(Sub), Num("3"), RParen];
    var s0 := ShuntingYard.State([], []);
    var s1 := ShuntingYard.State([Num("2")], []);
    var s2 := ShuntingYard.State([Num("2")], [Op(Mul)]);
    var s3 := ShuntingYard.State([Num("2")], [Op(Mul), LParen]);
    FeedStep(s0, Num("2"), s1, [Op(Mul), LParen, Op(Sub), Num("3"), RParen]);
    FeedStep(s1, Op(Mul), s2, [LParen, Op(Sub), Num("3"), RParen]);
    FeedStep(s2, LParen, s3, [Op(Sub), Num("3"), RParen]);
    assert [Num("2")] + [Op(Mul), LParen, Op(Sub), Num("3"), RParen] == ts;
  }

  /** `-` is pushed above the `(`, `3` is output, and `)` pops `-` and drops the `(`. */
  lemma NegatedGroupClosing()
    ensures ShuntingYard.FeedFrom([Op(Sub), Num("3"), RParen], ShuntingYard.State([Num("2")], [Op(Mul), LParen]))
      == Ok(ShuntingYard.State([Num("2"), Num("3"), Op(Sub)], [Op(Mul)]))
  {
    var s3 := ShuntingYard.State([Num("2")], [Op(Mul), LParen]);
    var s4 := ShuntingYard.State([Num("2")], [Op(Mul), LParen, Op(Sub)]);
    var s5 := ShuntingYard.State([Num("2"), Num("3")], [Op(Mul), LParen, Op(Sub)]);
    var s6 := ShuntingYard.State([Num("2"), Num("3"), Op(Sub)], [Op(Mul)]);
    FeedStep(s3, Op(Sub), s4, [Num("3"), RParen]);
    FeedStep(s4, Num("3"), s5, [RParen]);
    FeedStep(s5, RParen, s6, []);
  }

  lemma NegatedGroupPostfix()
    ensures ShuntingYard.Convert([Num("2"), Op(Mul), LParen, Op(Sub), Num("3"), RParen])
      == Ok([Num("2"), Num("3"), Op(Sub), Op(Mul)])
  {
    NegatedGroupFeed();
    var s6 := ShuntingYard.State([Num("2"), Num("3"), Op(Sub)], [Op(Mul)]);
    var out := [Num("2"), Num("3"), Op(Sub), Op(Mul)];
    assert s6.output + [Op(Mul)] == out && s6.stack[..0] == [];
    assert ShuntingYard.Drain(s6) == ShuntingYard.Drain(ShuntingYard.State(out, []));
  }

  lemma NegatedGroupBuild()
    ensures ExpressionTree.Construct([Num("2"), Num("3"), Op(Sub), Op(Mul)], 0).0 == Err(MissingOperands)
  {
    var p := [Num("2"), Num("3"), Op(Sub), Op(Mul)];
    ExpressionTree.ConstructOutcome(p, 0);
    var q := [Num("2"), Num("3"), Op(Sub)];
    assert p[..3] == q;
    assert q[..2] == [Num("2"), Num("3")] && [Num("2"), Num("3")][..1] == [Num("2")] && [Num("2")][..0] == [];
    assert ExpressionTree.Height(q) == 1;
    assert !p[3].Num? && ExpressionTree.HeightAt(p, 3) < 2;
  }

  /**
   * `2*(-3)` passes all ten checks and converts to `2 3 - *`; the builder
   * reads `-` as the binary minus of 2 and 3, so `*` finds a single tree and
   * throws.
   */
  lemma NegatedGroupPassesButFails()
    ensures Syntax.Validate("2*(-3)") == None
    ensures Page.Process("2*(-3)") == Err(Page.Failed(MissingOperands))
  {
    NegatedGroupValid("2*(-3)");
    NegatedGroupTokens();
    NegatedGroupPostfix();
    NegatedGroupBuild();
    NegatedGroupChars("2*(-3)");
    ProcessAfterConversion("2*(-3)", [Num("2"), Op(Mul), LParen, Op(Sub), Num("3"), RParen],
      [Num("2"), Num("3"), Op(Sub), Op(Mul)]);
  }

  // `(2+)`

  lemma OpenOperandChars(s: string)
    requires s == "(2+)"
    ensures forall i | 0 <= i < |s| :: !Syntax.IsSpace(s[i]) && Syntax.IsAllowedChar(s[i])
    ensures forall i | 0 <= i < |s| - 1 :: Syntax.NeighboursPass(s, i)
  {
    assert s[0] == '(' && s[1] == '2' && s[2] == '+' && s[3] == ')';
    forall i | 0 <= i < |s|
      ensures !Syntax.IsSpace(s[i]) && Syntax.IsAllowedChar(s[i])
    {
      assert i == 0 || i == 1 || i == 2 || i == 3;
    }
    forall i | 0 <= i < |s| - 1
      ensures Syntax.NeighboursPass(s, i)
    {
      assert i == 0 || i == 1 || i == 2;
    }
  }

  lemma OpenOperandValid(s: string)
    requires s == "(2+)"
    ensures Syntax.Validate(s) == None
  {
    OpenOperandChars(s);
    Syntax.BlankFreeChecks(s);
    Syntax.TrimNoSpaces(s);
    assert Parens.Balanced(s) by {
      Parens.NoParensBalanced("2+");
      Parens.BalancedWrap("2+");
      assert s == "(" + "2+" + ")";
    }
    assert Syntax.DropLeadingOpen(s) == "2+)" by {
      assert s[1..] == "2+)";
    }
    var r := "2+";
    assert Syntax.DropTrailingClose("2+)") == r by {
      assert "2+)"[..2] == r;
    }
    assert r[0] == '2' && !Syntax.IsSpace(r[0]);
    assert s[0] == '(' && s[3] == ')';
    Syntax.NoCheckFires(s);
  }

  lemma OpenOperandTokens()
    ensures Tokenizer.Tokenize("(2+)") == Ok([LParen, Num("2"), Op(Add), RParen])
  {
    var ts := [LParen, Num("2"), Op(Add), RParen];
    assert Tokenizer.NoAdjacentNums(ts) by {
      forall i | 0 <= i < |ts| - 1
        ensures !Tokenizer.NumPairAt(ts, i)
      {
        assert i == 0 || i == 1 || i == 2;
      }
    }
    assert Tokenizer.Texts(ts) == "(2+)";
    TokensOf("(2+)", ts);
  }

  lemma OpenOperandPostfix()
    ensures ShuntingYard.Convert([LParen, Num("2"), Op(Add), RParen]) == Ok([Num("2"), Op(Add)])
  {
    var ts := [LParen, Num("2"), Op(Add), RParen];
    var s0 := ShuntingYard.State([], []);
    var s1 := ShuntingYard.State([], [LParen]);
    var s2 := ShuntingYard.State([Num("2")], [LParen]);
    var s3 := ShuntingYard.State([Num("2")], [LParen, Op(Add)]);
    var s4 := ShuntingYard.State([Num("2"), Op(Add)], []);
    FeedStep(s0, LParen, s1, [Num("2"), Op(Add), RParen]);
    FeedStep(s1, Num("2"), s2, [Op(Add), RParen]);
    FeedStep(s2, Op(Add), s3, [RParen]);
    FeedStep(s3, RParen, s4, []);
    assert [LParen] + [Num("2"), Op(Add), RParen] == ts;
    assert ShuntingYard.FeedFrom(ts, s0) == Ok(s4);
  }

  lemma OpenOperandBuild()
    ensures ExpressionTree.Construct([Num("2"), Op(Add)], 0).0 == Err(MissingOperands)
  {
    var p := [Num("2"), Op(Add)];
    ExpressionTree.ConstructOutcome(p, 0);
    assert p[..1] == [Num("2")] && [Num("2")][..0] == [];
    assert !p[1].Num? && ExpressionTree.HeightAt(p, 1) < 2;
  }

  /**
   * `(2+)` passes all ten checks, converts to `2 +`, and the builder throws
   * at `+`, which finds a single operand.
   */
  lemma OperatorBeforeClosePassesButFails()
    ensures Syntax.Validate("(2+)") == None
    ensures Page.Process("(2+)") == Err(Page.Failed(MissingOperands))
  {
    OpenOperandValid("(2+)");
    OpenOperandTokens();
    OpenOperandPostfix();
    OpenOperandBuild();
    OpenOperandChars("(2+)");
    ProcessAfterConversion("(2+)", [LParen, Num("2"), Op(Add), RParen], [Num("2"), Op(Add)]);
  }
}
