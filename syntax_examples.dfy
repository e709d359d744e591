/**
 * Worked examples of the validator's cascade: each input below is refused
 * with the message of the first check that fires, every earlier check
 * having passed.
 */
module SyntaxExamples {
  import opened Wrappers
  import opened Tokens
  import Parens
  import Syntax

  /** A blank-free string of allowed characters passes the first check. */
  lemma AllowedChars(s: string)
    requires s != [] && forall i | 0 <= i < |s| :: IsDigit(s[i]) || IsSymbolChar(s[i])
    ensures !Syntax.HasInvalidChars(s)
  {
  }

  /** Without blanks, `\s*` between two characters matches only when they are neighbours. */
  lemma NoEmptyParens(s: string)
    requires forall k | 0 <= k < |s| :: !Syntax.IsSpace(s[k])
    requires forall i | 0 <= i < |s| - 1 :: !(s[i] == '(' && s[i + 1] == ')')
    ensures !Syntax.HasEmptyParens(s)
  {
    forall i, j | 0 <= i < j < |s| && Syntax.SpacesOnly(s, i + 1, j)
      ensures !(s[i] == '(' && s[j] == ')')
    {
      Syntax.SpacedNeighbour(s, i, j);
    }
  }

  /** `2++3`: two operators in a row. */
  lemma DoubledOperator()
    ensures Syntax.Validate("2++3") == Some(Syntax.ConsecutiveOperators)
  {
    var s := "2++3";
    assert s[0] == '2' && s[1] == '+' && s[2] == '+' && s[3] == '3';
    AllowedChars(s);
    assert Parens.Balanced(s) by {
      Parens.NoParensBalanced(s);
    }
    assert Syntax.OperatorPairAt(s, 1);
  }

  /** `2+3)`: a `)` without its `(`. */
  lemma UnmatchedClose()
    ensures Syntax.Validate("2+3)") == Some(Syntax.UnbalancedParentheses)
  {
    var s := "2+3)";
    assert s[0] == '2' && s[1] == '+' && s[2] == '3' && s[3] == ')';
    AllowedChars(s);
    assert s == "2+3" + ")";
    Parens.NoParensDepth("2+3");
    Parens.DepthAppend("2+3", ")");
    assert Parens.Depth(")") == -1 by {
      assert ")"[..0] == [];
    }
  }

  /** `()`: a pair of parentheses with nothing inside. */
  lemma EmptyPair()
    ensures Syntax.Validate("()") == Some(Syntax.EmptyParentheses)
  {
    var s := "()";
    assert s[0] == '(' && s[1] == ')';
    AllowedChars(s);
    assert Parens.Balanced(s) by {
      Parens.NoParensBalanced("");
      Parens.BalancedWrap("");
      assert s == "(" + "" + ")";
    }
    assert !Syntax.HasConsecutiveOperators(s);
    Syntax.TrimNoSpaces(s);
    assert Syntax.SpacesOnly(s, 1, 1);
  }

  /** `2(3+4)`: a number directly before `(`. */
  lemma NumberBeforeGroup()
    ensures Syntax.Validate("2(3+4)") == Some(Syntax.MissingOperatorBeforeParen)
  {
    var s := "2(3+4)";
    NumberBeforeGroupChars(s);
    AllowedChars(s);
    NumberBeforeGroupBalanced(s);
    Syntax.TrimNoSpaces(s);
    NoEmptyParens(s);
    assert Syntax.SpacesOnly(s, 1, 1);
  }

  lemma NumberBeforeGroupChars(s: string)
    requires s == "2(3+4)"
    ensures s[0] == '2' && s[1] == '(' && s[5] == ')'
    ensures forall i | 0 <= i < |s| :: IsDigit(s[i]) || IsSymbolChar(s[i])
    ensures !Syntax.HasConsecutiveOperators(s)
    ensures forall i | 0 <= i < |s| - 1 :: !(s[i] == '(' && s[i + 1] == ')')
  {
    assert s[0] == '2' && s[1] == '(' && s[2] == '3' && s[3] == '+' && s[4] == '4' && s[5] == ')';
    forall i | 0 <= i < |s| - 1
      ensures !Syntax.OperatorPairAt(s, i) && !(s[i] == '(' && s[i + 1] == ')')
    {
      assert i == 0 || i == 1 || i == 2 || i == 3 || i == 4;
    }
  }

  lemma NumberBeforeGroupBalanced(s: string)
    requires s == "2(3+4)"
    ensures Parens.Balanced(s)
  {
    Parens.NoParensBalanced("2");
    Parens.NoParensBalanced("3+4");
    Parens.BalancedWrap("3+4");
    Parens.BalancedAppend("2", "(" + "3+4" + ")");
    assert s == "2" + ("(" + "3+4" + ")");
  }
}
