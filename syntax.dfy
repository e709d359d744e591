/**
 * The syntax validator `validarSintaxis`: ten character-level checks, run in
 * a fixed order; the first one that fires decides the message, and `null`
 * (here `None`) means that none fired.
 *
 * Every check is a predicate that holds when its regular expression matches
 * (when `test` would return true, or, for the first check, when it would
 * return false). `\s` and `trim()` use JavaScript's whitespace set.
 */
module Syntax {
  import opened Wrappers
  import opened Tokens
  import Parens

  /** One kind per message, in the order the checks run. */
  datatype SyntaxError =
    | InvalidCharacters           // 1. a character outside digits, operators, parentheses and space
    | UnbalancedParentheses       // 2. the parentheses are not balanced
    | ConsecutiveOperators        // 3. two operators in a row
    | TrailingOperator            // 4. ends with an operator
    | LeadingOperator             // 5. starts with `+`, `*` or `/`
    | EmptyParentheses            // 6. a pair of parentheses with nothing inside
    | MissingOperatorBeforeParen  // 7. a number directly before `(`
    | MissingOperatorAfterParen   // 8. a number directly after `)`
    | AdjacentParenGroups         // 9. `)` directly before `(`
    | InvalidAfterParen           // 10. an operator right after the outer opening parentheses

  /** The position of a check in the cascade. */
  function Rank(e: SyntaxError): nat
  {
    match e
    case InvalidCharacters => 1
    case UnbalancedParentheses => 2
    case ConsecutiveOperators => 3
    case TrailingOperator => 4
    case LeadingOperator => 5
    case EmptyParentheses => 6
    case MissingOperatorBeforeParen => 7
    case MissingOperatorAfterParen => 8
    case AdjacentParenGroups => 9
    case InvalidAfterParen => 10
  }

  /** `\s` of a JavaScript regular expression; `trim()` strips the same characters. */
  predicate IsSpace(c: char)
  {
    || c == '\t' || c == '\n' || c == '\U{B}' || c == '\U{C}' || c == '\r' || c == ' '
    || c == '\U{A0}' || c == '\U{1680}' || ('\U{2000}' <= c <= '\U{200A}')
    || c == '\U{2028}' || c == '\U{2029}' || c == '\U{202F}' || c == '\U{205F}'
    || c == '\U{3000}' || c == '\U{FEFF}'
  }

  // The class `[\d+\-*/() ]` of the first check: only the plain space counts as blank there.
  predicate IsAllowedChar(c: char)
  {
    IsDigit(c) || IsSymbolChar(c) || c == ' '
  }

  /** `s[lo..hi]` is all whitespace: what `\s*` matches between two characters. */
  predicate SpacesOnly(s: string, lo: int, hi: int)
    requires 0 <= lo <= hi <= |s|
  {
    forall k | lo <= k < hi :: IsSpace(s[k])
  }

  /** The leading half of `trim()`. */
  function TrimStart(s: string): string
  {
    if s != [] && IsSpace(s[0]) then TrimStart(s[1..]) else s
  }

  /** The trailing half of `trim()`. */
  function TrimEnd(s: string): string
  {
    if s != [] && IsSpace(s[|s| - 1]) then TrimEnd(s[..|s| - 1]) else s
  }

  /** `String.prototype.trim`. */
  function Trim(s: string): string
  {
    TrimEnd(TrimStart(s))
  }

  /** `replace(/^\(+/, '')`: removes the whole run of `(` at the very start. */
  function DropLeadingOpen(s: string): string
  {
    if s != [] && s[0] == '(' then DropLeadingOpen(s[1..]) else s
  }

  /** `replace(/\)+$/, '')`: removes the whole run of `)` at the very end. */
  function DropTrailingClose(s: string): string
  {
    if s != [] && s[|s| - 1] == ')' then DropTrailingClose(s[..|s| - 1]) else s
  }

  /** What `DropLeadingOpen` keeps is a suffix of its input that does not start with `(`. */
  lemma {:induction false} DropLeadingOpenSuffix(s: string)
    ensures var r := DropLeadingOpen(s);
      && |r| <= |s| && r == s[|s| - |r|..]
      && (r == [] || r[0] != '(')
  {
    if s != [] && s[0] == '(' {
      var t := s[1..];
      DropLeadingOpenSuffix(t);
      var r := DropLeadingOpen(t);
      assert t[|t| - |r|..] == s[|s| - |r|..];
    }
  }

  /** What `DropLeadingOpen` removes is a run of `(`, and what it keeps does not start with one. */
  lemma {:induction false} DropLeadingOpenSpec(s: string)
    ensures var r := DropLeadingOpen(s);
      && |r| <= |s| && r == s[|s| - |r|..]
      && (r == [] || r[0] != '(')
      && forall k | 0 <= k < |s| - |r| :: s[k] == '('
  {
    DropLeadingOpenSuffix(s);
    if s != [] && s[0] == '(' {
      var t := s[1..];
      DropLeadingOpenSpec(t);
      forall k | 0 <= k < |s| - |DropLeadingOpen(s)|
        ensures s[k] == '('
      {
        if k > 0 {
          assert s[k] == t[k - 1];
        }
      }
    }
  }

  /** What `DropTrailingClose` removes is a run of `)`, and what it keeps does not end with one. */
  lemma {:induction false} DropTrailingCloseSpec(s: string)
    ensures var r := DropTrailingClose(s);
      && |r| <= |s| && r == s[..|r|]
      && (r == [] || r[|r| - 1] != ')')
      && forall k | |r| <= k < |s| :: s[k] == ')'
  {
    if s != [] && s[|s| - 1] == ')' {
      DropTrailingCloseSpec(s[..|s| - 1]);
    }
  }

  // The ten checks. Each holds when its check fires.

  // 1. `/^[\d+\-*/() ]+$/` fails: the string is empty or has a character outside the class.
  predicate HasInvalidChars(s: string)
  {
    s == [] || exists i | 0 <= i < |s| :: !IsAllowedChar(s[i])
  }

  // 3. `/[+\-*/]{2,}/`: two operator characters side by side.
  predicate HasConsecutiveOperators(s: string)
  {
    exists i | 0 <= i < |s| - 1 :: OperatorPairAt(s, i)
  }

  predicate OperatorPairAt(s: string, i: int)
    requires 0 <= i < |s| - 1
  {
    IsOperatorChar(s[i]) && IsOperatorChar(s[i + 1])
  }

  // 4. `/[+\-*/]$/` on the trimmed string.
  predicate EndsWithOperator(s: string)
  {
    var t := Trim(s);
    t != [] && IsOperatorChar(t[|t| - 1])
  }

  // 5. `/^[+*/]/` on the trimmed string: a leading `-` is let through.
  predicate StartsWithOperator(s: string)
  {
    var t := Trim(s);
    t != [] && (t[0] == '+' || t[0] == '*' || t[0] == '/')
  }

  /** 6. `/\(\s*\)/`. */
  predicate HasEmptyParens(s: string)
  {
    exists i, j | 0 <= i < j < |s| :: s[i] == '(' && s[j] == ')' && SpacesOnly(s, i + 1, j)
  }

  /** 7. `/\d\s*\(/`. */
  predicate HasDigitBeforeOpen(s: string)
  {
    exists i, j | 0 <= i < j < |s| :: IsDigit(s[i]) && s[j] == '(' && SpacesOnly(s, i + 1, j)
  }

  /** 8. `/\)\s*\d/`. */
  predicate HasDigitAfterClose(s: string)
  {
    exists i, j | 0 <= i < j < |s| :: s[i] == ')' && IsDigit(s[j]) && SpacesOnly(s, i + 1, j)
  }

  /** 9. `/\)\s*\(/`. */
  predicate HasOpenAfterClose(s: string)
  {
    exists i, j | 0 <= i < j < |s| :: s[i] == ')' && s[j] == '(' && SpacesOnly(s, i + 1, j)
  }

  // 10. `/^\s*[+\-*/]/` after the leading `(` run and then the trailing `)` run are removed.
  predicate OperatorAfterOuterParens(s: string)
  {
    var r := DropTrailingClose(DropLeadingOpen(s));
    exists j | 0 <= j < |r| :: IsOperatorChar(r[j]) && SpacesOnly(r, 0, j)
  }

  /** Whether the check of kind `e` fires on `s`. */
  predicate Fires(e: SyntaxError, s: string)
  {
    match e
    case InvalidCharacters => HasInvalidChars(s)
    case UnbalancedParentheses => !Parens.Balanced(s)
    case ConsecutiveOperators => HasConsecutiveOperators(s)
    case TrailingOperator => EndsWithOperator(s)
    case LeadingOperator => StartsWithOperator(s)
    case EmptyParentheses => HasEmptyParens(s)
    case MissingOperatorBeforeParen => HasDigitBeforeOpen(s)
    case MissingOperatorAfterParen => HasDigitAfterClose(s)
    case AdjacentParenGroups => HasOpenAfterClose(s)
    case InvalidAfterParen => OperatorAfterOuterParens(s)
  }

  /**
   * `validarSintaxis`: the first check that fires, in the order of `Rank`, or
   * `None` when no check fires.
   */
  function Validate(s: string): (r: Option<SyntaxError>)
    ensures r == None ==> forall e :: !Fires(e, s)
    ensures r.Some? ==> Fires(r.value, s) && forall e :: Rank(e) < Rank(r.value) ==> !Fires(e, s)
  {
    if HasInvalidChars(s) then Some(InvalidCharacters)
    else if !Parens.Balanced(s) then Some(UnbalancedParentheses)
    else if HasConsecutiveOperators(s) then Some(ConsecutiveOperators)
    else if EndsWithOperator(s) then Some(TrailingOperator)
    else if StartsWithOperator(s) then Some(LeadingOperator)
    else if HasEmptyParens(s) then Some(EmptyParentheses)
    else if HasDigitBeforeOpen(s) then Some(MissingOperatorBeforeParen)
    else if HasDigitAfterClose(s) then Some(MissingOperatorAfterParen)
    else if HasOpenAfterClose(s) then Some(AdjacentParenGroups)
    else if OperatorAfterOuterParens(s) then Some(InvalidAfterParen)
    else None
  }

  /** A character outside the first check's class yields its message, whatever else is wrong. */
  lemma InvalidCharactersWin(s: string, i: nat)
    requires i < |s| && !IsAllowedChar(s[i])
    ensures Validate(s) == Some(InvalidCharacters)
  {
  }

  /** What an accepted string is known to satisfy, stated position by position. */
  lemma AcceptedFacts(s: string)
    requires Validate(s) == None
    ensures s != [] && Parens.Balanced(s)
    ensures forall i | 0 <= i < |s| :: IsAllowedChar(s[i])
    ensures forall i | 0 <= i < |s| - 1 :: !(IsOperatorChar(s[i]) && IsOperatorChar(s[i + 1]))
    ensures var t := Trim(s); t == [] || !IsOperatorChar(t[|t| - 1])
    ensures forall i, j | 0 <= i < j < |s| && SpacesOnly(s, i + 1, j) ::
      && !(s[i] == '(' && s[j] == ')')
      && !(IsDigit(s[i]) && s[j] == '(')
      && !(s[i] == ')' && (IsDigit(s[j]) || s[j] == '('))
  {
    assert !Fires(InvalidCharacters, s);
    assert !Fires(UnbalancedParentheses, s);
    assert !Fires(ConsecutiveOperators, s);
    assert !Fires(TrailingOperator, s);
    assert !Fires(EmptyParentheses, s);
    assert !Fires(MissingOperatorBeforeParen, s);
    assert !Fires(MissingOperatorAfterParen, s);
    assert !Fires(AdjacentParenGroups, s);
    forall i | 0 <= i < |s| - 1
      ensures !(IsOperatorChar(s[i]) && IsOperatorChar(s[i + 1]))
    {
      assert !OperatorPairAt(s, i);
    }
  }

  // The character-level shape of a complete expression without blanks: a
  // non-empty, balanced string of digits, operators and parentheses that
  // starts with a digit or `(`, ends with a digit or `)`, and in which every
  // character may follow the one before it.

  predicate CanStart(c: char)
  {
    IsDigit(c) || c == '('
  }

  predicate CanEnd(c: char)
  {
    IsDigit(c) || c == ')'
  }

  /** Which character may come right after which in a complete expression. */
  predicate CanFollow(a: char, b: char)
  {
    if IsDigit(a) then IsDigit(b) || IsOperatorChar(b) || b == ')'
    else if IsOperatorChar(a) then IsDigit(b) || b == '('
    else if a == '(' then IsDigit(b) || b == '('
    else if a == ')' then IsOperatorChar(b) || b == ')'
    else false
  }

  /** The character at `i + 1` may follow the one at `i`. */
  predicate FollowsAt(s: string, i: int)
    requires 0 <= i < |s| - 1
  {
    CanFollow(s[i], s[i + 1])
  }

  predicate WellShaped(s: string)
  {
    && s != []
    && (forall i | 0 <= i < |s| :: IsDigit(s[i]) || IsSymbolChar(s[i]))
    && Parens.Balanced(s)
    && CanStart(s[0])
    && CanEnd(s[|s| - 1])
    && (forall i | 0 <= i < |s| - 1 :: FollowsAt(s, i))
  }

  /** `\s*` between two characters matches nothing, or starts with a blank. */
  lemma SpacedNeighbour(s: string, i: int, j: int)
    requires 0 <= i < j < |s| && SpacesOnly(s, i + 1, j)
    ensures j == i + 1 || IsSpace(s[i + 1])
  {
  }

  /** A blank-free string is its own trim. */
  lemma TrimNoSpaces(s: string)
    requires forall k | 0 <= k < |s| :: !IsSpace(s[k])
    ensures Trim(s) == s
  {
  }

  /** A complete expression has no blanks. */
  lemma ShapedNoSpaces(s: string)
    requires WellShaped(s)
    ensures forall k | 0 <= k < |s| :: !IsSpace(s[k])
  {
  }

  /** In a complete expression, `\s*` joins only neighbours, and those may follow each other. */
  lemma ShapedSpacedPair(s: string, i: int, j: int)
    requires WellShaped(s)
    requires 0 <= i < j < |s| && SpacesOnly(s, i + 1, j)
    ensures j == i + 1 && CanFollow(s[i], s[j])
  {
    SpacedNeighbour(s, i, j);
    assert IsDigit(s[i + 1]) || IsSymbolChar(s[i + 1]);
    assert FollowsAt(s, i);
  }

  /** In a complete expression, the leading `(` run is followed by a digit the trailing `)` run cannot reach. */
  lemma ShapedTenthCheck(s: string)
    requires WellShaped(s)
    ensures !OperatorAfterOuterParens(s)
  {
    var l := DropLeadingOpen(s);
    DropLeadingOpenSpec(s);
    var k := |s| - |l|;
    if l == [] {
      Parens.OpenRunDepth(s);
      assert false;
    }
    assert IsDigit(l[0]) by {
      if k > 0 {
        assert FollowsAt(s, k - 1);
      }
    }
    var r := DropTrailingClose(l);
    DropTrailingCloseSpec(l);
    assert r != [] && r[0] == l[0];
    forall j | 0 <= j < |r| && IsOperatorChar(r[j])
      ensures !SpacesOnly(r, 0, j)
    {
      assert j > 0 && !IsSpace(r[0]);
    }
  }

  /** When no check fires, the validator answers `None`. */
  lemma NoCheckFires(s: string)
    requires !HasInvalidChars(s) && Parens.Balanced(s) && !HasConsecutiveOperators(s)
    requires !EndsWithOperator(s) && !StartsWithOperator(s) && !HasEmptyParens(s)
    requires !HasDigitBeforeOpen(s) && !HasDigitAfterClose(s) && !HasOpenAfterClose(s)
    requires !OperatorAfterOuterParens(s)
    ensures Validate(s) == None
  {
  }

  /** In a complete expression no two operators meet, and none of checks 6 to 9 fires. */
  lemma ShapedAdjacencyChecks(s: string)
    requires WellShaped(s)
    ensures !HasConsecutiveOperators(s)
    ensures !HasEmptyParens(s) && !HasDigitBeforeOpen(s) && !HasDigitAfterClose(s) && !HasOpenAfterClose(s)
  {
    forall i | 0 <= i < |s| - 1
      ensures !OperatorPairAt(s, i)
    {
      assert FollowsAt(s, i);
    }
    forall i, j | 0 <= i < j < |s| && SpacesOnly(s, i + 1, j)
      ensures !(s[i] == '(' && s[j] == ')') && !(IsDigit(s[i]) && s[j] == '(')
      ensures !(s[i] == ')' && IsDigit(s[j])) && !(s[i] == ')' && s[j] == '(')
    {
      ShapedSpacedPair(s, i, j);
    }
  }

  /** A complete expression neither starts nor ends with an operator, trimmed or not. */
  lemma ShapedEnds(s: string)
    requires WellShaped(s)
    ensures !EndsWithOperator(s) && !StartsWithOperator(s)
  {
    ShapedNoSpaces(s);
    TrimNoSpaces(s);
    var t := Trim(s);
    assert t == s;
    assert CanStart(t[0]) && CanEnd(t[|t| - 1]);
  }

  /** None of the ten checks fires on a complete expression. */
  lemma ShapedPassesChecks(s: string)
    requires WellShaped(s)
    ensures !HasInvalidChars(s) && Parens.Balanced(s) && !HasConsecutiveOperators(s)
    ensures !EndsWithOperator(s) && !StartsWithOperator(s) && !HasEmptyParens(s)
    ensures !HasDigitBeforeOpen(s) && !HasDigitAfterClose(s) && !HasOpenAfterClose(s)
    ensures !OperatorAfterOuterParens(s)
  {
    ShapedNoSpaces(s);
    ShapedEnds(s);
    ShapedTenthCheck(s);
    ShapedAdjacencyChecks(s);
  }

  /** Every complete expression passes all ten checks. */
  lemma ShapedIsAccepted(s: string)
    requires WellShaped(s)
    ensures Validate(s) == None
  {
    ShapedPassesChecks(s);
    NoCheckFires(s);
  }

  /** `(` directly followed by an operator. */
  predicate HasOperatorAfterOpen(s: string)
  {
    exists i | 0 <= i < |s| - 1 :: OpenOperatorAt(s, i)
  }

  predicate OpenOperatorAt(s: string, i: int)
    requires 0 <= i < |s| - 1
  {
    s[i] == '(' && IsOperatorChar(s[i + 1])
  }

  /** `trimEnd()` keeps a first character that is not blank. */
  lemma {:induction false} TrimEndKeepsHead(s: string)
    requires s != [] && !IsSpace(s[0])
    ensures TrimEnd(s) != [] && TrimEnd(s)[0] == s[0]
    decreases |s|
  {
    if IsSpace(s[|s| - 1]) {
      TrimEndKeepsHead(s[..|s| - 1]);
    }
  }

  /** A string that starts with `-` trips the tenth check (the fifth lets it through). */
  lemma MinusFirstFires(s: string)
    requires s != []
    ensures s[0] == '-' ==> !StartsWithOperator(s)
    ensures s[0] == '-' ==> OperatorAfterOuterParens(s)
  {
    var r := DropTrailingClose(DropLeadingOpen(s));
    if s[0] == '-' {
      assert TrimStart(s) == s;
      TrimEndKeepsHead(s);
      assert DropLeadingOpen(s) == s;
      DropTrailingCloseSpec(s);
      assert r != [] && r[0] == '-';
      assert SpacesOnly(r, 0, 0);
    }
  }

  /** An operator directly followed by `)`. */
  predicate HasOperatorBeforeClose(s: string)
  {
    exists i | 0 <= i < |s| - 1 :: OperatorCloseAt(s, i)
  }

  predicate OperatorCloseAt(s: string, i: int)
    requires 0 <= i < |s| - 1
  {
    IsOperatorChar(s[i]) && s[i + 1] == ')'
  }

  /**
   * On a blank-free string the ten checks miss exactly two shapes of a
   * complete expression: an operator right after an inner `(` and an operator
   * right before `)`. Without those, an accepted string is complete.
   */
  lemma AcceptedIsShaped(s: string)
    requires Validate(s) == None
    requires forall k | 0 <= k < |s| :: !IsSpace(s[k])
    requires !HasOperatorAfterOpen(s) && !HasOperatorBeforeClose(s)
    ensures WellShaped(s)
  {
    assert !Fires(InvalidCharacters, s) && !Fires(UnbalancedParentheses, s);
    assert !Fires(ConsecutiveOperators, s) && !Fires(TrailingOperator, s);
    assert !Fires(EmptyParentheses, s) && !Fires(MissingOperatorBeforeParen, s);
    assert !Fires(MissingOperatorAfterParen, s) && !Fires(AdjacentParenGroups, s);
    assert !Fires(LeadingOperator, s);
    assert !Fires(InvalidAfterParen, s);
    TrimNoSpaces(s);
    var n := |s|;
    assert Parens.DepthAt(s, n) == 0 by { assert s[..n] == s; }
    // The first character: a `)` closes too early, a `-` fires the tenth check.
    assert s[0] != ')' by {
      assert s[..1][..0] == [];
      assert Parens.Depth(s[..1]) == Parens.Delta(s[0]);
      assert Parens.DepthAt(s, 1) >= 0;
    }
    MinusFirstFires(s);
    // The last character: a `(` leaves the counter above 0.
    assert s[n - 1] != '(' by {
      assert s[..n - 1] == s[..n][..n - 1];
      assert Parens.DepthAt(s, n - 1) >= 0;
    }
    forall i | 0 <= i < n - 1
      ensures FollowsAt(s, i)
    {
      assert !OperatorPairAt(s, i) && !OpenOperatorAt(s, i) && !OperatorCloseAt(s, i);
      assert SpacesOnly(s, i + 1, i + 1);
    }
  }

  /** The neighbours at `i` and `i + 1` trip none of checks 3 and 6 to 9. */
  predicate NeighboursPass(s: string, i: int)
    requires 0 <= i < |s| - 1
  {
    && !(IsOperatorChar(s[i]) && IsOperatorChar(s[i + 1]))
    && !(s[i] == '(' && s[i + 1] == ')')
    && !(IsDigit(s[i]) && s[i + 1] == '(')
    && !(s[i] == ')' && (IsDigit(s[i + 1]) || s[i + 1] == '('))
  }

  /** On a blank-free string, checks 3 and 6 to 9 only look at neighbouring characters. */
  lemma BlankFreeChecks(s: string)
    requires forall k | 0 <= k < |s| :: !IsSpace(s[k])
    requires forall i | 0 <= i < |s| - 1 :: NeighboursPass(s, i)
    ensures !HasConsecutiveOperators(s)
    ensures !HasEmptyParens(s) && !HasDigitBeforeOpen(s)
    ensures !HasDigitAfterClose(s) && !HasOpenAfterClose(s)
  {
    forall i | 0 <= i < |s| - 1
      ensures !OperatorPairAt(s, i)
    {
      assert NeighboursPass(s, i);
    }
    forall i, j | 0 <= i < j < |s| && SpacesOnly(s, i + 1, j)
      ensures !(s[i] == '(' && s[j] == ')') && !(IsDigit(s[i]) && s[j] == '(')
      ensures !(s[i] == ')' && IsDigit(s[j])) && !(s[i] == ')' && s[j] == '(')
    {
      SpacedNeighbour(s, i, j);
      assert NeighboursPass(s, i);
    }
  }
}
