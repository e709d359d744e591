/**
 * A reference grammar for the expressions the page is meant to accept:
 * numbers, the four operators with `*` and `/` binding tighter than `+` and
 * `-`, both associating to the left, and parentheses. An `Expr` is a parse
 * tree of that grammar; `Render` writes it out with the fewest parentheses
 * the grammar needs plus any explicit groups.
 *
 * The theorems here run the whole page on a rendered expression: the
 * validator accepts it, the tokenizer gives back its tokens, the converter
 * gives its post-order, and the builder gives the tree of the parse, with
 * ids 0, 1, 2, ... in post-order.
 */
module Grammar {
  import opened Wrappers
  import opened Tokens
  import Parens
  import Syntax
  import Tokenizer
  import ShuntingYard
  import ExpressionTree
  import Page

  datatype Expr =
    | Lit(digits: string)
    | Bin(op: Operator, left: Expr, right: Expr)
    | Group(inner: Expr)

  /** How tightly an expression holds together: an operator's precedence, or 3 for a number or a group. */
  function Level(e: Expr): nat
  {
    match e
    case Bin(op, _, _) => Prec(op)
    case _ => 3
  }

  /**
   * A parse tree of the grammar: numbers are non-empty digit runs, a left
   * operand binds at least as tightly as its operator and a right operand
   * strictly more tightly (left associativity).
   */
  predicate WellFormed(e: Expr)
  {
    match e
    case Lit(d) => d != [] && AllDigits(d)
    case Bin(op, l, r) => WellFormed(l) && WellFormed(r) && Level(l) >= Prec(op) && Level(r) > Prec(op)
    case Group(x) => WellFormed(x)
  }

  function Render(e: Expr): string
  {
    match e
    case Lit(d) => d
    case Bin(op, l, r) => Render(l) + [OperatorChar(op)] + Render(r)
    case Group(x) => "(" + Render(x) + ")"
  }

  /** The infix tokens of an expression. */
  function InfixTokens(e: Expr): seq<Token>
  {
    match e
    case Lit(d) => [Num(d)]
    case Bin(op, l, r) => InfixTokens(l) + [Op(op)] + InfixTokens(r)
    case Group(x) => [LParen] + InfixTokens(x) + [RParen]
  }

  /** The postfix tokens of an expression: operands first, then the operator. */
  function PostfixOf(e: Expr): seq<Token>
  {
    match e
    case Lit(d) => [Num(d)]
    case Bin(op, l, r) => PostfixOf(l) + PostfixOf(r) + [Op(op)]
    case Group(x) => PostfixOf(x)
  }

  /** The tree of an expression, its nodes numbered in post-order from `id`. */
  function TreeOf(e: Expr, id: nat): ExpressionTree.Node
  {
    match e
    case Lit(d) => ExpressionTree.Leaf(id, Num(d))
    case Bin(op, l, r) =>
      var nl := |PostfixOf(l)|;
      ExpressionTree.Branch(id + nl + |PostfixOf(r)|, Op(op), TreeOf(l, id), TreeOf(r, id + nl))
    case Group(x) => TreeOf(x, id)
  }

  // ---------------------------------------------------------------------
  // Tokenizing a rendered expression.

  lemma {:induction false} RenderedText(e: Expr)
    ensures Tokenizer.Texts(InfixTokens(e)) == Render(e)
  {
    match e
    case Lit(d) =>
      assert InfixTokens(e)[1..] == [];
    case Bin(op, l, r) =>
      RenderedText(l);
      RenderedText(r);
      Tokenizer.TextsAppend(InfixTokens(l) + [Op(op)], InfixTokens(r));
      Tokenizer.TextsAppend(InfixTokens(l), [Op(op)]);
      assert [Op(op)][1..] == [];
    case Group(x) =>
      RenderedText(x);
      Tokenizer.TextsAppend([LParen] + InfixTokens(x), [RParen]);
      Tokenizer.TextsAppend([LParen], InfixTokens(x));
      assert [LParen][1..] == [] && [RParen][1..] == [];
  }

  lemma NoAdjacentNumsAppend(a: seq<Token>, b: seq<Token>)
    requires Tokenizer.NoAdjacentNums(a) && Tokenizer.NoAdjacentNums(b)
    requires a == [] || b == [] || !a[|a| - 1].Num? || !b[0].Num?
    ensures Tokenizer.NoAdjacentNums(a + b)
  {
    var c := a + b;
    forall i | 0 <= i < |c| - 1
      ensures !Tokenizer.NumPairAt(c, i)
    {
      if i < |a| - 1 {
        assert !Tokenizer.NumPairAt(a, i);
      } else if i >= |a| {
        assert !Tokenizer.NumPairAt(b, i - |a|);
      }
    }
  }

  /** Well-formed tokens, never two numbers in a row, starting and ending with an operand. */
  predicate CleanTokens(ts: seq<Token>)
  {
    && ts != []
    && (forall i | 0 <= i < |ts| :: WellFormedToken(ts[i]))
    && Tokenizer.NoAdjacentNums(ts)
    && (ts[0].Num? || ts[0] == LParen)
    && (ts[|ts| - 1].Num? || ts[|ts| - 1] == RParen)
  }

  lemma CleanJoin(a: seq<Token>, op: Operator, b: seq<Token>)
    requires CleanTokens(a) && CleanTokens(b)
    ensures CleanTokens(a + [Op(op)] + b)
  {
    NoAdjacentNumsAppend(a, [Op(op)]);
    NoAdjacentNumsAppend(a + [Op(op)], b);
    assert (a + [Op(op)])[|a|] == Op(op);
  }

  lemma CleanWrap(a: seq<Token>)
    requires CleanTokens(a)
    ensures CleanTokens([LParen] + a + [RParen])
  {
    NoAdjacentNumsAppend([LParen], a);
    NoAdjacentNumsAppend([LParen] + a, [RParen]);
  }

  /** The tokens of a well-formed expression are well formed, never two numbers in a row, and start and end with an operand. */
  lemma {:induction false} InfixTokensClean(e: Expr)
    requires WellFormed(e)
    ensures CleanTokens(InfixTokens(e))
  {
    match e
    case Lit(d) =>
    case Bin(op, l, r) =>
      InfixTokensClean(l);
      InfixTokensClean(r);
      CleanJoin(InfixTokens(l), op, InfixTokens(r));
    case Group(x) =>
      InfixTokensClean(x);
      CleanWrap(InfixTokens(x));
  }

  /** Tokenizing a rendered well-formed expression gives back its tokens. */
  lemma TokenizeRendered(e: Expr)
    requires WellFormed(e)
    ensures Tokenizer.Tokenize(Render(e)) == Ok(InfixTokens(e))
  {
    InfixTokensClean(e);
    RenderedText(e);
    Tokenizer.ScanUnique(InfixTokens(e));
  }

  // ---------------------------------------------------------------------
  // A rendered expression passes the syntax checks.

  lemma LiteralShaped(d: string)
    requires d != [] && AllDigits(d)
    ensures Syntax.WellShaped(d)
  {
    Parens.NoParensBalanced(d);
    forall i | 0 <= i < |d| - 1
      ensures Syntax.FollowsAt(d, i)
    {
      assert IsDigit(d[i]) && IsDigit(d[i + 1]);
    }
  }

  /** Two complete expressions joined by an operator make a complete expression. */
  lemma JoinShaped(a: string, c: char, b: string)
    requires Syntax.WellShaped(a) && Syntax.WellShaped(b) && IsOperatorChar(c)
    ensures Syntax.WellShaped(a + [c] + b)
  {
    var s := a + [c] + b;
    Parens.NoParensBalanced([c]);
    Parens.BalancedAppend(a, [c]);
    Parens.BalancedAppend(a + [c], b);
    forall i | 0 <= i < |s|
      ensures IsDigit(s[i]) || IsSymbolChar(s[i])
    {
      if i > |a| {
        assert s[i] == b[i - |a| - 1];
      }
    }
    forall i | 0 <= i < |s| - 1
      ensures Syntax.FollowsAt(s, i)
    {
      if i < |a| - 1 {
        assert Syntax.FollowsAt(a, i);
      } else if i > |a| {
        assert Syntax.FollowsAt(b, i - |a| - 1);
        assert s[i] == b[i - |a| - 1] && s[i + 1] == b[i - |a|];
      } else if i == |a| {
        assert s[i + 1] == b[0];
      }
    }
  }

  /** A complete expression in parentheses is a complete expression. */
  lemma WrapShaped(x: string)
    requires Syntax.WellShaped(x)
    ensures Syntax.WellShaped("(" + x + ")")
  {
    var s := "(" + x + ")";
    Parens.BalancedWrap(x);
    forall i | 0 <= i < |s|
      ensures IsDigit(s[i]) || IsSymbolChar(s[i])
    {
      if 0 < i <= |x| {
        assert s[i] == x[i - 1];
      }
    }
    forall i | 0 <= i < |s| - 1
      ensures Syntax.FollowsAt(s, i)
    {
      if 0 < i < |x| {
        assert Syntax.FollowsAt(x, i - 1);
        assert s[i] == x[i - 1] && s[i + 1] == x[i];
      } else if i == 0 {
        assert s[1] == x[0];
      } else {
        assert s[i] == x[|x| - 1];
      }
    }
  }

  /** A rendered well-formed expression is a complete expression. */
  lemma {:induction false} RenderShaped(e: Expr)
    requires WellFormed(e)
    ensures Syntax.WellShaped(Render(e))
  {
    match e
    case Lit(d) =>
      LiteralShaped(d);
    case Bin(op, l, r) =>
      RenderShaped(l);
      RenderShaped(r);
      JoinShaped(Render(l), OperatorChar(op), Render(r));
    case Group(x) =>
      RenderShaped(x);
      WrapShaped(Render(x));
  }

  /** The validator accepts every rendered well-formed expression. */
  lemma RenderAccepted(e: Expr)
    requires WellFormed(e)
    ensures Syntax.Validate(Render(e)) == None
  {
    RenderShaped(e);
    Syntax.ShapedIsAccepted(Render(e));
  }

  // ---------------------------------------------------------------------
  // Converting the tokens of an expression.

  /** What the converter has output once it has read an expression's tokens. */
  function Emitted(e: Expr): seq<Token>
  {
    match e
    case Lit(d) => [Num(d)]
    case Bin(op, l, r) => PostfixOf(l) + Emitted(r)
    case Group(x) => PostfixOf(x)
  }

  /** The operators an expression leaves on the stack, bottom first, for the next token to pop. */
  function Pending(e: Expr): seq<Token>
  {
    match e
    case Lit(_) => []
    case Bin(op, l, r) => [Op(op)] + Pending(r)
    case Group(_) => []
  }

  /** Only operators of precedence at least `p`. */
  predicate OperatorsFrom(ts: seq<Token>, p: nat)
  {
    forall k | 0 <= k < |ts| :: ts[k].Op? && p <= Prec(ts[k].op)
  }

  lemma OperatorsLast(run: seq<Token>, p: nat)
    requires run != [] && OperatorsFrom(run, p)
    ensures OperatorsFrom(run[..|run| - 1], p)
    ensures run[|run| - 1].Op? && p <= Prec(run[|run| - 1].op)
  {
    var rest := run[..|run| - 1];
    assert forall k | 0 <= k < |rest| :: rest[k] == run[k];
  }

  lemma {:induction false} ReversedCons(t: Token, ts: seq<Token>)
    ensures ShuntingYard.Reversed([t] + ts) == ShuntingYard.Reversed(ts) + [t]
    decreases |ts|
  {
    if ts != [] {
      var n := |ts|;
      assert ([t] + ts)[..n] == [t] + ts[..n - 1];
      ReversedCons(t, ts[..n - 1]);
      assert ShuntingYard.Reversed([t] + ts)
        == [ts[n - 1]] + (ShuntingYard.Reversed(ts[..n - 1]) + [t]);
    } else {
      assert [t][..0] == [];
    }
  }

  /** An expression's post-order is what it emits, then its pending operators in popping order. */
  lemma {:induction false} EmittedPending(e: Expr)
    ensures PostfixOf(e) == Emitted(e) + ShuntingYard.Reversed(Pending(e))
  {
    match e
    case Lit(_) =>
    case Bin(op, l, r) =>
      EmittedPending(r);
      ReversedCons(Op(op), Pending(r));
      assert Emitted(e) + ShuntingYard.Reversed(Pending(e))
        == PostfixOf(l) + (Emitted(r) + ShuntingYard.Reversed(Pending(r))) + [Op(op)];
    case Group(_) =>
  }

  /** The pending operators of a well-formed expression are at least as strong as the expression. */
  lemma {:induction false} PendingOperators(e: Expr)
    requires WellFormed(e)
    ensures OperatorsFrom(Pending(e), Level(e))
  {
    match e
    case Lit(_) =>
    case Bin(op, l, r) =>
      PendingOperators(r);
      OperatorsWeaker(Pending(r), Level(r), Prec(op));
      OperatorsCons(Op(op), Pending(r), Prec(op));
    case Group(_) =>
  }

  lemma OperatorsWeaker(ts: seq<Token>, p: nat, q: nat)
    requires q <= p && OperatorsFrom(ts, p)
    ensures OperatorsFrom(ts, q)
  {
  }

  lemma OperatorsCons(t: Token, ts: seq<Token>, p: nat)
    requires t.Op? && p <= Prec(t.op) && OperatorsFrom(ts, p)
    ensures OperatorsFrom([t] + ts, p)
  {
    forall k | 0 <= k < |[t] + ts|
      ensures ([t] + ts)[k].Op? && p <= Prec(([t] + ts)[k].op)
    {
      if k > 0 {
        assert ([t] + ts)[k] == ts[k - 1];
      }
    }
  }

  /** A token that pops for precedence `q` pops for any weaker precedence too. */
  lemma PopsForWeaker(stack: seq<Token>, p: nat, q: nat)
    requires p <= q && !ShuntingYard.PopsFor(stack, p)
    ensures !ShuntingYard.PopsFor(stack, q)
  {
  }

  /** An operator of precedence `p` pops the whole run of stronger operators above a stack that does not pop for it. */
  lemma {:induction false} PopRun(out: seq<Token>, stack: seq<Token>, run: seq<Token>, p: nat)
    requires OperatorsFrom(run, p) && !ShuntingYard.PopsFor(stack, p)
    ensures ShuntingYard.PopOperators(ShuntingYard.State(out, stack + run), p)
      == ShuntingYard.State(out + ShuntingYard.Reversed(run), stack)
    decreases |run|
  {
    if run == [] {
      assert stack + run == stack && out + [] == out;
    } else {
      var n := |run|;
      var top, rest := run[n - 1], run[..n - 1];
      OperatorsLast(run, p);
      PopTop(out, stack, run, p);
      PopRun(out + [top], stack, rest, p);
      ShuntingYard.ReversedLast(out, run);
    }
  }

  /** The top of a run of operators that pop for `p` goes to the output first. */
  lemma PopTop(out: seq<Token>, stack: seq<Token>, run: seq<Token>, p: nat)
    requires run != [] && run[|run| - 1].Op? && p <= Prec(run[|run| - 1].op)
    ensures ShuntingYard.PopOperators(ShuntingYard.State(out, stack + run), p)
      == ShuntingYard.PopOperators(ShuntingYard.State(out + [run[|run| - 1]], stack + run[..|run| - 1]), p)
  {
    ShuntingYard.TopOfRun(stack, run);
  }

  /** Emptying a stack of operators outputs them in popping order. */
  lemma {:induction false} DrainRun(out: seq<Token>, run: seq<Token>)
    requires OperatorsFrom(run, 0)
    ensures ShuntingYard.Drain(ShuntingYard.State(out, run)) == Ok(out + ShuntingYard.Reversed(run))
    decreases |run|
  {
    if run == [] {
      assert out + [] == out;
    } else {
      var n := |run|;
      assert run[n - 1].Op?;
      DrainRun(out + [run[n - 1]], run[..n - 1]);
      ShuntingYard.ReversedLast(out, run);
    }
  }

  /** Reading `a + b` reads `a`, then `b` from where `a` left the converter. */
  lemma {:induction false} FeedAppend(a: seq<Token>, b: seq<Token>, s: ShuntingYard.State)
    requires ShuntingYard.FeedFrom(a, s).Ok?
    ensures ShuntingYard.FeedFrom(a + b, s) == ShuntingYard.FeedFrom(b, ShuntingYard.FeedFrom(a, s).value)
    decreases |a|
  {
    if a == [] {
      assert a + b == b;
    } else {
      assert (a + b)[0] == a[0] && (a + b)[1..] == a[1..] + b;
      FeedAppend(a[1..], b, ShuntingYard.Feed(s, a[0]).value);
    }
  }

  lemma FeedOne(t: Token, s: ShuntingYard.State)
    ensures ShuntingYard.FeedFrom([t], s) == ShuntingYard.Feed(s, t)
  {
    assert [t][1..] == [];
  }

  /**
   * Reading `( x )` when the tokens of `x`, read above the `(`, output
   * `emitted` and leave `pending`: the group outputs its whole post-order
   * `post` and leaves the stack as it found it.
   */
  lemma GroupSteps(inner: seq<Token>, out: seq<Token>, stack: seq<Token>,
                   emitted: seq<Token>, pending: seq<Token>, post: seq<Token>)
    requires ShuntingYard.FeedFrom(inner, ShuntingYard.State(out, stack + [LParen]))
      == Ok(ShuntingYard.State(out + emitted, stack + [LParen] + pending))
    requires OperatorsFrom(pending, 0) && post == emitted + ShuntingYard.Reversed(pending)
    ensures ShuntingYard.FeedFrom([LParen] + inner + [RParen], ShuntingYard.State(out, stack))
      == Ok(ShuntingYard.State(out + post, stack))
  {
    var s0 := ShuntingYard.State(out, stack);
    FeedOne(LParen, s0);
    FeedAppend([LParen], inner, s0);
    FeedAppend([LParen] + inner, [RParen], s0);
    assert forall k | 0 <= k < |pending| :: pending[k] != LParen;
    ShuntingYard.PopToOpenAbove(out + emitted, stack, pending);
    FeedOne(RParen, ShuntingYard.State(out + emitted, stack + [LParen] + pending));
    assert out + emitted + ShuntingYard.Reversed(pending) == out + post;
  }

  /**
   * Reading `l op r`: the operator pops what `l` left pending (each at
   * least as strong as `op`) and goes on the stack, then `r` is read above
   * it.
   */
  lemma BinSteps(op: Operator, left: seq<Token>, right: seq<Token>, out: seq<Token>, stack: seq<Token>,
                 emittedL: seq<Token>, pendingL: seq<Token>, postL: seq<Token>, emittedR: seq<Token>, pendingR: seq<Token>)
    requires ShuntingYard.FeedFrom(left, ShuntingYard.State(out, stack))
      == Ok(ShuntingYard.State(out + emittedL, stack + pendingL))
    requires OperatorsFrom(pendingL, Prec(op)) && !ShuntingYard.PopsFor(stack, Prec(op))
    requires postL == emittedL + ShuntingYard.Reversed(pendingL)
    requires ShuntingYard.FeedFrom(right, ShuntingYard.State(out + postL, stack + [Op(op)]))
      == Ok(ShuntingYard.State(out + postL + emittedR, stack + [Op(op)] + pendingR))
    ensures ShuntingYard.FeedFrom(left + [Op(op)] + right, ShuntingYard.State(out, stack))
      == Ok(ShuntingYard.State(out + (postL + emittedR), stack + ([Op(op)] + pendingR)))
  {
    OperatorAfter(op, out, stack, emittedL, pendingL, postL);
    FeedThree(left, [Op(op)], right, ShuntingYard.State(out, stack),
      ShuntingYard.State(out + emittedL, stack + pendingL), ShuntingYard.State(out + postL, stack + [Op(op)]),
      ShuntingYard.State(out + postL + emittedR, stack + [Op(op)] + pendingR));
    ShuntingYard.Associate(out, postL, emittedR);
    ShuntingYard.Associate(stack, [Op(op)], pendingR);
  }

  /** Reading three pieces one after the other. */
  lemma FeedThree(a: seq<Token>, b: seq<Token>, c: seq<Token>,
                  s0: ShuntingYard.State, s1: ShuntingYard.State, s2: ShuntingYard.State, s3: ShuntingYard.State)
    requires ShuntingYard.FeedFrom(a, s0) == Ok(s1)
    requires ShuntingYard.FeedFrom(b, s1) == Ok(s2)
    requires ShuntingYard.FeedFrom(c, s2) == Ok(s3)
    ensures ShuntingYard.FeedFrom(a + b + c, s0) == Ok(s3)
  {
    FeedAppend(a, b, s0);
    FeedAppend(a + b, c, s0);
  }

  /** The operator of `l op r` pops what `l` left pending and goes on the stack. */
  lemma OperatorAfter(op: Operator, out: seq<Token>, stack: seq<Token>,
                      emitted: seq<Token>, pending: seq<Token>, post: seq<Token>)
    requires OperatorsFrom(pending, Prec(op)) && !ShuntingYard.PopsFor(stack, Prec(op))
    requires post == emitted + ShuntingYard.Reversed(pending)
    ensures ShuntingYard.FeedFrom([Op(op)], ShuntingYard.State(out + emitted, stack + pending))
      == Ok(ShuntingYard.State(out + post, stack + [Op(op)]))
  {
    var s1 := ShuntingYard.State(out + emitted, stack + pending);
    PopRun(out + emitted, stack, pending, Prec(op));
    assert out + emitted + ShuntingYard.Reversed(pending) == out + post;
    FeedOne(Op(op), s1);
  }

  /**
   * Reading the tokens of a well-formed expression from a stack whose top
   * does not pop for the expression's level outputs what the expression
   * emits and leaves its pending operators on the stack.
   */
  lemma {:induction false} FeedExpr(e: Expr, out: seq<Token>, stack: seq<Token>)
    requires WellFormed(e) && !ShuntingYard.PopsFor(stack, Level(e))
    ensures ShuntingYard.FeedFrom(InfixTokens(e), ShuntingYard.State(out, stack))
      == Ok(ShuntingYard.State(out + Emitted(e), stack + Pending(e)))
  {
    match e
    case Lit(d) =>
      FeedOne(Num(d), ShuntingYard.State(out, stack));
      assert stack + [] == stack;
    case Group(x) =>
      FeedExpr(x, out, stack + [LParen]);
      EmittedPending(x);
      PendingOperators(x);
      OperatorsWeaker(Pending(x), Level(x), 0);
      GroupSteps(InfixTokens(x), out, stack, Emitted(x), Pending(x), PostfixOf(x));
      assert stack + [] == stack;
    case Bin(op, l, r) =>
      PopsForWeaker(stack, Prec(op), Level(l));
      FeedExpr(l, out, stack);
      EmittedPending(l);
      PendingOperators(l);
      OperatorsWeaker(Pending(l), Level(l), Prec(op));
      FeedExpr(r, out + PostfixOf(l), stack + [Op(op)]);
      BinSteps(op, InfixTokens(l), InfixTokens(r), out, stack,
               Emitted(l), Pending(l), PostfixOf(l), Emitted(r), Pending(r));
  }

  /** The converter turns the tokens of a well-formed expression into their post-order. */
  lemma ConvertExpr(e: Expr)
    requires WellFormed(e)
    ensures ShuntingYard.Convert(InfixTokens(e)) == Ok(PostfixOf(e))
  {
    FeedExpr(e, [], []);
    EmittedPending(e);
    PendingOperators(e);
    OperatorsWeaker(Pending(e), Level(e), 0);
    ConvertVia(InfixTokens(e), Emitted(e), Pending(e));
  }

  /** A conversion whose main loop leaves only operators on the stack outputs them last, in popping order. */
  lemma ConvertVia(ts: seq<Token>, emitted: seq<Token>, pending: seq<Token>)
    requires ShuntingYard.FeedFrom(ts, ShuntingYard.State([], [])) == Ok(ShuntingYard.State([] + emitted, [] + pending))
    requires OperatorsFrom(pending, 0)
    ensures ShuntingYard.Convert(ts) == Ok(emitted + ShuntingYard.Reversed(pending))
  {
    assert [] + emitted == emitted && [] + pending == pending;
    DrainRun(emitted, pending);
  }

  // ---------------------------------------------------------------------
  // Building the tree of an expression's post-order.

  /** Building from `a + b` builds from `a`, then from `b` on what `a` left. */
  lemma {:induction false} BuildAppend(a: seq<Token>, b: seq<Token>, stack: seq<ExpressionTree.Node>, counter: nat)
    requires ExpressionTree.BuildFrom(a, stack, counter).stack.Ok?
    ensures var mid := ExpressionTree.BuildFrom(a, stack, counter);
      ExpressionTree.BuildFrom(a + b, stack, counter) == ExpressionTree.BuildFrom(b, mid.stack.value, mid.counter)
    decreases |a|
  {
    if a == [] {
      assert a + b == b;
    } else {
      assert (a + b)[0] == a[0] && (a + b)[1..] == a[1..] + b;
      BuildAppend(a[1..], b, ExpressionTree.Push(stack, counter, a[0]), counter + 1);
    }
  }

  /** The operator closing `l op r` combines the two trees on top of the stack. */
  lemma CombineStep(op: Operator, stack: seq<ExpressionTree.Node>,
                    left: ExpressionTree.Node, right: ExpressionTree.Node, counter: nat)
    ensures ExpressionTree.BuildFrom([Op(op)], stack + [left] + [right], counter)
      == ExpressionTree.Progress(Ok(stack + [ExpressionTree.Branch(counter, Op(op), left, right)]), counter + 1)
  {
    var st := stack + [left] + [right];
    assert st[..|st| - 2] == stack && st[|st| - 2] == left && st[|st| - 1] == right;
    assert [Op(op)][1..] == [];
  }

  /** Building `l op r` from the trees that the post-orders of `l` and `r` push. */
  lemma BuildBin(op: Operator, left: seq<Token>, right: seq<Token>, stack: seq<ExpressionTree.Node>,
                 treeL: ExpressionTree.Node, treeR: ExpressionTree.Node, counter: nat)
    requires ExpressionTree.BuildFrom(left, stack, counter)
      == ExpressionTree.Progress(Ok(stack + [treeL]), counter + |left|)
    requires ExpressionTree.BuildFrom(right, stack + [treeL], counter + |left|)
      == ExpressionTree.Progress(Ok(stack + [treeL] + [treeR]), counter + |left| + |right|)
    ensures ExpressionTree.BuildFrom(left + right + [Op(op)], stack, counter)
      == ExpressionTree.Progress(
           Ok(stack + [ExpressionTree.Branch(counter + |left| + |right|, Op(op), treeL, treeR)]),
           counter + |left| + |right| + 1)
  {
    assert left + right + [Op(op)] == left + (right + [Op(op)]);
    BuildAppend(left, right + [Op(op)], stack, counter);
    BuildAppend(right, [Op(op)], stack + [treeL], counter + |left|);
    CombineStep(op, stack, treeL, treeR, counter + |left| + |right|);
  }

  /**
   * Building from the post-order of an expression pushes exactly the tree
   * of that expression, numbered from the counter, whatever lies below it
   * on the stack.
   */
  lemma {:induction false} BuildExpr(e: Expr, stack: seq<ExpressionTree.Node>, counter: nat)
    ensures ExpressionTree.BuildFrom(PostfixOf(e), stack, counter)
      == ExpressionTree.Progress(Ok(stack + [TreeOf(e, counter)]), counter + |PostfixOf(e)|)
  {
    match e
    case Lit(d) =>
      assert [Num(d)][1..] == [];
    case Group(x) =>
      BuildExpr(x, stack, counter);
    case Bin(op, l, r) =>
      var pl := PostfixOf(l);
      BuildExpr(l, stack, counter);
      BuildExpr(r, stack + [TreeOf(l, counter)], counter + |pl|);
      BuildBin(op, pl, PostfixOf(r), stack, TreeOf(l, counter), TreeOf(r, counter + |pl|), counter);
  }

  /** `construirArbol` on the post-order of an expression returns the expression's tree and advances the counter by its size. */
  lemma ConstructExpr(e: Expr, counter: nat)
    ensures ExpressionTree.Construct(PostfixOf(e), counter) == (Ok(TreeOf(e, counter)), counter + |PostfixOf(e)|)
  {
    BuildExpr(e, [], counter);
    assert [] + [TreeOf(e, counter)] == [TreeOf(e, counter)];
  }

  // ---------------------------------------------------------------------
  // The whole page.

  lemma RenderNonEmpty(e: Expr)
    requires WellFormed(e)
    ensures Render(e) != []
  {
    match e
    case Lit(d) =>
    case Bin(op, l, r) =>
      assert |Render(e)| >= |Render(l)| + 1;
    case Group(x) =>
      assert |Render(e)| >= 2;
  }

  /**
   * The page turns the text of every well-formed expression into that
   * expression's tree, its nodes numbered 0, 1, ... in post-order.
   */
  lemma EndToEnd(e: Expr)
    requires WellFormed(e)
    ensures Page.Process(Render(e)) == Ok(TreeOf(e, 0))
  {
    var text := Render(e);
    RenderShaped(e);
    Syntax.ShapedNoSpaces(text);
    Page.StripSpacesSpec(text);
    assert Page.StripSpaces(text) == text;
    Syntax.TrimNoSpaces(text);
    RenderNonEmpty(e);
    RenderAccepted(e);
    RenderedPostfix(e);
    ConstructExpr(e, 0);
  }

  /** A worked example: the text of a well-formed expression goes through the page to its tree. */
  lemma ExampleTree(e: Expr, text: string, tree: ExpressionTree.Node)
    requires WellFormed(e) && Render(e) == text && TreeOf(e, 0) == tree
    ensures Page.Process(text) == Ok(tree)
  {
    EndToEnd(e);
  }

  /** A worked example: the text of a well-formed expression converts to its post-order. */
  lemma ExamplePostfix(e: Expr, text: string, post: seq<Token>)
    requires WellFormed(e) && Render(e) == text && PostfixOf(e) == post
    ensures ShuntingYard.ToPostfix(text) == Ok(post)
  {
    RenderedPostfix(e);
  }

  /** `infixAPostfix` on the text of a well-formed expression returns its post-order. */
  lemma RenderedPostfix(e: Expr)
    requires WellFormed(e)
    ensures ShuntingYard.ToPostfix(Render(e)) == Ok(PostfixOf(e))
  {
    TokenizeRendered(e);
    ConvertExpr(e);
  }

  // ---------------------------------------------------------------------
  // Examples.

  /** Subtraction groups to the left: `8-3-2` is `(8-3)-2`. */
  lemma LeftAssociativeFacts(e: Expr)
    requires e == Bin(Sub, Bin(Sub, Lit("8"), Lit("3")), Lit("2"))
    ensures WellFormed(e) && Render(e) == "8-3-2"
    ensures PostfixOf(e) == [Num("8"), Num("3"), Op(Sub), Num("2"), Op(Sub)]
    ensures TreeOf(e, 0) == ExpressionTree.Branch(4, Op(Sub),
      ExpressionTree.Branch(2, Op(Sub), ExpressionTree.Leaf(0, Num("8")), ExpressionTree.Leaf(1, Num("3"))),
      ExpressionTree.Leaf(3, Num("2")))
  {
    assert AllDigits("2") && AllDigits("3") && AllDigits("8");
    assert |PostfixOf(Bin(Sub, Lit("8"), Lit("3")))| == 3;
  }

  lemma LeftAssociativePostfix()
    ensures ShuntingYard.ToPostfix("8-3-2") == Ok([Num("8"), Num("3"), Op(Sub), Num("2"), Op(Sub)])
  {
    var e := Bin(Sub, Bin(Sub, Lit("8"), Lit("3")), Lit("2"));
    LeftAssociativeFacts(e);
    ExamplePostfix(e, "8-3-2", PostfixOf(e));
  }

  lemma LeftAssociativeTree()
    ensures Page.Process("8-3-2") == Ok(
      ExpressionTree.Branch(4, Op(Sub),
        ExpressionTree.Branch(2, Op(Sub), ExpressionTree.Leaf(0, Num("8")), ExpressionTree.Leaf(1, Num("3"))),
        ExpressionTree.Leaf(3, Num("2"))))
  {
    var e := Bin(Sub, Bin(Sub, Lit("8"), Lit("3")), Lit("2"));
    LeftAssociativeFacts(e);
    ExampleTree(e, "8-3-2", TreeOf(e, 0));
  }

  /** Multiplication binds tighter than addition: `2+3*4` is `2+(3*4)`. */
  lemma ProductFirstFacts(e: Expr)
    requires e == Bin(Add, Lit("2"), Bin(Mul, Lit("3"), Lit("4")))
    ensures WellFormed(e) && Render(e) == "2+3*4"
    ensures PostfixOf(e) == [Num("2"), Num("3"), Num("4"), Op(Mul), Op(Add)]
    ensures TreeOf(e, 0) == ExpressionTree.Branch(4, Op(Add),
      ExpressionTree.Leaf(0, Num("2")),
      ExpressionTree.Branch(3, Op(Mul), ExpressionTree.Leaf(1, Num("3")), ExpressionTree.Leaf(2, Num("4"))))
  {
    assert AllDigits("2") && AllDigits("3") && AllDigits("4");
    assert |PostfixOf(Bin(Mul, Lit("3"), Lit("4")))| == 3;
    assert TreeOf(Bin(Mul, Lit("3"), Lit("4")), 1)
      == ExpressionTree.Branch(3, Op(Mul), ExpressionTree.Leaf(1, Num("3")), ExpressionTree.Leaf(2, Num("4")));
  }

  lemma ProductFirstPostfix()
    ensures ShuntingYard.ToPostfix("2+3*4") == Ok([Num("2"), Num("3"), Num("4"), Op(Mul), Op(Add)])
  {
    var e := Bin(Add, Lit("2"), Bin(Mul, Lit("3"), Lit("4")));
    ProductFirstFacts(e);
    ExamplePostfix(e, "2+3*4", PostfixOf(e));
  }

  lemma ProductFirstTree()
    ensures Page.Process("2+3*4") == Ok(
      ExpressionTree.Branch(4, Op(Add),
        ExpressionTree.Leaf(0, Num("2")),
        ExpressionTree.Branch(3, Op(Mul), ExpressionTree.Leaf(1, Num("3")), ExpressionTree.Leaf(2, Num("4")))))
  {
    var e := Bin(Add, Lit("2"), Bin(Mul, Lit("3"), Lit("4")));
    ProductFirstFacts(e);
    ExampleTree(e, "2+3*4", TreeOf(e, 0));
  }

  /** Parentheses override precedence: `(2+3)*4` multiplies the sum. */
  lemma GroupFirstFacts(e: Expr)
    requires e == Bin(Mul, Group(Bin(Add, Lit("2"), Lit("3"))), Lit("4"))
    ensures WellFormed(e) && Render(e) == "(2+3)*4"
    ensures PostfixOf(e) == [Num("2"), Num("3"), Op(Add), Num("4"), Op(Mul)]
    ensures TreeOf(e, 0) == ExpressionTree.Branch(4, Op(Mul),
      ExpressionTree.Branch(2, Op(Add), ExpressionTree.Leaf(0, Num("2")), ExpressionTree.Leaf(1, Num("3"))),
      ExpressionTree.Leaf(3, Num("4")))
  {
    assert AllDigits("2") && AllDigits("3") && AllDigits("4");
    assert |PostfixOf(Group(Bin(Add, Lit("2"), Lit("3"))))| == 3;
  }

  lemma GroupFirstPostfix()
    ensures ShuntingYard.ToPostfix("(2+3)*4") == Ok([Num("2"), Num("3"), Op(Add), Num("4"), Op(Mul)])
  {
    var e := Bin(Mul, Group(Bin(Add, Lit("2"), Lit("3"))), Lit("4"));
    GroupFirstFacts(e);
    ExamplePostfix(e, "(2+3)*4", PostfixOf(e));
  }

  lemma GroupFirstTree()
    ensures Page.Process("(2+3)*4") == Ok(
      ExpressionTree.Branch(4, Op(Mul),
        ExpressionTree.Branch(2, Op(Add), ExpressionTree.Leaf(0, Num("2")), ExpressionTree.Leaf(1, Num("3"))),
        ExpressionTree.Leaf(3, Num("4"))))
  {
    var e := Bin(Mul, Group(Bin(Add, Lit("2"), Lit("3"))), Lit("4"));
    GroupFirstFacts(e);
    ExampleTree(e, "(2+3)*4", TreeOf(e, 0));
  }
}
