/**
 * The infix-to-postfix converter `infixAPostfix`: the tokens are read left to
 * right with an output list and an operator stack (its top is the last
 * element). A number goes to the output; an operator first moves to the
 * output every stacked operator of greater or equal precedence above the
 * nearest `(`, then is pushed; `(` is pushed; `)` moves operators to the
 * output down to the nearest `(` and removes it, or throws when there is none.
 * At the end the stack is emptied onto the output, and a `(` left on it
 * throws.
 *
 * `InfixToPostfix` is the loop program; the functions below specify it one
 * step at a time, and the lemmas state what the conversion guarantees.
 */
module ShuntingYard {
  import opened Wrappers
  import opened Tokens
  import Tokenizer
  import Parens

  datatype State = State(output: seq<Token>, stack: seq<Token>)

  /** The stack's top is an operator that binds at least as tightly as precedence `p`. */
  predicate PopsFor(stack: seq<Token>, p: nat)
  {
    stack != [] && stack[|stack| - 1].Op? && p <= Prec(stack[|stack| - 1].op)
  }

  /** The operator branch's inner loop: move the stack's top to the output while it pops for `p`. */
  function PopOperators(s: State, p: nat): State
    decreases |s.stack|
  {
    if PopsFor(s.stack, p) then
      var n := |s.stack|;
      PopOperators(State(s.output + [s.stack[n - 1]], s.stack[..n - 1]), p)
    else s
  }

  /** The `)` branch: move operators to the output down to the nearest `(` and drop it. */
  function PopToOpen(s: State): Result<State, PipelineError>
    decreases |s.stack|
  {
    var n := |s.stack|;
    if n == 0 then Err(UnbalancedParens)
    else if s.stack[n - 1] == LParen then Ok(State(s.output, s.stack[..n - 1]))
    else PopToOpen(State(s.output + [s.stack[n - 1]], s.stack[..n - 1]))
  }

  /** One token of the main loop. */
  function Feed(s: State, t: Token): Result<State, PipelineError>
  {
    match t
    case Num(_) => Ok(State(s.output + [t], s.stack))
    case Op(op) =>
      var s' := PopOperators(s, Prec(op));
      Ok(State(s'.output, s'.stack + [t]))
    case LParen => Ok(State(s.output, s.stack + [t]))
    case RParen => PopToOpen(s)
  }

  /** The main loop over the remaining tokens `ts`, from state `s`. */
  function FeedFrom(ts: seq<Token>, s: State): Result<State, PipelineError>
  {
    if ts == [] then Ok(s)
    else
      match Feed(s, ts[0])
      case Err(e) => Err(e)
      case Ok(s') => FeedFrom(ts[1..], s')
  }

  /** Emptying the stack at the end: a parenthesis still on it throws. */
  function Drain(s: State): Result<seq<Token>, PipelineError>
    decreases |s.stack|
  {
    var n := |s.stack|;
    if n == 0 then Ok(s.output)
    else if IsParen(s.stack[n - 1]) then Err(UnbalancedParens)
    else Drain(State(s.output + [s.stack[n - 1]], s.stack[..n - 1]))
  }

  /** What is left of the conversion from state `s` with tokens `ts` still to read. */
  function Continue(ts: seq<Token>, s: State): Result<seq<Token>, PipelineError>
  {
    match FeedFrom(ts, s)
    case Err(e) => Err(e)
    case Ok(s') => Drain(s')
  }

  /** The conversion of a token sequence. */
  function Convert(ts: seq<Token>): Result<seq<Token>, PipelineError>
  {
    Continue(ts, State([], []))
  }

  /** `infixAPostfix` as a whole: tokenizing, then converting. */
  function ToPostfix(expr: string): Result<seq<Token>, PipelineError>
  {
    match Tokenizer.Tokenize(expr)
    case Err(e) => Err(e)
    case Ok(ts) => Convert(ts)
  }

  /** `infixAPostfix`. */
  method InfixToPostfix(expr: string) returns (r: Result<seq<Token>, PipelineError>)
    ensures r == ToPostfix(expr)
  {
    var tokens := Tokenizer.Tokenize(expr);
    if tokens.Err? {
      return Err(NoTokens);
    }
    var ts := tokens.value;
    var output: seq<Token> := [];
    var stack: seq<Token> := [];
    for i := 0 to |ts|
      invariant Continue(ts[i..], State(output, stack)) == Convert(ts)
    {
      var token := ts[i];
      assert ts[i..][1..] == ts[i + 1..];
      if token.Num? {
        output := output + [token];
      } else if token.Op? {
        ghost var before := State(output, stack);
        while stack != [] && stack[|stack| - 1].Op? && Prec(token.op) <= Prec(stack[|stack| - 1].op)
          invariant PopOperators(State(output, stack), Prec(token.op)) == PopOperators(before, Prec(token.op))
          decreases |stack|
        {
          output := output + [stack[|stack| - 1]];
          stack := stack[..|stack| - 1];
        }
        stack := stack + [token];
      } else if token == LParen {
        stack := stack + [token];
      } else {
        ghost var before := State(output, stack);
        while stack != [] && stack[|stack| - 1] != LParen
          invariant PopToOpen(State(output, stack)) == PopToOpen(before)
          decreases |stack|
        {
          output := output + [stack[|stack| - 1]];
          stack := stack[..|stack| - 1];
        }
        if stack == [] {
          return Err(UnbalancedParens);
        }
        stack := stack[..|stack| - 1];
      }
    }
    assert ts[|ts|..] == [];
    while stack != []
      invariant Drain(State(output, stack)) == Convert(ts)
      decreases |stack|
    {
      if IsParen(stack[|stack| - 1]) {
        return Err(UnbalancedParens);
      }
      output := output + [stack[|stack| - 1]];
      stack := stack[..|stack| - 1];
    }
    return Ok(output);
  }

  // ---------------------------------------------------------------------
  // The pop rules, stated declaratively.

  /** `s` reversed: the order in which a run of stacked tokens is popped. */
  function Reversed(s: seq<Token>): (r: seq<Token>)
    ensures |r| == |s|
  {
    if s == [] then [] else [s[|s| - 1]] + Reversed(s[..|s| - 1])
  }

  /** Popping the top of `run` onto `out` and then the rest outputs `run` reversed. */
  lemma ReversedLast(out: seq<Token>, run: seq<Token>)
    requires run != []
    ensures out + [run[|run| - 1]] + Reversed(run[..|run| - 1]) == out + Reversed(run)
  {
    var n := |run|;
    assert Reversed(run) == [run[n - 1]] + Reversed(run[..n - 1]);
    Associate(out, [run[n - 1]], Reversed(run[..n - 1]));
  }

  lemma Associate(a: seq<Token>, b: seq<Token>, c: seq<Token>)
    ensures a + b + c == a + (b + c)
  {
  }

  /** The top of `stack + run` is the top of `run`, and below it lie `stack` and the rest of `run`. */
  lemma TopOfRun(stack: seq<Token>, run: seq<Token>)
    requires run != []
    ensures (stack + run)[|stack + run| - 1] == run[|run| - 1]
    ensures (stack + run)[..|stack + run| - 1] == stack + run[..|run| - 1]
  {
  }

  lemma {:induction false} ReversedMultiset(s: seq<Token>)
    ensures multiset(Reversed(s)) == multiset(s)
  {
    if s != [] {
      ReversedMultiset(s[..|s| - 1]);
      assert s == s[..|s| - 1] + [s[|s| - 1]];
    }
  }

  /** The operator branch leaves a prefix of the stack, having popped only operators of precedence at least `p`. */
  lemma {:induction false} PopOperatorsPrefix(s: State, p: nat)
    ensures var r := PopOperators(s, p);
      && |r.stack| <= |s.stack|
      && r.stack == s.stack[..|r.stack|]
      && (forall k | |r.stack| <= k < |s.stack| :: s.stack[k].Op? && p <= Prec(s.stack[k].op))
      && !PopsFor(r.stack, p)
    decreases |s.stack|
  {
    if PopsFor(s.stack, p) {
      var n := |s.stack|;
      var s1 := State(s.output + [s.stack[n - 1]], s.stack[..n - 1]);
      PopOperatorsPrefix(s1, p);
      var r := PopOperators(s1, p);
      assert PopOperators(s, p) == r;
      assert s1.stack[..|r.stack|] == s.stack[..|r.stack|];
      forall k | |r.stack| <= k < n
        ensures s.stack[k].Op? && p <= Prec(s.stack[k].op)
      {
        if k < n - 1 {
          assert s.stack[k] == s1.stack[k];
        }
      }
    }
  }

  /**
   * The operator branch pops exactly the longest run of operators with
   * precedence at least `p` from the top of the stack, and appends them to
   * the output in popping order; a `(` or a weaker operator stops it.
   */
  lemma {:induction false} PopOperatorsSpec(s: State, p: nat)
    ensures var r := PopOperators(s, p);
      && |r.stack| <= |s.stack|
      && r.stack == s.stack[..|r.stack|]
      && r.output == s.output + Reversed(s.stack[|r.stack|..])
      && (forall k | |r.stack| <= k < |s.stack| :: s.stack[k].Op? && p <= Prec(s.stack[k].op))
      && !PopsFor(r.stack, p)
    decreases |s.stack|
  {
    PopOperatorsPrefix(s, p);
    if PopsFor(s.stack, p) {
      var n := |s.stack|;
      var s1 := State(s.output + [s.stack[n - 1]], s.stack[..n - 1]);
      PopOperatorsSpec(s1, p);
      var r := PopOperators(s1, p);
      assert PopOperators(s, p) == r;
      var m := |r.stack|;
      var run := s.stack[m..];
      assert run[..|run| - 1] == s1.stack[m..];
      assert Reversed(run) == [s.stack[n - 1]] + Reversed(s1.stack[m..]);
      assert r.output == s.output + Reversed(run);
    } else {
      assert s.stack[|s.stack|..] == [];
      assert s.output + [] == s.output;
    }
  }

  /** The index of the nearest `(` at or below position `n` of the stack, or -1. */
  function OpenBelow(stack: seq<Token>, n: nat): (j: int)
    requires n <= |stack|
    ensures -1 <= j < n
    ensures j >= 0 ==> stack[j] == LParen
    ensures forall k | j < k < n :: stack[k] != LParen
  {
    if n == 0 then -1 else if stack[n - 1] == LParen then n - 1 else OpenBelow(stack, n - 1)
  }

  /** With no `(` on the stack the `)` branch throws. */
  lemma {:induction false} PopToOpenNone(s: State)
    requires forall k | 0 <= k < |s.stack| :: s.stack[k] != LParen
    ensures PopToOpen(s) == Err(UnbalancedParens)
    decreases |s.stack|
  {
    var n := |s.stack|;
    if n > 0 {
      var s1 := State(s.output + [s.stack[n - 1]], s.stack[..n - 1]);
      assert forall k | 0 <= k < |s1.stack| :: s1.stack[k] == s.stack[k];
      PopToOpenNone(s1);
    }
  }

  /** The `)` branch moves the tokens above the nearest `(` to the output in popping order and drops the `(`. */
  lemma {:induction false} PopToOpenAbove(out: seq<Token>, below: seq<Token>, above: seq<Token>)
    requires forall k | 0 <= k < |above| :: above[k] != LParen
    ensures PopToOpen(State(out, below + [LParen] + above)) == Ok(State(out + Reversed(above), below))
    decreases |above|
  {
    var stack := below + [LParen] + above;
    if above == [] {
      assert stack == below + [LParen];
      assert stack[..|below|] == below;
      assert out + [] == out;
    } else {
      var n := |above|;
      var rest := above[..n - 1];
      assert stack[..|stack| - 1] == below + [LParen] + rest;
      assert stack[|stack| - 1] == above[n - 1];
      assert forall k | 0 <= k < |rest| :: rest[k] == above[k];
      PopToOpenAbove(out + [above[n - 1]], below, rest);
      assert out + [above[n - 1]] + Reversed(rest) == out + Reversed(above);
    }
  }

  /**
   * The `)` branch throws exactly when no `(` is on the stack; otherwise it
   * pops everything above the nearest `(` to the output in popping order and
   * removes that `(`.
   */
  lemma PopToOpenSpec(s: State)
    ensures var j := OpenBelow(s.stack, |s.stack|);
      && (PopToOpen(s).Err? <==> j < 0)
      && (PopToOpen(s).Err? ==> PopToOpen(s).error == UnbalancedParens)
      && (j >= 0 ==> PopToOpen(s) == Ok(State(s.output + Reversed(s.stack[j + 1..]), s.stack[..j])))
  {
    var j := OpenBelow(s.stack, |s.stack|);
    if j < 0 {
      PopToOpenNone(s);
    } else {
      var above := s.stack[j + 1..];
      assert s.stack == s.stack[..j] + [LParen] + above;
      assert forall k | 0 <= k < |above| :: above[k] == s.stack[j + 1 + k];
      PopToOpenAbove(s.output, s.stack[..j], above);
    }
  }

  // ---------------------------------------------------------------------
  // When the conversion throws.

  /** The stack only ever holds operators and `(`. */
  predicate StackShape(stack: seq<Token>)
  {
    forall i | 0 <= i < |stack| :: stack[i].Op? || stack[i] == LParen
  }

  /** How many `(` the stack holds. */
  function Opens(stack: seq<Token>): nat
  {
    if stack == [] then 0
    else Opens(stack[..|stack| - 1]) + (if stack[|stack| - 1] == LParen then 1 else 0)
  }

  /** A token's parenthesis, or a blank for any other token. */
  function ParenChar(t: Token): char
  {
    if t == LParen then '(' else if t == RParen then ')' else ' '
  }

  /** The parenthesis structure of a token sequence, one character per token. */
  function Skeleton(ts: seq<Token>): (r: string)
    ensures |r| == |ts|
  {
    if ts == [] then [] else [ParenChar(ts[0])] + Skeleton(ts[1..])
  }

  lemma {:induction false} OpensAppend(a: seq<Token>, b: seq<Token>)
    ensures Opens(a + b) == Opens(a) + Opens(b)
    decreases |b|
  {
    if b == [] {
      assert a + b == a;
    } else {
      var b' := b[..|b| - 1];
      OpensAppend(a, b');
      assert (a + b)[..|a + b| - 1] == a + b';
    }
  }

  lemma {:induction false} NoOpens(stack: seq<Token>)
    ensures Opens(stack) == 0 <==> forall i | 0 <= i < |stack| :: stack[i] != LParen
  {
    if stack != [] {
      var n := |stack|;
      NoOpens(stack[..n - 1]);
      if Opens(stack) != 0 && stack[n - 1] != LParen {
        var i :| 0 <= i < n - 1 && stack[..n - 1][i] == LParen;
        assert stack[i] == LParen;
      }
    }
  }

  /** The operator branch's popping leaves the open parentheses where they are. */
  lemma PopOperatorsOpens(s: State, p: nat)
    requires StackShape(s.stack)
    ensures StackShape(PopOperators(s, p).stack)
    ensures Opens(PopOperators(s, p).stack) == Opens(s.stack)
  {
    PopOperatorsSpec(s, p);
    var r := PopOperators(s, p);
    var m := |r.stack|;
    assert s.stack == r.stack + s.stack[m..];
    OpensAppend(r.stack, s.stack[m..]);
    NoOpens(s.stack[m..]);
  }

  /** The `)` branch succeeds exactly when a `(` is on the stack, and closes one. */
  lemma PopToOpenOpens(s: State)
    requires StackShape(s.stack)
    ensures PopToOpen(s).Ok? <==> Opens(s.stack) > 0
    ensures PopToOpen(s).Err? ==> PopToOpen(s).error == UnbalancedParens
    ensures PopToOpen(s).Ok? ==>
      StackShape(PopToOpen(s).value.stack) && Opens(PopToOpen(s).value.stack) == Opens(s.stack) - 1
  {
    PopToOpenSpec(s);
    var j := OpenBelow(s.stack, |s.stack|);
    if j < 0 {
      NoOpens(s.stack);
    } else {
      CloseOpens(s.stack, j);
    }
  }

  /** Removing the nearest `(` and everything above it removes one open parenthesis. */
  lemma CloseOpens(stack: seq<Token>, j: nat)
    requires StackShape(stack) && j < |stack| && stack[j] == LParen
    requires forall k | j < k < |stack| :: stack[k] != LParen
    ensures StackShape(stack[..j]) && Opens(stack) == Opens(stack[..j]) + 1
  {
    ShapePrefix(stack, j);
    CloseCount(stack, j);
  }

  /** Any bottom part of a well-shaped stack is well shaped. */
  lemma ShapePrefix(stack: seq<Token>, n: nat)
    requires StackShape(stack) && n <= |stack|
    ensures StackShape(stack[..n])
  {
    forall i | 0 <= i < n
      ensures stack[..n][i].Op? || stack[..n][i] == LParen
    {
      assert stack[..n][i] == stack[i];
    }
  }

  lemma CloseCount(stack: seq<Token>, j: nat)
    requires j < |stack| && stack[j] == LParen
    requires forall k | j < k < |stack| :: stack[k] != LParen
    ensures Opens(stack) == Opens(stack[..j]) + 1
  {
    var lower, above := stack[..j + 1], stack[j + 1..];
    assert stack == lower + above;
    OpensAppend(lower, above);
    NoOpensAbove(stack, j);
    assert lower[..j] == stack[..j];
  }

  lemma NoOpensAbove(stack: seq<Token>, j: nat)
    requires j < |stack|
    requires forall k | j < k < |stack| :: stack[k] != LParen
    ensures Opens(stack[j + 1..]) == 0
  {
    var above := stack[j + 1..];
    assert forall k | 0 <= k < |above| :: above[k] == stack[j + 1 + k];
    NoOpens(above);
  }

  /** Pushing a token onto the stack. */
  lemma PushOpens(stack: seq<Token>, t: Token)
    requires StackShape(stack) && (t.Op? || t == LParen)
    ensures StackShape(stack + [t])
    ensures Opens(stack + [t]) == Opens(stack) + (if t == LParen then 1 else 0)
  {
    assert (stack + [t])[..|stack|] == stack;
  }

  /** One step of the main loop throws exactly when a `)` finds no `(` on the stack. */
  lemma FeedParens(s: State, t: Token)
    requires StackShape(s.stack)
    ensures Feed(s, t).Ok? <==> Opens(s.stack) + Parens.Delta(ParenChar(t)) >= 0
    ensures Feed(s, t).Err? ==> Feed(s, t).error == UnbalancedParens
    ensures Feed(s, t).Ok? ==>
      && StackShape(Feed(s, t).value.stack)
      && Opens(Feed(s, t).value.stack) == Opens(s.stack) + Parens.Delta(ParenChar(t))
  {
    match t
    case Num(_) =>
    case Op(op) =>
      PopOperatorsOpens(s, Prec(op));
      PushOpens(PopOperators(s, Prec(op)).stack, t);
    case LParen =>
      PushOpens(s.stack, t);
    case RParen =>
      PopToOpenOpens(s);
  }

  lemma SkeletonCons(t: Token, rest: seq<Token>)
    ensures Skeleton([t] + rest) == [ParenChar(t)] + Skeleton(rest)
  {
    assert ([t] + rest)[0] == t && ([t] + rest)[1..] == rest;
  }

  lemma SkeletonPrefixDepth(t: Token, rest: seq<Token>, k: nat)
    requires k <= |rest|
    ensures Parens.DepthAt(Skeleton([t] + rest), k + 1) == Parens.Delta(ParenChar(t)) + Parens.DepthAt(Skeleton(rest), k)
  {
    SkeletonCons(t, rest);
    Parens.DepthConsAt(ParenChar(t), Skeleton(rest), k);
  }

  /**
   * The main loop, started with `d` parentheses open on the stack, throws
   * exactly when some prefix of the remaining tokens closes more than `d`
   * plus what it opens; otherwise it ends with the depth reached.
   */
  lemma {:induction false} FeedFromParens(ts: seq<Token>, s: State)
    requires StackShape(s.stack)
    ensures FeedFrom(ts, s).Ok? <==> forall k | 0 <= k <= |ts| :: Opens(s.stack) + Parens.DepthAt(Skeleton(ts), k) >= 0
    ensures FeedFrom(ts, s).Err? ==> FeedFrom(ts, s).error == UnbalancedParens
    ensures FeedFrom(ts, s).Ok? ==>
      && StackShape(FeedFrom(ts, s).value.stack)
      && Opens(FeedFrom(ts, s).value.stack) == Opens(s.stack) + Parens.Depth(Skeleton(ts))
  {
    var d := Opens(s.stack);
    if ts == [] {
      assert Parens.DepthAt(Skeleton(ts), 0) == 0;
    } else {
      var t, rest := ts[0], ts[1..];
      assert ts == [t] + rest;
      FeedParens(s, t);
      SkeletonPrefixDepth(t, rest, 0);
      assert Parens.DepthAt(Skeleton(rest), 0) == 0;
      if Feed(s, t).Ok? {
        var s' := Feed(s, t).value;
        FeedFromParens(rest, s');
        SkeletonPrefixDepth(t, rest, |rest|);
        assert Skeleton(rest)[..|rest|] == Skeleton(rest);
        assert Skeleton(ts)[..|ts|] == Skeleton(ts);
        if FeedFrom(rest, s').Ok? {
          forall k | 0 <= k <= |ts|
            ensures d + Parens.DepthAt(Skeleton(ts), k) >= 0
          {
            if k == 0 {
              assert Skeleton(ts)[..0] == [];
            } else {
              SkeletonPrefixDepth(t, rest, k - 1);
            }
          }
        } else {
          var k :| 0 <= k <= |rest| && Opens(s'.stack) + Parens.DepthAt(Skeleton(rest), k) < 0;
          SkeletonPrefixDepth(t, rest, k);
        }
      }
    }
  }

  /** Emptying the stack throws exactly when a `(` is still on it. */
  lemma {:induction false} DrainParens(s: State)
    requires StackShape(s.stack)
    ensures Drain(s).Ok? <==> Opens(s.stack) == 0
    ensures Drain(s).Err? ==> Drain(s).error == UnbalancedParens
    decreases |s.stack|
  {
    var n := |s.stack|;
    if n > 0 && !IsParen(s.stack[n - 1]) {
      DrainParens(State(s.output + [s.stack[n - 1]], s.stack[..n - 1]));
    }
  }

  /**
   * The conversion of a token sequence fails exactly when its parentheses are
   * unbalanced (a `)` with no `(` before it, or a `(` never closed), and its
   * only error is the unbalanced-parentheses one.
   */
  lemma ConvertFails(ts: seq<Token>)
    ensures Convert(ts).Ok? <==> Parens.Balanced(Skeleton(ts))
    ensures Convert(ts).Err? ==> Convert(ts).error == UnbalancedParens
  {
    var s := State([], []);
    FeedFromParens(ts, s);
    if FeedFrom(ts, s).Ok? {
      DrainParens(FeedFrom(ts, s).value);
    }
  }

  // ---------------------------------------------------------------------
  // What the conversion keeps.

  /** The numbers among `ts`, in order. */
  function Numbers(ts: seq<Token>): seq<Token>
  {
    if ts == [] then [] else (if ts[0].Num? then [ts[0]] else []) + Numbers(ts[1..])
  }

  /** The tokens of `ts` that are not parentheses, in order. */
  function NonParens(ts: seq<Token>): seq<Token>
  {
    if ts == [] then [] else (if IsParen(ts[0]) then [] else [ts[0]]) + NonParens(ts[1..])
  }

  predicate AllOperators(ts: seq<Token>)
  {
    forall i | 0 <= i < |ts| :: ts[i].Op?
  }

  predicate NoParens(ts: seq<Token>)
  {
    forall i | 0 <= i < |ts| :: !IsParen(ts[i])
  }

  lemma {:induction false} NumbersAppend(a: seq<Token>, b: seq<Token>)
    ensures Numbers(a + b) == Numbers(a) + Numbers(b)
  {
    if a == [] {
      assert a + b == b;
    } else {
      var head := if a[0].Num? then [a[0]] else [];
      assert (a + b)[0] == a[0] && (a + b)[1..] == a[1..] + b;
      NumbersAppend(a[1..], b);
      assert Numbers(a + b) == head + Numbers(a[1..] + b);
      assert Numbers(a) == head + Numbers(a[1..]);
      assert head + (Numbers(a[1..]) + Numbers(b)) == head + Numbers(a[1..]) + Numbers(b);
    }
  }

  lemma {:induction false} NonParensAppend(a: seq<Token>, b: seq<Token>)
    ensures NonParens(a + b) == NonParens(a) + NonParens(b)
  {
    if a == [] {
      assert a + b == b;
    } else {
      var head := if !IsParen(a[0]) then [a[0]] else [];
      assert (a + b)[0] == a[0] && (a + b)[1..] == a[1..] + b;
      NonParensAppend(a[1..], b);
      assert NonParens(a + b) == head + NonParens(a[1..] + b);
      assert NonParens(a) == head + NonParens(a[1..]);
      assert head + (NonParens(a[1..]) + NonParens(b)) == head + NonParens(a[1..]) + NonParens(b);
    }
  }

  lemma FiltersAppend(a: seq<Token>, b: seq<Token>)
    ensures Numbers(a + b) == Numbers(a) + Numbers(b)
    ensures NonParens(a + b) == NonParens(a) + NonParens(b)
  {
    NumbersAppend(a, b);
    NonParensAppend(a, b);
  }

  lemma {:induction false} OperatorFilters(ts: seq<Token>)
    requires AllOperators(ts)
    ensures Numbers(ts) == [] && NonParens(ts) == ts
  {
    if ts != [] {
      OperatorFilters(ts[1..]);
    }
  }

  lemma {:induction false} NoParensFilter(ts: seq<Token>)
    ensures NoParens(ts) <==> NonParens(ts) == ts
  {
    if ts != [] {
      NoParensFilter(ts[1..]);
      NonParensShorter(ts[1..]);
    }
  }

  lemma {:induction false} NonParensShorter(ts: seq<Token>)
    ensures |NonParens(ts)| <= |ts|
  {
    if ts != [] {
      NonParensShorter(ts[1..]);
    }
  }

  lemma {:induction false} ReversedOperators(ts: seq<Token>)
    requires AllOperators(ts)
    ensures AllOperators(Reversed(ts))
  {
    if ts != [] {
      ReversedOperators(ts[..|ts| - 1]);
    }
  }

  /**
   * What one step of the main loop keeps: the numbers reach the output in
   * order, no token other than a parenthesis is lost or made up between the
   * output and the stack, and no parenthesis reaches the output.
   */
  predicate Keeps(s: State, ts: seq<Token>, s': State)
  {
    KeepsNumbers(s, ts, s') && KeepsItems(s, ts, s') && (NoParens(s.output) ==> NoParens(s'.output))
  }

  predicate KeepsNumbers(s: State, ts: seq<Token>, s': State)
  {
    Numbers(s'.output) == Numbers(s.output) + Numbers(ts)
  }

  predicate KeepsItems(s: State, ts: seq<Token>, s': State)
  {
    multiset(NonParens(s'.output)) + multiset(NonParens(s'.stack))
      == multiset(NonParens(s.output)) + multiset(NonParens(s.stack)) + multiset(NonParens(ts))
  }

  /** Moving a run of operators from the top of the stack to the output. */
  lemma MoveRun(out: seq<Token>, below: seq<Token>, run: seq<Token>)
    requires AllOperators(run)
    ensures Numbers(out + Reversed(run)) == Numbers(out)
    ensures NonParens(out + Reversed(run)) == NonParens(out) + Reversed(run)
    ensures multiset(Reversed(run)) == multiset(run)
    ensures NonParens(below + run) == NonParens(below) + run
    ensures NoParens(out) ==> NoParens(out + Reversed(run))
  {
    ReversedOperators(run);
    OperatorFilters(run);
    OperatorFilters(Reversed(run));
    ReversedMultiset(run);
    FiltersAppend(out, Reversed(run));
    FiltersAppend(below, run);
    assert Numbers(out) + [] == Numbers(out);
  }

  /** An operator that moves `run` from the stack to the output and takes its place. */
  lemma OperatorMove(out: seq<Token>, below: seq<Token>, run: seq<Token>, t: Token)
    requires t.Op? && AllOperators(run)
    ensures Keeps(State(out, below + run), [t], State(out + Reversed(run), below + [t]))
  {
    assert [t][1..] == [];
    assert Numbers([t]) == [] && NonParens([t]) == [t];
    MoveRun(out, below, run);
    assert Numbers(out + Reversed(run)) == Numbers(out) + Numbers([t]);
    OperatorMoveItems(out, below, run, t);
  }

  lemma OperatorMoveItems(out: seq<Token>, below: seq<Token>, run: seq<Token>, t: Token)
    requires t.Op? && AllOperators(run)
    ensures KeepsItems(State(out, below + run), [t], State(out + Reversed(run), below + [t]))
  {
    assert [t][1..] == [];
    assert NonParens([t]) == [t];
    MoveRun(out, below, run);
    NonParensAppend(below, [t]);
    var a, b := NonParens(out), NonParens(below);
    calc {
      multiset(NonParens(out + Reversed(run))) + multiset(NonParens(below + [t]));
      multiset(a + Reversed(run)) + multiset(b + [t]);
      multiset(a) + multiset(Reversed(run)) + multiset(b) + multiset([t]);
      multiset(a) + multiset(run) + multiset(b) + multiset([t]);
      multiset(a) + multiset(b + run) + multiset(NonParens([t]));
      multiset(NonParens(out)) + multiset(NonParens(below + run)) + multiset(NonParens([t]));
    }
  }

  lemma OperatorKeeps(s: State, t: Token)
    requires t.Op?
    ensures Keeps(s, [t], Feed(s, t).value)
  {
    PopOperatorsSpec(s, Prec(t.op));
    var r := PopOperators(s, Prec(t.op));
    var run := s.stack[|r.stack|..];
    assert s.stack == r.stack + run;
    assert Feed(s, t).value == State(s.output + Reversed(run), r.stack + [t]);
    OperatorMove(s.output, r.stack, run, t);
  }

  lemma OperatorsAboveOpen(stack: seq<Token>, j: int)
    requires StackShape(stack) && -1 <= j < |stack|
    requires forall k | j < k < |stack| :: stack[k] != LParen
    ensures AllOperators(stack[j + 1..])
  {
    var run := stack[j + 1..];
    forall i | 0 <= i < |run|
      ensures run[i].Op?
    {
      assert run[i] == stack[j + 1 + i];
    }
  }

  lemma CloseMove(out: seq<Token>, below: seq<Token>, run: seq<Token>)
    requires AllOperators(run)
    ensures Keeps(State(out, below + [LParen] + run), [RParen], State(out + Reversed(run), below))
  {
    assert [RParen][1..] == [];
    assert Numbers([RParen]) == [] && NonParens([RParen]) == [];
    MoveRun(out, below + [LParen], run);
    assert Numbers(out + Reversed(run)) == Numbers(out) + Numbers([RParen]);
    CloseMoveItems(out, below, run);
  }

  lemma CloseMoveItems(out: seq<Token>, below: seq<Token>, run: seq<Token>)
    requires AllOperators(run)
    ensures KeepsItems(State(out, below + [LParen] + run), [RParen], State(out + Reversed(run), below))
  {
    assert [RParen][1..] == [] && [LParen][1..] == [];
    assert NonParens([RParen]) == [] && NonParens([LParen]) == [];
    MoveRun(out, below + [LParen], run);
    NonParensAppend(below, [LParen]);
    var a, b := NonParens(out), NonParens(below);
    assert NonParens(below + [LParen]) == b;
    calc {
      multiset(NonParens(out + Reversed(run))) + multiset(NonParens(below));
      multiset(a + Reversed(run)) + multiset(b);
      multiset(a) + multiset(Reversed(run)) + multiset(b);
      multiset(a) + multiset(b + run) + multiset(NonParens([RParen]));
      multiset(NonParens(out)) + multiset(NonParens(below + [LParen] + run)) + multiset(NonParens([RParen]));
    }
  }

  lemma CloseKeeps(s: State)
    requires StackShape(s.stack) && PopToOpen(s).Ok?
    ensures Keeps(s, [RParen], PopToOpen(s).value)
  {
    CloseSplit(s);
    var j := OpenBelow(s.stack, |s.stack|);
    CloseMove(s.output, s.stack[..j], s.stack[j + 1..]);
  }

  /** A `)` that finds its `(` splits the stack into what stays, the `(` and a run of operators. */
  lemma CloseSplit(s: State)
    requires StackShape(s.stack) && PopToOpen(s).Ok?
    ensures var j := OpenBelow(s.stack, |s.stack|);
      && j >= 0
      && s == State(s.output, s.stack[..j] + [LParen] + s.stack[j + 1..])
      && AllOperators(s.stack[j + 1..])
      && PopToOpen(s).value == State(s.output + Reversed(s.stack[j + 1..]), s.stack[..j])
  {
    var j := OpenBelow(s.stack, |s.stack|);
    PopToOpenSpec(s);
    SplitAtOpen(s.stack, j);
    OperatorsAboveOpen(s.stack, j);
  }

  lemma SplitAtOpen(stack: seq<Token>, j: int)
    requires 0 <= j < |stack| && stack[j] == LParen
    ensures stack == stack[..j] + [LParen] + stack[j + 1..]
  {
  }

  lemma FeedKeeps(s: State, t: Token)
    requires StackShape(s.stack) && Feed(s, t).Ok?
    ensures Keeps(s, [t], Feed(s, t).value)
  {
    var s' := Feed(s, t).value;
    assert [t][1..] == [];
    match t
    case Num(_) =>
      assert Numbers([t]) == [t] && NonParens([t]) == [t];
      FiltersAppend(s.output, [t]);
      NoParensFilter(s.output);
      NoParensFilter(s'.output);
    case Op(op) =>
      OperatorKeeps(s, t);
    case LParen =>
      assert Numbers([t]) == [] && NonParens([t]) == [];
      NonParensAppend(s.stack, [t]);
    case RParen =>
      CloseKeeps(s);
  }

  lemma {:induction false} FeedFromKeeps(ts: seq<Token>, s: State)
    requires StackShape(s.stack) && FeedFrom(ts, s).Ok?
    ensures Keeps(s, ts, FeedFrom(ts, s).value)
  {
    if ts == [] {
      assert Numbers(ts) == [] && NonParens(ts) == [];
      assert Numbers(s.output) + [] == Numbers(s.output);
    } else {
      var t, rest := ts[0], ts[1..];
      assert ts == [t] + rest;
      var s1 := Feed(s, t).value;
      FeedKeeps(s, t);
      FeedParens(s, t);
      FeedFromKeeps(rest, s1);
      KeepsChain(s, [t], s1, rest, FeedFrom(rest, s1).value);
    }
  }

  lemma KeepsChain(s: State, a: seq<Token>, s1: State, b: seq<Token>, s2: State)
    requires Keeps(s, a, s1) && Keeps(s1, b, s2)
    ensures Keeps(s, a + b, s2)
  {
    NumbersChain(s, a, s1, b, s2);
    ItemsChain(s, a, s1, b, s2);
  }

  lemma NumbersChain(s: State, a: seq<Token>, s1: State, b: seq<Token>, s2: State)
    requires KeepsNumbers(s, a, s1) && KeepsNumbers(s1, b, s2)
    ensures KeepsNumbers(s, a + b, s2)
  {
    NumbersAppend(a, b);
  }

  lemma ItemsChain(s: State, a: seq<Token>, s1: State, b: seq<Token>, s2: State)
    requires KeepsItems(s, a, s1) && KeepsItems(s1, b, s2)
    ensures KeepsItems(s, a + b, s2)
  {
    NonParensAppend(a, b);
  }

  /** Emptying the stack, when it succeeds, appends the stack to the output in popping order. */
  lemma {:induction false} DrainSpec(s: State)
    requires Drain(s).Ok?
    ensures Drain(s).value == s.output + Reversed(s.stack)
    ensures NoParens(s.stack)
    decreases |s.stack|
  {
    var n := |s.stack|;
    if n == 0 {
      assert s.output + [] == s.output;
    } else {
      var s1 := State(s.output + [s.stack[n - 1]], s.stack[..n - 1]);
      DrainSpec(s1);
      assert s.stack == s1.stack + [s.stack[n - 1]];
    }
  }

  /** Emptying the stack keeps the numbers and the operators and adds no parenthesis. */
  lemma DrainKeeps(s: State)
    requires StackShape(s.stack) && Drain(s).Ok?
    ensures Numbers(Drain(s).value) == Numbers(s.output)
    ensures multiset(NonParens(Drain(s).value)) == multiset(NonParens(s.output)) + multiset(NonParens(s.stack))
    ensures NoParens(s.output) ==> NoParens(Drain(s).value)
  {
    DrainSpec(s);
    assert AllOperators(s.stack) by {
      forall i | 0 <= i < |s.stack|
        ensures s.stack[i].Op?
      {
        assert !IsParen(s.stack[i]);
      }
    }
    MoveRun(s.output, [], s.stack);
    assert [] + s.stack == s.stack;
    NonParensAppend([], s.stack);
  }

  /**
   * A successful conversion outputs no parenthesis, the numbers in their
   * input order, and exactly the input's numbers and operators: the output
   * is a rearrangement of the input without its parentheses.
   */
  lemma ConvertKeeps(ts: seq<Token>)
    requires Convert(ts).Ok?
    ensures NoParens(Convert(ts).value)
    ensures Numbers(Convert(ts).value) == Numbers(ts)
    ensures multiset(Convert(ts).value) == multiset(NonParens(ts))
    ensures |Convert(ts).value| == |NonParens(ts)|
  {
    var s0 := State([], []);
    FeedFromKeeps(ts, s0);
    var s := FeedFrom(ts, s0).value;
    FeedFromParens(ts, s0);
    DrainKeeps(s);
    var out := Drain(s).value;
    assert Numbers([]) == [] && NonParens([]) == [];
    assert multiset(NonParens(out)) == multiset(NonParens(ts));
    NoParensFilter(out);
    assert |multiset(out)| == |multiset(NonParens(ts))|;
  }
}
