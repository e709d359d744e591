/**
 * What the page does when the user asks for a tree: it resets the node
 * counter, strips every whitespace character from the input, refuses an
 * empty expression, runs the syntax validator, converts to postfix and builds
 * the tree. Drawing the tree and showing alerts are not modelled; the outcome
 * is the tree or the kind of error the alert would report.
 */
module Page {
  import opened Wrappers
  import opened Tokens
  import Syntax
  import ShuntingYard
  import ExpressionTree

  /** Why the page shows an alert instead of a tree. */
  datatype PageError =
    | EmptyInput                            // nothing left after stripping whitespace
    | Rejected(syntax: Syntax.SyntaxError)  // the validator's first failing check
    | Failed(stage: PipelineError)          // an error thrown by the converter or the builder

  /** `replace(/\s+/g, '')`: every whitespace character removed. */
  function StripSpaces(s: string): string
  {
    if s == [] then [] else (if Syntax.IsSpace(s[0]) then [] else [s[0]]) + StripSpaces(s[1..])
  }

  /** The page's processing of one input, with the counter reset to 0 first. */
  function Process(input: string): Result<ExpressionTree.Node, PageError>
  {
    var e := StripSpaces(input);
    if Syntax.Trim(e) == [] then Err(EmptyInput)
    else match Syntax.Validate(e)
      case Some(k) => Err(Rejected(k))
      case None =>
        match ShuntingYard.ToPostfix(e)
        case Err(k) => Err(Failed(k))
        case Ok(p) =>
          match ExpressionTree.Construct(p, 0).0
          case Err(k) => Err(Failed(k))
          case Ok(t) => Ok(t)
  }

  /**
   * The node counter after a click: 0 when the input never reaches the
   * builder, otherwise wherever the builder left it (the size of the tree,
   * or the number of nodes made before it threw).
   */
  function CounterAfter(input: string): nat
  {
    var e := StripSpaces(input);
    if Syntax.Trim(e) == [] || Syntax.Validate(e).Some? || ShuntingYard.ToPostfix(e).Err? then 0
    else ExpressionTree.Construct(ShuntingYard.ToPostfix(e).value, 0).1
  }

  /** The click handler, with the builder that owns the node counter. */
  method Generate(builder: ExpressionTree.TreeBuilder, input: string)
    returns (r: Result<ExpressionTree.Node, PageError>)
    modifies builder
    ensures r == Process(input)
    ensures builder.nodeId == CounterAfter(input)
    ensures r.Ok? ==> builder.nodeId == |ExpressionTree.PostOrder(r.value)|
  {
    builder.Reset();
    var e := StripSpaces(input);
    if Syntax.Trim(e) == [] {
      return Err(EmptyInput);
    }
    var error := Syntax.Validate(e);
    if error.Some? {
      return Err(Rejected(error.value));
    }
    var postfix := ShuntingYard.InfixToPostfix(e);
    if postfix.Err? {
      return Err(Failed(postfix.error));
    }
    var tree := builder.Build(postfix.value);
    if tree.Err? {
      return Err(Failed(tree.error));
    }
    ExpressionTree.ConstructShape(postfix.value, 0);
    return Ok(tree.value);
  }

  // ---------------------------------------------------------------------

  /** Stripping leaves no whitespace, never lengthens, and is the identity on blank-free text. */
  lemma {:induction false} StripSpacesSpec(s: string)
    ensures forall k | 0 <= k < |StripSpaces(s)| :: !Syntax.IsSpace(StripSpaces(s)[k])
    ensures |StripSpaces(s)| <= |s|
    ensures (forall k | 0 <= k < |s| :: !Syntax.IsSpace(s[k])) ==> StripSpaces(s) == s
  {
    if s != [] {
      StripSpacesSpec(s[1..]);
      var head := if Syntax.IsSpace(s[0]) then [] else [s[0]];
      var r := StripSpaces(s);
      forall k | 0 <= k < |r|
        ensures !Syntax.IsSpace(r[k])
      {
        if k >= |head| {
          assert r[k] == StripSpaces(s[1..])[k - |head|];
        }
      }
      if forall k | 0 <= k < |s| :: !Syntax.IsSpace(s[k]) {
        assert forall k | 0 <= k < |s[1..]| :: !Syntax.IsSpace(s[1..][k]) by {
          forall k | 0 <= k < |s[1..]|
            ensures !Syntax.IsSpace(s[1..][k])
          {
            assert s[1..][k] == s[k + 1];
          }
        }
        assert s == [s[0]] + s[1..];
      }
    }
  }

  /** The input and its stripped form give the same outcome. */
  lemma ProcessIgnoresWhitespace(input: string)
    ensures Process(StripSpaces(input)) == Process(input)
  {
    StripSpacesSpec(input);
    StripSpacesSpec(StripSpaces(input));
  }

  /** A single character is dropped exactly when it is whitespace. */
  lemma StripSpacesChar(c: char)
    ensures StripSpaces([c]) == if Syntax.IsSpace(c) then [] else [c]
  {
    assert [c][1..] == [];
  }

  /**
   * Stripping works piecewise: the stripped join is the join of the stripped
   * parts. With StripSpacesChar, this pins stripping down to keeping the
   * non-blank characters in their order.
   */
  lemma {:induction false} StripSpacesAppend(a: string, b: string)
    ensures StripSpaces(a + b) == StripSpaces(a) + StripSpaces(b)
    decreases |a|
  {
    if a == [] {
      assert a + b == b;
    } else {
      assert (a + b)[0] == a[0] && (a + b)[1..] == a[1..] + b;
      StripSpacesAppend(a[1..], b);
    }
  }

  /** An input refused before conversion leaves the counter at 0. */
  lemma CounterAfterRefusal(input: string)
    requires Process(input).Err? && (Process(input).error.EmptyInput? || Process(input).error.Rejected?)
    ensures CounterAfter(input) == 0
  {
  }

  /**
   * After an error thrown during processing, the counter is 0 when the
   * converter threw, one per postfix token when the builder was left with
   * dangling operands, and short of the postfix length when an operator
   * found too few operands.
   */
  lemma CounterAfterFailure(input: string)
    requires Process(input).Err? && Process(input).error.Failed?
    ensures var post := ShuntingYard.ToPostfix(StripSpaces(input));
      && (post.Err? ==> CounterAfter(input) == 0)
      && (post.Ok? && Process(input).error.stage == DanglingOperands ==> CounterAfter(input) == |post.value|)
      && (post.Ok? && Process(input).error.stage == MissingOperands ==> CounterAfter(input) < |post.value|)
  {
    var e := StripSpaces(input);
    var post := ShuntingYard.ToPostfix(e);
    if post.Ok? {
      ExpressionTree.BuildFromCounter(post.value, [], 0);
      ExpressionTree.BuildFromOutcome(post.value, [], 0);
      if Syntax.Trim(e) != [] && Syntax.Validate(e).None? {
        assert Process(input) == Err(Failed(ExpressionTree.Construct(post.value, 0).0.error));
      }
    }
  }

  /**
   * Whatever the counter held before, a tree drawn by the page has its ids
   * 0, 1, 2, ... in post-order, one per postfix token, its leaves hold the
   * numbers and it has one more leaf than branches.
   */
  lemma ProcessTree(input: string)
    requires Process(input).Ok?
    ensures var t := Process(input).value;
      && (forall i | 0 <= i < |ExpressionTree.PostIds(t)| :: ExpressionTree.PostIds(t)[i] == i)
      && ExpressionTree.WellTyped(t)
      && ExpressionTree.LeafCount(t) == ExpressionTree.BranchCount(t) + 1
  {
    var e := StripSpaces(input);
    var p := ShuntingYard.ToPostfix(e).value;
    ExpressionTree.ConstructShape(p, 0);
    ExpressionTree.ConstructCounts(p, 0);
  }
}
