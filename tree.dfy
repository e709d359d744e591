/**
 * The postfix-to-tree builder `construirArbol`. Each postfix token makes a
 * node whose id is the next value of a counter that outlives the call (the
 * page resets it to 0 before each build). A number makes a leaf and is
 * pushed; any other token pops the top node as its right child and the node
 * below as its left child, and the new node is pushed. An operator with fewer
 * than two nodes on the stack throws, and so does a build that ends with
 * anything other than exactly one node.
 *
 * `TreeBuilder` holds the counter and runs the loop; `BuildFrom` and
 * `Construct` specify it, and the lemmas state what a built tree is.
 */
module ExpressionTree {
  import opened Wrappers
  import opened Tokens

  /** A node of the tree; the source's id `n<k>` is kept as the number k. */
  datatype Node =
    | Leaf(id: nat, value: Token)
    | Branch(id: nat, value: Token, left: Node, right: Node)

  /** The operand stack after some tokens, or the error met, and the counter reached. */
  datatype Progress = Progress(stack: Result<seq<Node>, PipelineError>, counter: nat)

  /** One token's node, with id `id`: a leaf pushed, or a branch over the top two nodes. */
  function Push(stack: seq<Node>, id: nat, t: Token): seq<Node>
    requires t.Num? || |stack| >= 2
  {
    if t.Num? then stack + [Leaf(id, t)]
    else
      var n := |stack|;
      stack[..n - 2] + [Branch(id, t, stack[n - 2], stack[n - 1])]
  }

  /** The builder's loop over the remaining postfix `p`, from `stack` and `counter`. */
  function BuildFrom(p: seq<Token>, stack: seq<Node>, counter: nat): Progress
  {
    if p == [] then Progress(Ok(stack), counter)
    else if !p[0].Num? && |stack| < 2 then Progress(Err(MissingOperands), counter)
    else BuildFrom(p[1..], Push(stack, counter, p[0]), counter + 1)
  }

  /** The counter advances by one per token read: by all of them, unless an operator throws first. */
  lemma {:induction false} BuildFromCounter(p: seq<Token>, stack: seq<Node>, counter: nat)
    ensures BuildFrom(p, stack, counter).stack.Ok? ==> BuildFrom(p, stack, counter).counter == counter + |p|
    ensures BuildFrom(p, stack, counter).stack.Err? ==> BuildFrom(p, stack, counter).counter < counter + |p|
    decreases |p|
  {
    if p != [] && (p[0].Num? || |stack| >= 2) {
      BuildFromCounter(p[1..], Push(stack, counter, p[0]), counter + 1);
    }
  }

  /** `construirArbol` from counter value `counter`: the tree or the error, and the new counter. */
  function Construct(p: seq<Token>, counter: nat): (Result<Node, PipelineError>, nat)
  {
    var run := BuildFrom(p, [], counter);
    match run.stack
    case Err(e) => (Err(e), run.counter)
    case Ok(stack) =>
      if |stack| != 1 then (Err(DanglingOperands), run.counter) else (Ok(stack[0]), run.counter)
  }

  /** The module-level node counter and the builder that advances it. */
  class TreeBuilder {
    var nodeId: nat

    constructor ()
      ensures nodeId == 0
    {
      nodeId := 0;
    }

    /** The page's reset before each build. */
    method Reset()
      modifies this
      ensures nodeId == 0
    {
      nodeId := 0;
    }

    /** `construirArbol`. */
    method Build(postfix: seq<Token>) returns (r: Result<Node, PipelineError>)
      modifies this
      ensures (r, nodeId) == Construct(postfix, old(nodeId))
    {
      var stack: seq<Node> := [];
      ghost var start := nodeId;
      for i := 0 to |postfix|
        invariant BuildFrom(postfix[i..], stack, nodeId) == BuildFrom(postfix, [], start)
      {
        var token := postfix[i];
        assert postfix[i..][1..] == postfix[i + 1..];
        if token.Num? {
          stack := stack + [Leaf(nodeId, token)];
          nodeId := nodeId + 1;
        } else {
          if |stack| < 2 {
            return Err(MissingOperands);
          }
          var right := stack[|stack| - 1];
          var left := stack[|stack| - 2];
          stack := stack[..|stack| - 2] + [Branch(nodeId, token, left, right)];
          nodeId := nodeId + 1;
        }
      }
      assert postfix[|postfix|..] == [];
      if |stack| != 1 {
        return Err(DanglingOperands);
      }
      return Ok(stack[0]);
    }
  }

  // ---------------------------------------------------------------------
  // When the build throws.

  /** How many nodes the stack gains over `p`: one per number, one less per other token. */
  function Height(p: seq<Token>): int
  {
    if p == [] then 0 else Height(p[..|p| - 1]) + (if p[|p| - 1].Num? then 1 else -1)
  }

  function HeightAt(p: seq<Token>, k: int): int
    requires 0 <= k <= |p|
  {
    Height(p[..k])
  }

  /** Every non-number token of `p` finds two operands, counting `base` nodes already stacked. */
  predicate OperandsFound(p: seq<Token>, base: nat)
  {
    forall i | 0 <= i < |p| :: !p[i].Num? ==> base + HeightAt(p, i) >= 2
  }

  /** A postfix sequence that builds: operands always found, and one tree left at the end. */
  predicate Buildable(p: seq<Token>)
  {
    OperandsFound(p, 0) && Height(p) == 1
  }

  lemma {:induction false} HeightAppend(a: seq<Token>, b: seq<Token>)
    ensures Height(a + b) == Height(a) + Height(b)
    decreases |b|
  {
    if b == [] {
      assert a + b == a;
    } else {
      HeightAppend(a, b[..|b| - 1]);
      assert (a + b)[..|a + b| - 1] == a + b[..|b| - 1];
    }
  }

  lemma HeightFront(t: Token, rest: seq<Token>, k: nat)
    requires k <= |rest|
    ensures HeightAt([t] + rest, k + 1) == (if t.Num? then 1 else -1) + HeightAt(rest, k)
  {
    assert ([t] + rest)[..k + 1] == [t] + rest[..k];
    HeightAppend([t], rest[..k]);
    assert [t][..0] == [];
  }

  /**
   * The loop throws exactly when some non-number token finds fewer than two
   * nodes, and then with the missing-operands error; otherwise the stack ends
   * with its height changed by `Height(p)`, and the counter has advanced by
   * one per token.
   */
  lemma {:induction false} BuildFromOutcome(p: seq<Token>, stack: seq<Node>, counter: nat)
    ensures BuildFrom(p, stack, counter).stack.Ok? <==> OperandsFound(p, |stack|)
    ensures BuildFrom(p, stack, counter).stack.Err? ==> BuildFrom(p, stack, counter).stack.error == MissingOperands
    ensures BuildFrom(p, stack, counter).stack.Ok? ==>
      && |BuildFrom(p, stack, counter).stack.value| == |stack| + Height(p)
      && BuildFrom(p, stack, counter).counter == counter + |p|
  {
    if p != [] {
      var t, rest := p[0], p[1..];
      assert p == [t] + rest;
      OperandsFoundFront(t, rest, |stack|);
      BuildHead(p, stack, counter);
      if t.Num? || |stack| >= 2 {
        BuildFromOutcome(rest, Push(stack, counter, t), counter + 1);
        HeightCons(t, rest);
      }
    }
  }

  lemma HeightCons(t: Token, rest: seq<Token>)
    ensures Height([t] + rest) == (if t.Num? then 1 else -1) + Height(rest)
  {
    HeightFront(t, rest, |rest|);
    assert rest[..|rest|] == rest && ([t] + rest)[..|rest| + 1] == [t] + rest;
  }

  /** The first token needs its operands from the base; the rest then needs them from the base it leaves. */
  lemma OperandsFoundFront(t: Token, rest: seq<Token>, base: nat)
    ensures !t.Num? && base < 2 ==> !OperandsFound([t] + rest, base)
    ensures t.Num? || base >= 2 ==>
      (OperandsFound([t] + rest, base) <==> OperandsFound(rest, if t.Num? then base + 1 else base - 1))
  {
    var p := [t] + rest;
    HeightFront(t, rest, 0);
    assert rest[..0] == [] && p[0] == t;
    if t.Num? || base >= 2 {
      var base' := if t.Num? then base + 1 else base - 1;
      if OperandsFound(rest, base') {
        forall i | 0 <= i < |p|
          ensures !p[i].Num? ==> base + HeightAt(p, i) >= 2
        {
          if i > 0 {
            HeightFront(t, rest, i - 1);
            assert p[i] == rest[i - 1];
          }
        }
      }
      if OperandsFound(p, base) {
        forall i | 0 <= i < |rest|
          ensures !rest[i].Num? ==> base' + HeightAt(rest, i) >= 2
        {
          HeightFront(t, rest, i);
          assert p[i + 1] == rest[i];
        }
      }
    }
  }

  /**
   * `construirArbol` succeeds exactly on buildable postfix; it throws the
   * missing-operands error when an operator finds fewer than two nodes, and
   * the too-many-operands error when the operators all found theirs but the
   * stack does not end with exactly one node. The counter advances by the
   * tokens read.
   */
  lemma ConstructOutcome(p: seq<Token>, counter: nat)
    ensures Construct(p, counter).0.Ok? <==> Buildable(p)
    ensures Construct(p, counter).0 == Err(MissingOperands) <==> !OperandsFound(p, 0)
    ensures Construct(p, counter).0 == Err(DanglingOperands) <==> OperandsFound(p, 0) && Height(p) != 1
    ensures Construct(p, counter).0.Ok? ==> Construct(p, counter).1 == counter + |p|
  {
    BuildFromOutcome(p, [], counter);
  }

  // ---------------------------------------------------------------------
  // What a built tree is.

  /** The tokens of a tree in post-order: left subtree, right subtree, node. */
  function PostOrder(t: Node): seq<Token>
  {
    match t
    case Leaf(_, v) => [v]
    case Branch(_, v, l, r) => PostOrder(l) + PostOrder(r) + [v]
  }

  /** The ids of a tree in post-order. */
  function PostIds(t: Node): seq<nat>
  {
    match t
    case Leaf(id, _) => [id]
    case Branch(id, _, l, r) => PostIds(l) + PostIds(r) + [id]
  }

  /** The post-orders of a stack of trees, bottom first. */
  function StackPostOrder(stack: seq<Node>): seq<Token>
  {
    if stack == [] then [] else StackPostOrder(stack[..|stack| - 1]) + PostOrder(stack[|stack| - 1])
  }

  function StackPostIds(stack: seq<Node>): seq<nat>
  {
    if stack == [] then [] else StackPostIds(stack[..|stack| - 1]) + PostIds(stack[|stack| - 1])
  }

  /** Leaves hold numbers and branches hold the other tokens. */
  predicate WellTyped(t: Node)
  {
    match t
    case Leaf(_, v) => v.Num?
    case Branch(_, v, l, r) => !v.Num? && WellTyped(l) && WellTyped(r)
  }

  /** `n` consecutive ids from `lo`. */
  function Ids(lo: nat, n: nat): (r: seq<nat>)
    ensures |r| == n
    ensures forall i | 0 <= i < n :: r[i] == lo + i
    decreases n
  {
    if n == 0 then [] else [lo] + Ids(lo + 1, n - 1)
  }

  lemma StackPush(stack: seq<Node>, t: Node)
    ensures StackPostOrder(stack + [t]) == StackPostOrder(stack) + PostOrder(t)
    ensures StackPostIds(stack + [t]) == StackPostIds(stack) + PostIds(t)
  {
    assert (stack + [t])[..|stack|] == stack;
  }

  /** Combining the top two trees appends the new node to the stack's post-order. */
  lemma StackCombine(stack: seq<Node>, id: nat, v: Token)
    requires |stack| >= 2
    ensures
      var n := |stack|;
      var stack' := stack[..n - 2] + [Branch(id, v, stack[n - 2], stack[n - 1])];
      && StackPostOrder(stack') == StackPostOrder(stack) + [v]
      && StackPostIds(stack') == StackPostIds(stack) + [id]
  {
    var n := |stack|;
    var below := stack[..n - 2];
    var l, r := stack[n - 2], stack[n - 1];
    StackPush(below, Branch(id, v, l, r));
    assert stack == below + [l] + [r];
    StackPush(below, l);
    StackPush(below + [l], r);
  }

  /** Each token becomes the next node in the stack's post-order, with the next id. */
  lemma PushOrder(stack: seq<Node>, id: nat, t: Token)
    requires t.Num? || |stack| >= 2
    ensures StackPostOrder(Push(stack, id, t)) == StackPostOrder(stack) + [t]
    ensures StackPostIds(Push(stack, id, t)) == StackPostIds(stack) + [id]
  {
    if t.Num? {
      StackPush(stack, Leaf(id, t));
    } else {
      StackCombine(stack, id, t);
    }
  }

  /** A token's node is well typed when the nodes it takes are. */
  lemma PushTyped(stack: seq<Node>, id: nat, t: Token)
    requires t.Num? || |stack| >= 2
    requires forall j | 0 <= j < |stack| :: WellTyped(stack[j])
    ensures forall j | 0 <= j < |Push(stack, id, t)| :: WellTyped(Push(stack, id, t)[j])
  {
    var stack' := Push(stack, id, t);
    forall j | 0 <= j < |stack'|
      ensures WellTyped(stack'[j])
    {
      if j < |stack'| - 1 {
        assert stack'[j] == stack[j];
      }
    }
  }

  /** The loop keeps the stack's trees well typed. */
  lemma {:induction false} BuildFromTyped(p: seq<Token>, stack: seq<Node>, counter: nat)
    requires BuildFrom(p, stack, counter).stack.Ok?
    requires forall j | 0 <= j < |stack| :: WellTyped(stack[j])
    ensures forall j | 0 <= j < |BuildFrom(p, stack, counter).stack.value| ::
      WellTyped(BuildFrom(p, stack, counter).stack.value[j])
  {
    if p != [] {
      PushTyped(stack, counter, p[0]);
      BuildFromTyped(p[1..], Push(stack, counter, p[0]), counter + 1);
    }
  }

  /** Each token the loop reads becomes the next node in the stack's post-order ... */
  lemma {:induction false} BuildFromOrder(p: seq<Token>, stack: seq<Node>, counter: nat)
    requires BuildFrom(p, stack, counter).stack.Ok?
    ensures StackPostOrder(BuildFrom(p, stack, counter).stack.value) == StackPostOrder(stack) + p
  {
    if p == [] {
      assert StackPostOrder(stack) + p == StackPostOrder(stack);
    } else {
      BuildStep(p, stack, counter);
      var t, rest := p[0], p[1..];
      PushOrder(stack, counter, t);
      BuildFromOrder(rest, Push(stack, counter, t), counter + 1);
      ConsAfter(StackPostOrder(stack), p);
    }
  }

  /** A loop that gets through `p` first pushes the node of `p[0]`. */
  lemma BuildStep(p: seq<Token>, stack: seq<Node>, counter: nat)
    requires p != [] && BuildFrom(p, stack, counter).stack.Ok?
    ensures p[0].Num? || |stack| >= 2
    ensures BuildFrom(p, stack, counter) == BuildFrom(p[1..], Push(stack, counter, p[0]), counter + 1)
  {
  }

  /** The first token either finds its operands and is pushed, or throws. */
  lemma BuildHead(p: seq<Token>, stack: seq<Node>, counter: nat)
    requires p != []
    ensures !p[0].Num? && |stack| < 2 ==> BuildFrom(p, stack, counter) == Progress(Err(MissingOperands), counter)
    ensures p[0].Num? || |stack| >= 2 ==>
      BuildFrom(p, stack, counter) == BuildFrom(p[1..], Push(stack, counter, p[0]), counter + 1)
  {
  }

  lemma ConsAfter(a: seq<Token>, p: seq<Token>)
    requires p != []
    ensures a + [p[0]] + p[1..] == a + p
  {
    assert [p[0]] + p[1..] == p;
    assert a + [p[0]] + p[1..] == a + ([p[0]] + p[1..]);
  }

  /** ... and gets the next id. */
  lemma {:induction false} BuildFromIds(p: seq<Token>, stack: seq<Node>, counter: nat)
    requires BuildFrom(p, stack, counter).stack.Ok?
    ensures StackPostIds(BuildFrom(p, stack, counter).stack.value) == StackPostIds(stack) + Ids(counter, |p|)
  {
    if p == [] {
      assert StackPostIds(stack) + Ids(counter, 0) == StackPostIds(stack);
    } else {
      BuildStep(p, stack, counter);
      var t, rest := p[0], p[1..];
      PushOrder(stack, counter, t);
      BuildFromIds(rest, Push(stack, counter, t), counter + 1);
      IdsAfter(StackPostIds(stack), counter, |rest|);
    }
  }

  lemma IdsAfter(ids: seq<nat>, lo: nat, n: nat)
    ensures ids + [lo] + Ids(lo + 1, n) == ids + Ids(lo, n + 1)
  {
    var tail := Ids(lo + 1, n);
    assert Ids(lo, n + 1) == [lo] + tail;
    assert ids + [lo] + tail == ids + ([lo] + tail);
  }

  /**
   * A tree built from postfix `p` with the counter at `counter` gives back `p`
   * in post-order (so the most recent node is always the right child), holds
   * numbers at its leaves and operators at its branches, and numbers its
   * nodes `counter`, `counter + 1`, ... in post-order: one distinct id per
   * token. The counter ends past the last id.
   */
  lemma ConstructShape(p: seq<Token>, counter: nat)
    requires Construct(p, counter).0.Ok?
    ensures var t := Construct(p, counter).0.value;
      && PostOrder(t) == p
      && WellTyped(t)
      && |PostIds(t)| == |p|
      && (forall i | 0 <= i < |p| :: PostIds(t)[i] == counter + i)
      && Construct(p, counter).1 == counter + |p|
  {
    BuildFromOrder(p, [], counter);
    BuildFromIds(p, [], counter);
    BuildFromTyped(p, [], counter);
    BuildFromOutcome(p, [], counter);
    var out := BuildFrom(p, [], counter).stack.value;
    var t := out[0];
    assert Construct(p, counter).0.value == t;
    assert out == [] + [t];
    StackPush([], t);
    assert StackPostOrder([]) == [] && StackPostIds([]) == [];
    assert StackPostOrder(out) == PostOrder(t);
    assert StackPostIds(out) == PostIds(t);
    assert [] + p == p;
    assert [] + Ids(counter, |p|) == Ids(counter, |p|);
  }

  function LeafCount(t: Node): nat
  {
    match t
    case Leaf(_, _) => 1
    case Branch(_, _, l, r) => LeafCount(l) + LeafCount(r)
  }

  function BranchCount(t: Node): nat
  {
    match t
    case Leaf(_, _) => 0
    case Branch(_, _, l, r) => BranchCount(l) + BranchCount(r) + 1
  }

  function CountNumbers(p: seq<Token>): nat
  {
    if p == [] then 0 else (if p[0].Num? then 1 else 0) + CountNumbers(p[1..])
  }

  lemma {:induction false} CountNumbersAppend(a: seq<Token>, b: seq<Token>)
    ensures CountNumbers(a + b) == CountNumbers(a) + CountNumbers(b)
  {
    if a == [] {
      assert a + b == b;
    } else {
      CountNumbersAppend(a[1..], b);
      assert (a + b)[1..] == a[1..] + b;
    }
  }

  /** A well-typed tree has one more leaf than branches; its leaves are the numbers of its post-order. */
  lemma {:induction false} TreeCounts(t: Node)
    requires WellTyped(t)
    ensures LeafCount(t) == BranchCount(t) + 1
    ensures LeafCount(t) == CountNumbers(PostOrder(t))
    ensures |PostOrder(t)| == LeafCount(t) + BranchCount(t)
  {
    match t
    case Leaf(_, v) =>
      assert [v][1..] == [];
    case Branch(_, v, l, r) =>
      TreeCounts(l);
      TreeCounts(r);
      CountNumbersAppend(PostOrder(l), PostOrder(r));
      CountNumbersAppend(PostOrder(l) + PostOrder(r), [v]);
      assert [v][1..] == [];
  }

  /**
   * A tree built from postfix `p` has a leaf per number of `p`, a branch per
   * other token, and one more leaf than branches.
   */
  lemma ConstructCounts(p: seq<Token>, counter: nat)
    requires Construct(p, counter).0.Ok?
    ensures var t := Construct(p, counter).0.value;
      && LeafCount(t) == BranchCount(t) + 1
      && LeafCount(t) == CountNumbers(p)
      && BranchCount(t) == |p| - CountNumbers(p)
  {
    ConstructShape(p, counter);
    TreeCounts(Construct(p, counter).0.value);
  }

  /** Right after the page's reset, a build numbers its nodes from 0. */
  method ResetAndBuild(b: TreeBuilder, postfix: seq<Token>) returns (r: Result<Node, PipelineError>)
    modifies b
    ensures (r, b.nodeId) == Construct(postfix, 0)
  {
    b.Reset();
    r := b.Build(postfix);
  }
}
