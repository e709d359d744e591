/**
 * The parenthesis balance check `validarParentesis`: a depth counter that
 * starts at 0, goes up on `(` and down on `)`, must never become negative and
 * must end at 0.
 */
module Parens {

  /** What one character does to the counter. */
  function Delta(c: char): int
  {
    if c == '(' then 1 else if c == ')' then -1 else 0
  }

  /** The counter after reading all of `s`: the number of `(` minus the number of `)`. */
  function Depth(s: string): int
  {
    if s == [] then 0 else Depth(s[..|s| - 1]) + Delta(s[|s| - 1])
  }

  /** The counter after the first `k` characters. */
  function DepthAt(s: string, k: int): int
    requires 0 <= k <= |s|
  {
    Depth(s[..k])
  }

  /** No prefix closes more parentheses than it opens, and the whole string closes all it opens. */
  predicate Balanced(s: string)
  {
    (forall k | 0 <= k <= |s| :: DepthAt(s, k) >= 0) && Depth(s) == 0
  }

  /** `validarParentesis`: returns at the first `)` that drives the counter below 0. */
  method ValidateParens(expr: string) returns (ok: bool)
    ensures ok <==> Balanced(expr)
  {
    var contador := 0;
    for i := 0 to |expr|
      invariant contador == Depth(expr[..i])
      invariant forall k | 0 <= k <= i :: DepthAt(expr, k) >= 0
    {
      assert expr[..i + 1][..i] == expr[..i];
      if expr[i] == '(' {
        contador := contador + 1;
      } else if expr[i] == ')' {
        contador := contador - 1;
        if contador < 0 {
          assert DepthAt(expr, i + 1) < 0;
          return false;
        }
      }
    }
    assert expr[..|expr|] == expr;
    return contador == 0;
  }

  /** The counter is additive over concatenation. */
  lemma {:induction false} DepthAppend(a: string, b: string)
    ensures Depth(a + b) == Depth(a) + Depth(b)
    decreases |b|
  {
    if b == [] {
      assert a + b == a;
    } else {
      var b' := b[..|b| - 1];
      assert (a + b)[..|a + b| - 1] == a + b';
      DepthAppend(a, b');
    }
  }

  /** A prefix of `a + b` that reaches into `b` has the depth of `a` plus that of the part of `b`. */
  lemma DepthPrefixAppend(a: string, b: string, k: nat)
    requires |a| <= k <= |a| + |b|
    ensures Depth((a + b)[..k]) == Depth(a) + Depth(b[..k - |a|])
  {
    assert (a + b)[..k] == a + b[..k - |a|];
    DepthAppend(a, b[..k - |a|]);
  }

  /** Putting one character in front shifts every prefix depth by that character's step. */
  lemma DepthConsAt(c: char, tail: string, k: nat)
    requires k <= |tail|
    ensures DepthAt([c] + tail, k + 1) == Delta(c) + DepthAt(tail, k)
  {
    assert ([c] + tail)[..k + 1] == [c] + tail[..k];
    DepthAppend([c], tail[..k]);
    assert [c][..0] == [];
  }

  /** Two balanced strings side by side are balanced. */
  lemma BalancedAppend(a: string, b: string)
    requires Balanced(a) && Balanced(b)
    ensures Balanced(a + b)
  {
    forall k | 0 <= k <= |a + b|
      ensures DepthAt(a + b, k) >= 0
    {
      if k <= |a| {
        assert (a + b)[..k] == a[..k];
        assert DepthAt(a, k) >= 0;
      } else {
        DepthPrefixAppend(a, b, k);
        assert DepthAt(b, k - |a|) >= 0;
      }
    }
    DepthAppend(a, b);
  }

  /** A string without parentheses keeps the counter at 0 everywhere. */
  lemma {:induction false} NoParensDepth(s: string)
    requires forall i :: 0 <= i < |s| ==> s[i] != '(' && s[i] != ')'
    ensures Depth(s) == 0
    decreases |s|
  {
    if s != [] {
      NoParensDepth(s[..|s| - 1]);
    }
  }

  lemma NoParensBalanced(s: string)
    requires forall i :: 0 <= i < |s| ==> s[i] != '(' && s[i] != ')'
    ensures Balanced(s)
  {
    forall k | 0 <= k <= |s|
      ensures DepthAt(s, k) == 0
    {
      NoParensDepth(s[..k]);
    }
    NoParensDepth(s);
  }

  /** Wrapping a balanced string in a pair of parentheses keeps it balanced. */
  lemma BalancedWrap(s: string)
    requires Balanced(s)
    ensures Balanced("(" + s + ")")
  {
    var w := "(" + s + ")";
    DepthAppend("(" + s, ")");
    DepthAppend("(", s);
    forall k | 0 <= k <= |w|
      ensures DepthAt(w, k) >= 0
    {
      if k == 0 {
      } else if k <= |s| + 1 {
        assert w[..k] == "(" + s[..k - 1];
        DepthAppend("(", s[..k - 1]);
        assert DepthAt(s, k - 1) >= 0;
      } else {
        assert w[..k] == w;
      }
    }
  }

  /** A string made only of `(` leaves the counter at its length, so a non-empty one is never balanced. */
  lemma {:induction false} OpenRunDepth(s: string)
    requires forall i :: 0 <= i < |s| ==> s[i] == '('
    ensures Depth(s) == |s|
    decreases |s|
  {
    if s != [] {
      OpenRunDepth(s[..|s| - 1]);
    }
  }
}
