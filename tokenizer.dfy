/**
 * The tokenizer inside `infixAPostfix`: a global match of `/\d+|[+\-*\/()]/`,
 * which, scanning left to right, takes the whole run of digits that starts at
 * a digit, takes a symbol on its own, and skips every other character. No
 * match at all is an exception.
 */
module Tokenizer {
  import opened Wrappers
  import opened Tokens

  /** The length of the run of digits at the start of `s` (greedy `\d+`). */
  function DigitRun(s: string): (n: nat)
    ensures n <= |s|
  {
    if s != [] && IsDigit(s[0]) then 1 + DigitRun(s[1..]) else 0
  }

  /** The tokens of `s` from left to right. */
  function Scan(s: string): seq<Token>
    decreases |s|
  {
    if s == [] then []
    else if IsDigit(s[0]) then
      var n := DigitRun(s);
      DigitRunSpec(s);
      [Num(s[..n])] + Scan(s[n..])
    else if IsSymbolChar(s[0]) then [SymbolToken(s[0])] + Scan(s[1..])
    else Scan(s[1..])
  }

  /** `expr.match(...)`, with `null` (no match) turned into the exception. */
  function Tokenize(s: string): Result<seq<Token>, PipelineError>
  {
    var ts := Scan(s);
    if ts == [] then Err(NoTokens) else Ok(ts)
  }

  predicate IsTokenChar(c: char)
  {
    IsDigit(c) || IsSymbolChar(c)
  }

  /** The characters of `s` that some token is made of, in order. */
  function Kept(s: string): string
  {
    if s == [] then [] else (if IsTokenChar(s[0]) then [s[0]] else []) + Kept(s[1..])
  }

  /** The text the tokens were matched from, glued together. */
  function Texts(ts: seq<Token>): string
  {
    if ts == [] then [] else TokenText(ts[0]) + Texts(ts[1..])
  }

  /** Two number tokens side by side at `i`. */
  predicate NumPairAt(ts: seq<Token>, i: int)
    requires 0 <= i < |ts| - 1
  {
    ts[i].Num? && ts[i + 1].Num?
  }

  predicate NoAdjacentNums(ts: seq<Token>)
  {
    forall i | 0 <= i < |ts| - 1 :: !NumPairAt(ts, i)
  }

  lemma {:induction false} DigitRunSpec(s: string)
    ensures DigitRun(s) <= |s| && AllDigits(s[..DigitRun(s)])
    ensures DigitRun(s) == |s| || !IsDigit(s[DigitRun(s)])
  {
    if s != [] && IsDigit(s[0]) {
      DigitRunSpec(s[1..]);
      assert s[..DigitRun(s)] == [s[0]] + s[1..][..DigitRun(s[1..])];
    }
  }

  /** The digit run of `a + b` stops inside `a` unless `a` is all digits. */
  lemma {:induction false} DigitRunAppend(a: string, b: string)
    ensures DigitRun(a + b) == if DigitRun(a) < |a| then DigitRun(a) else |a| + DigitRun(b)
    decreases |a|
  {
    DigitRunSpec(a);
    if a == [] {
      assert a + b == b;
    } else if IsDigit(a[0]) {
      assert (a + b)[1..] == a[1..] + b;
      DigitRunAppend(a[1..], b);
    }
  }

  lemma {:induction false} TextsAppend(a: seq<Token>, b: seq<Token>)
    ensures Texts(a + b) == Texts(a) + Texts(b)
  {
    if a == [] {
      assert a + b == b;
    } else {
      assert (a + b)[1..] == a[1..] + b;
      TextsAppend(a[1..], b);
    }
  }

  lemma {:induction false} KeptAppend(a: string, b: string)
    ensures Kept(a + b) == Kept(a) + Kept(b)
  {
    if a == [] {
      assert a + b == b;
    } else {
      var head := if IsTokenChar(a[0]) then [a[0]] else [];
      assert (a + b)[0] == a[0] && (a + b)[1..] == a[1..] + b;
      KeptAppend(a[1..], b);
      assert Kept(a + b) == head + Kept(a[1..] + b);
      assert Kept(a) == head + Kept(a[1..]);
      assert head + (Kept(a[1..]) + Kept(b)) == head + Kept(a[1..]) + Kept(b);
    }
  }

  /** The first token of a string that starts with a digit is its whole digit run. */
  lemma ScanDigitHead(s: string)
    requires s != [] && IsDigit(s[0])
    ensures Scan(s) == [Num(s[..DigitRun(s)])] + Scan(s[DigitRun(s)..])
  {
  }

  /**
   * Tokenizing is compositional wherever the cut does not split a run of
   * digits.
   */
  lemma {:induction false} ScanAppend(a: string, b: string)
    requires a == [] || b == [] || !IsDigit(a[|a| - 1]) || !IsDigit(b[0])
    ensures Scan(a + b) == Scan(a) + Scan(b)
    decreases |a|
  {
    if a == [] {
      assert a + b == b;
    } else if IsDigit(a[0]) {
      ScanAppendDigits(a, b);
    } else {
      assert (a + b)[1..] == a[1..] + b;
      ScanAppend(a[1..], b);
    }
  }

  /** `ScanAppend` when `a` starts with a digit: the run ends inside `a` or exactly at the cut. */
  lemma {:induction false} ScanAppendDigits(a: string, b: string)
    requires a != [] && IsDigit(a[0])
    requires b == [] || !IsDigit(a[|a| - 1]) || !IsDigit(b[0])
    ensures Scan(a + b) == Scan(a) + Scan(b)
    decreases |a|, 0
  {
    var n := DigitRun(a);
    DigitRunSpec(a);
    DigitRunAppend(a, b);
    ScanDigitHead(a);
    ScanDigitHead(a + b);
    var ab := a + b;
    if n < |a| {
      assert ab[..n] == a[..n];
      assert ab[n..] == a[n..] + b;
      ScanAppend(a[n..], b);
    } else {
      assert a[..n] == a;
      assert IsDigit(a[|a| - 1]) by { assert a[..n][|a| - 1] == a[|a| - 1]; }
      DigitRunSpec(b);
      assert ab[..n] == a;
      assert ab[n..] == b;
      assert a[n..] == [];
    }
  }

  /** A character that belongs to no token separates what is before it from what is after it. */
  lemma SkippedCharSplits(a: string, c: char, b: string)
    requires !IsTokenChar(c)
    ensures Scan(a + [c] + b) == Scan(a) + Scan(b)
  {
    ScanAppend(a, [c] + b);
    ScanAppend([c], b);
    assert a + [c] + b == a + ([c] + b);
    assert Scan([c]) == Scan([]);
  }

  /**
   * The tokens spell out exactly the digits and symbols of the input, in
   * order: nothing is lost, reordered or invented, and everything else is
   * skipped.
   */
  lemma {:induction false} ScanKeepsText(s: string)
    ensures Texts(Scan(s)) == Kept(s)
    decreases |s|
  {
    if s == [] {
    } else if IsDigit(s[0]) {
      var n := DigitRun(s);
      DigitRunSpec(s);
      ScanKeepsText(s[n..]);
      assert s == s[..n] + s[n..];
      KeptAppend(s[..n], s[n..]);
      AllKept(s[..n]);
      TextsAppend([Num(s[..n])], Scan(s[n..]));
    } else {
      ScanKeepsText(s[1..]);
      TextsAppend(Scan(s[..1]), Scan(s[1..]));
      assert s == [s[0]] + s[1..];
      KeptAppend([s[0]], s[1..]);
      if IsSymbolChar(s[0]) {
        assert Texts([SymbolToken(s[0])]) == [s[0]];
      }
    }
  }

  lemma {:induction false} AllKept(s: string)
    requires AllDigits(s)
    ensures Kept(s) == s
  {
    if s != [] {
      AllKept(s[1..]);
    }
  }

  /** Every token holds what the regular expression can match: digits for a number. */
  lemma {:induction false} ScanWellFormed(s: string)
    ensures forall i | 0 <= i < |Scan(s)| :: WellFormedToken(Scan(s)[i])
    decreases |s|
  {
    if s == [] {
    } else if IsDigit(s[0]) {
      DigitRunSpec(s);
      ScanWellFormed(s[DigitRun(s)..]);
    } else {
      ScanWellFormed(s[1..]);
    }
  }

  /** `Kept` is empty exactly when no character belongs to a token. */
  lemma {:induction false} KeptEmpty(s: string)
    ensures Kept(s) == [] <==> forall i | 0 <= i < |s| :: !IsTokenChar(s[i])
  {
    if s != [] {
      KeptEmpty(s[1..]);
      assert forall i | 1 <= i < |s| :: s[i] == s[1..][i - 1];
    }
  }

  /** Every token is matched from at least one character. */
  lemma {:induction false} TextsEmpty(ts: seq<Token>)
    requires forall i | 0 <= i < |ts| :: WellFormedToken(ts[i])
    ensures Texts(ts) == [] <==> ts == []
  {
    if ts != [] {
      assert WellFormedToken(ts[0]);
    }
  }

  /** The regular expression matches nothing exactly when no character is a digit or a symbol. */
  lemma TokenizeFails(s: string)
    ensures Tokenize(s) == Err(NoTokens) <==> forall i | 0 <= i < |s| :: !IsTokenChar(s[i])
    ensures Tokenize(s).Ok? ==> Tokenize(s).value == Scan(s)
  {
    ScanKeepsText(s);
    KeptEmpty(s);
    ScanWellFormed(s);
    TextsEmpty(Scan(s));
  }

  lemma NoAdjacentNumsCons(t: Token, ts: seq<Token>)
    requires NoAdjacentNums(ts)
    requires ts == [] || !t.Num? || !ts[0].Num?
    ensures NoAdjacentNums([t] + ts)
  {
    var r := [t] + ts;
    forall i | 0 <= i < |r| - 1
      ensures !NumPairAt(r, i)
    {
      if i > 0 {
        assert !NumPairAt(ts, i - 1);
      }
    }
  }

  /** The first token of a string that starts with a symbol is that symbol. */
  lemma ScanSymbolHead(s: string)
    requires s != [] && IsSymbolChar(s[0])
    ensures Scan(s) == [SymbolToken(s[0])] + Scan(s[1..])
  {
  }

  /**
   * Runs of digits are maximal: on a string made only of digits and symbols,
   * no two number tokens are ever next to each other.
   */
  lemma {:induction false} ScanMaximal(s: string)
    requires forall i | 0 <= i < |s| :: IsTokenChar(s[i])
    ensures NoAdjacentNums(Scan(s))
    decreases |s|
  {
    if s == [] {
    } else if IsDigit(s[0]) {
      var n := DigitRun(s);
      DigitRunSpec(s);
      var rest := s[n..];
      assert forall i | 0 <= i < |rest| :: rest[i] == s[n + i];
      ScanMaximal(rest);
      if rest != [] {
        ScanSymbolHead(rest);
      }
      NoAdjacentNumsCons(Num(s[..n]), Scan(rest));
    } else {
      assert forall i | 0 <= i < |s| - 1 :: s[1..][i] == s[i + 1];
      ScanMaximal(s[1..]);
      NoAdjacentNumsCons(SymbolToken(s[0]), Scan(s[1..]));
    }
  }

  /** A non-empty run of digits is one number token. */
  lemma DigitsAreOneToken(d: string)
    requires d != [] && AllDigits(d)
    ensures Scan(d) == [Num(d)]
  {
    DigitRunAll(d);
    assert d[..|d|] == d;
  }

  lemma {:induction false} DigitRunAll(d: string)
    requires AllDigits(d)
    ensures DigitRun(d) == |d|
  {
    if d != [] {
      DigitRunAll(d[1..]);
    }
  }

  /**
   * The tokens are determined by their text: any sequence of well-formed
   * tokens without two numbers side by side is what tokenizing its own text
   * gives back.
   */
  lemma {:induction false} ScanUnique(ts: seq<Token>)
    requires forall i | 0 <= i < |ts| :: WellFormedToken(ts[i])
    requires NoAdjacentNums(ts)
    ensures Scan(Texts(ts)) == ts
  {
    if ts != [] {
      var t, rest := ts[0], ts[1..];
      assert ts == [t] + rest;
      assert forall i | 0 <= i < |rest| - 1 :: !NumPairAt(rest, i) by {
        forall i | 0 <= i < |rest| - 1
          ensures !NumPairAt(rest, i)
        {
          assert !NumPairAt(ts, i + 1);
        }
      }
      ScanUnique(rest);
      var x := Texts(rest);
      if rest != [] {
        assert !NumPairAt(ts, 0);
        assert WellFormedToken(rest[0]);
        assert x == TokenText(rest[0]) + Texts(rest[1..]);
      }
      match t
      case Num(d) =>
        assert WellFormedToken(t);
        DigitsAreOneToken(d);
        ScanAppend(d, x);
      case _ =>
        var c := TokenText(t)[0];
        assert Texts(ts) == [c] + x;
        ScanSymbolHead([c] + x);
        assert ([c] + x)[1..] == x;
    }
  }
}
