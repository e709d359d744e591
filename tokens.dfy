/**
 * The vocabulary shared by the stages: the four binary operators with their
 * precedence table, the tokens the tokenizer produces, the character classes
 * the regular expressions of the source use, and the kinds of exception the
 * tokenizer, the converter and the tree builder throw.
 */
module Tokens {

  datatype Operator = Add | Sub | Mul | Div

  /** The precedence table: `+` and `-` bind with 1, `*` and `/` with 2. */
  function Prec(op: Operator): nat
  {
    match op
    case Add => 1
    case Sub => 1
    case Mul => 2
    case Div => 2
  }

  /**
   * A token is a maximal run of decimal digits or one of the six symbols.
   * `Num` tokens are the ones JavaScript's `isNaN` calls a number.
   */
  datatype Token = Num(digits: string) | Op(op: Operator) | LParen | RParen

  /** The kinds of exception thrown after validation. */
  datatype PipelineError =
    | NoTokens          // the tokenizing regular expression matched nothing
    | UnbalancedParens  // the converter met a `)` without `(` or a `(` left over
    | MissingOperands   // the builder met an operator with fewer than two nodes stacked
    | DanglingOperands  // the builder ended with other than exactly one node stacked

  /** `\d` of a JavaScript regular expression without the `u` flag. */
  predicate IsDigit(c: char)
  {
    '0' <= c <= '9'
  }

  // The four operator characters `+ - * /`.
  predicate IsOperatorChar(c: char)
  {
    c == '+' || c == '-' || c == '*' || c == '/'
  }

  // The six characters that are tokens on their own: the operators and both parentheses.
  predicate IsSymbolChar(c: char)
  {
    IsOperatorChar(c) || c == '(' || c == ')'
  }

  function OperatorChar(op: Operator): char
  {
    match op
    case Add => '+'
    case Sub => '-'
    case Mul => '*'
    case Div => '/'
  }

  function CharOperator(c: char): Operator
    requires IsOperatorChar(c)
  {
    if c == '+' then Add else if c == '-' then Sub else if c == '*' then Mul else Div
  }

  /** The token a symbol character stands for. */
  function SymbolToken(c: char): Token
    requires IsSymbolChar(c)
  {
    if c == '(' then LParen else if c == ')' then RParen else Op(CharOperator(c))
  }

  /** The text of the input that a token was matched from. */
  function TokenText(t: Token): string
  {
    match t
    case Num(d) => d
    case Op(op) => [OperatorChar(op)]
    case LParen => "("
    case RParen => ")"
  }

  predicate AllDigits(s: string)
  {
    forall i :: 0 <= i < |s| ==> IsDigit(s[i])
  }

  /** A token the tokenizer can produce: a number token holds a non-empty run of digits. */
  predicate WellFormedToken(t: Token)
  {
    t.Num? ==> t.digits != [] && AllDigits(t.digits)
  }

  predicate IsParen(t: Token)
  {
    t == LParen || t == RParen
  }
}
