/** The value-building expression grammar: oak's `parse_expr`, `parse_term`,
    `parse_factor`, ... (src/main.rs:17, 38-63), with the semantic actions of
    src/main.rs:96-161 applied as each rule matches.

    Every rule maps an input and a cursor to `Success(tree, next)`, `Failure`
    (the cursor is then where it was) or `Panic` (the `unwrap` in `to_number`
    hit a literal that does not fit in `u32`; nothing recovers from that).
    Termination: every re-entry into `Expr` comes after at least one
    character has been consumed; calls at the same position go down the
    ranks Expr > TermTail > Term > FactorPairs > Factor > alternatives. */
module Parse {
  import opened Results
  import opened Ast
  import opened Lexer

  /** `integer = digit+ spacing > to_number`: the literal's value is that of
      its digits; the trailing whitespace is consumed but not read. */
  function Integer(input: string, pos: nat): (r: ParseResult<U32>)
    requires pos <= |input|
    ensures r.Failure? <==> !Peek(input, pos, IsDigit)
    ensures r.Success? ==> pos < r.pos <= |input|
  {
    var digitsEnd := Span(input, pos, IsDigit);
    if digitsEnd == pos then Failure
    else
      assert AllDigits(input[pos..digitsEnd]);
      match ToNumber(input[pos..digitsEnd])
      case None => Panic
      case Some(v) => Success(v, Spacing(input, digitsEnd))
  }

  /** A digit run `[pos, digitsEnd)` followed by a whitespace run
      `[digitsEnd, next)`, each as long as it can be, is an integer literal
      ending at `next`; its value is that of the digits alone, or the parse
      panics when that value does not fit in 32 bits. */
  lemma IntegerAt(input: string, pos: nat, digitsEnd: nat, next: nat)
    requires pos < digitsEnd <= next <= |input|
    requires forall i :: pos <= i < digitsEnd ==> IsDigit(input[i])
    requires digitsEnd == |input| || !IsDigit(input[digitsEnd])
    requires forall i :: digitsEnd <= i < next ==> IsSpace(input[i])
    requires next == |input| || !IsSpace(input[next])
    ensures AllDigits(input[pos..digitsEnd])
    ensures Integer(input, pos)
      == if DecimalValue(input[pos..digitsEnd]) <= U32_MAX
         then Success(DecimalValue(input[pos..digitsEnd]), next)
         else Panic
  {
    SpanIsUnique(input, pos, IsDigit, digitsEnd);
    SpanIsUnique(input, digitsEnd, IsSpace, next);
  }

  /** The same for a literal written as `digits` then `spaces` before text
      that continues neither. */
  lemma IntegerLiteral(pre: string, digits: string, spaces: string, rest: string)
    requires |digits| > 0 && AllDigits(digits) && AllSpaces(spaces)
    requires spaces == [] ==> rest == [] || !IsDigit(rest[0])
    requires rest == [] || !IsSpace(rest[0])
    ensures var input := pre + digits + spaces + rest;
      Integer(input, |pre|)
        == if DecimalValue(digits) <= U32_MAX
           then Success(DecimalValue(digits), |pre| + |digits| + |spaces|)
           else Panic
  {
    var input := pre + digits + spaces + rest;
    var e := |pre| + |digits|;
    var f := e + |spaces|;
    assert input == pre + digits + (spaces + rest);
    assert input[|pre|..e] == digits;
    RunInside(pre, digits, spaces + rest, IsDigit);
    RunInside(pre + digits, spaces, rest, IsSpace);
    assert e < |input| ==> input[e] == (spaces + rest)[0];
    assert f < |input| ==> input[f] == rest[0];
    IntegerAt(input, |pre|, e, f);
  }

  /** `term_op = add_op > add_bin_op / sub_op > sub_bin_op`. */
  function TermOp(input: string, pos: nat): (r: Option<(BinOp, nat)>)
    requires pos <= |input|
    ensures r.Some? <==> pos < |input| && (input[pos] == '+' || input[pos] == '-')
    ensures r.Some? ==>
      && r.value.0 == (if input[pos] == '+' then Add else Sub)
      && r.value.1 == Spacing(input, pos + 1)
  {
    match AddOp(input, pos)
    case Some(q) => Some((Add, q))
    case None =>
      match SubOp(input, pos)
      case Some(q) => Some((Sub, q))
      case None => None
  }

  /** `factor_op = mul_op > mul_bin_op / div_op > div_bin_op`. */
  function FactorOp(input: string, pos: nat): (r: Option<(BinOp, nat)>)
    requires pos <= |input|
    ensures r.Some? <==> pos < |input| && (input[pos] == '*' || input[pos] == '/')
    ensures r.Some? ==>
      && r.value.0 == (if input[pos] == '*' then Mul else Div)
      && r.value.1 == Spacing(input, pos + 1)
  {
    match MulOp(input, pos)
    case Some(q) => Some((Mul, q))
    case None =>
      match DivOp(input, pos)
      case Some(q) => Some((Div, q))
      case None => None
  }

  /** `expr = term (term_op term)* > fold_left`. */
  function Expr(input: string, pos: nat): (r: ParseResult<Expression>)
    requires pos <= |input|
    ensures r.Success? ==> pos < r.pos <= |input| && VariableFree(r.value)
    decreases |input| - pos, 5
  {
    var head := Term(input, pos);
    if !head.Success? then head
    else
      var tail := TermTail(input, head.pos);
      if !tail.Success? then tail.Propagate()
      else Success(FoldLeft(head.value, tail.value), tail.pos)
  }

  /** `(term_op term)*`: greedy; an iteration whose `term` fails is undone
      and ends the repetition, which therefore never fails. */
  function TermTail(input: string, pos: nat): (r: ParseResult<seq<(BinOp, Expression)>>)
    requires pos <= |input|
    ensures !r.Failure?
    ensures r.Success? ==> pos <= r.pos <= |input|
    ensures r.Success? ==> forall i :: 0 <= i < |r.value| ==> VariableFree(r.value[i].1)
    decreases |input| - pos, 4
  {
    match TermOp(input, pos)
    case None => Success([], pos)
    case Some((op, p1)) =>
      var t := Term(input, p1);
      if t.Failure? then Success([], pos)
      else if t.Panic? then Panic
      else
        var rest := TermTail(input, t.pos);
        if !rest.Success? then rest
        else Success([(op, t.value)] + rest.value, rest.pos)
  }

  /** `term = (factor factor_op)* factor > fold_right`. */
  function Term(input: string, pos: nat): (r: ParseResult<Expression>)
    requires pos <= |input|
    ensures r.Success? ==> pos < r.pos <= |input| && VariableFree(r.value)
    decreases |input| - pos, 3
  {
    var front := FactorPairs(input, pos);
    if !front.Success? then front.Propagate()
    else
      var last := Factor(input, front.pos);
      if !last.Success? then last
      else Success(FoldRight(front.value, last.value), last.pos)
  }

  /** `(factor factor_op)*`: greedy; an iteration whose `factor_op` fails is
      undone, so its factor is read again as the final factor of `term`. */
  function FactorPairs(input: string, pos: nat): (r: ParseResult<seq<(Expression, BinOp)>>)
    requires pos <= |input|
    ensures !r.Failure?
    ensures r.Success? ==> pos <= r.pos <= |input|
    ensures r.Success? ==> forall i :: 0 <= i < |r.value| ==> VariableFree(r.value[i].0)
    decreases |input| - pos, 2
  {
    var f := Factor(input, pos);
    if f.Panic? then Panic
    else if f.Failure? then Success([], pos)
    else
      match FactorOp(input, f.pos)
      case None => Success([], pos)
      case Some((op, p1)) =>
        var rest := FactorPairs(input, p1);
        if !rest.Success? then rest
        else Success([(f.value, op)] + rest.value, rest.pos)
  }

  /** `factor`: eleven alternatives tried in order; the first that does not
      fail decides, and a failed one leaves the cursor where it was. */
  function Factor(input: string, pos: nat): (r: ParseResult<Expression>)
    requires pos <= |input|
    ensures r.Success? ==> pos < r.pos <= |input| && VariableFree(r.value)
    decreases |input| - pos, 1
  {
    var assign := AssignAlt(input, pos);
    if !assign.Failure? then assign else
    var cond := IfAlt(input, pos);
    if !cond.Failure? then cond else
    var loop := WhileAlt(input, pos);
    if !loop.Failure? then loop else
    var inst := NewAlt(input, pos);
    if !inst.Failure? then inst else
    var isVoid := Operand(input, pos, "isvoid");
    if !isVoid.Failure? then isVoid.Map(e => IsVoid(e)) else
    var neg := Operand(input, pos, "~");
    if !neg.Failure? then neg.Map(e => Neg(e)) else
    var not := Operand(input, pos, "not");
    if !not.Failure? then not.Map(e => Not(e)) else
    var number := Integer(input, pos);
    if !number.Failure? then number.Map((n: U32) => Number(n)) else
    var yes := BooleanAlt(input, pos, "true", true);
    if !yes.Failure? then yes else
    var no := BooleanAlt(input, pos, "false", false);
    if !no.Failure? then no else
    ParenAlt(input, pos)
  }

  /** `ID "<-" expr > assign_expr`. */
  function AssignAlt(input: string, pos: nat): (r: ParseResult<Expression>)
    requires pos <= |input|
    ensures r.Success? ==> pos < r.pos <= |input| && VariableFree(r.value)
    decreases |input| - pos, 0
  {
    match Id(input, pos)
    case None => Failure
    case Some((name, p1)) =>
      match Lit(input, p1, "<-")
      case None => Failure
      case Some(p2) =>
        Expr(input, p2).Map(e => Assign(name, e))
  }

  /** `"if" expr "then" expr "else" expr "fi" > if_expr`. */
  function IfAlt(input: string, pos: nat): (r: ParseResult<Expression>)
    requires pos <= |input|
    ensures r.Success? ==> pos < r.pos <= |input| && VariableFree(r.value)
    decreases |input| - pos, 0
  {
    match Lit(input, pos, "if")
    case None => Failure
    case Some(p1) =>
      var c := Expr(input, p1);
      if !c.Success? then c else
      match Lit(input, c.pos, "then")
      case None => Failure
      case Some(p2) =>
        var t := Expr(input, p2);
        if !t.Success? then t else
        match Lit(input, t.pos, "else")
        case None => Failure
        case Some(p3) =>
          var f := Expr(input, p3);
          if !f.Success? then f else
          match Lit(input, f.pos, "fi")
          case None => Failure
          case Some(p4) => Success(If(c.value, t.value, f.value), p4)
  }

  /** `"while" expr "loop" expr "pool" > while_expr`. */
  function WhileAlt(input: string, pos: nat): (r: ParseResult<Expression>)
    requires pos <= |input|
    ensures r.Success? ==> pos < r.pos <= |input| && VariableFree(r.value)
    decreases |input| - pos, 0
  {
    match Lit(input, pos, "while")
    case None => Failure
    case Some(p1) =>
      var c := Expr(input, p1);
      if !c.Success? then c else
      match Lit(input, c.pos, "loop")
      case None => Failure
      case Some(p2) =>
        var b := Expr(input, p2);
        if !b.Success? then b else
        match Lit(input, b.pos, "pool")
        case None => Failure
        case Some(p3) => Success(While(c.value, b.value), p3)
  }

  /** A keyword followed directly by `expr`: the operand of `"isvoid" expr`,
      `"~" expr` and `"not" expr`. */
  function Operand(input: string, pos: nat, keyword: string): (r: ParseResult<Expression>)
    requires pos <= |input| && |keyword| > 0
    ensures r.Success? ==> pos < r.pos <= |input| && VariableFree(r.value)
    decreases |input| - pos, 0
  {
    match Lit(input, pos, keyword)
    case None => Failure
    case Some(p1) => Expr(input, p1)
  }

  /** `lparen expr rparen`: the inner tree itself, with no node of its own. */
  function ParenAlt(input: string, pos: nat): (r: ParseResult<Expression>)
    requires pos <= |input|
    ensures r.Success? ==> pos < r.pos <= |input| && VariableFree(r.value)
    decreases |input| - pos, 0
  {
    match LParen(input, pos)
    case None => Failure
    case Some(p1) =>
      var e := Expr(input, p1);
      if !e.Success? then e else
      match RParen(input, e.pos)
      case None => Failure
      case Some(p2) => Success(e.value, p2)
  }

  /** `"new" TYPE > new_expr`. */
  function NewAlt(input: string, pos: nat): (r: ParseResult<Expression>)
    requires pos <= |input|
    ensures !r.Panic?
    ensures r.Success? <==> Lit(input, pos, "new").Some? && Peek(input, pos + 3, IsCaps)
    ensures r.Success? ==> pos + 3 < r.pos <= |input| && r.value.New?
    ensures r.Success? ==> r.value.typeName == input[pos + 3..r.pos]
  {
    match Lit(input, pos, "new")
    case None => Failure
    case Some(p1) =>
      match TypeName(input, p1)
      case None => Failure
      case Some((name, p2)) => Success(New(name), p2)
  }

  /** `"true" > true_expr` and `"false" > false_expr`. */
  function BooleanAlt(input: string, pos: nat, keyword: string, truth: bool): (r: ParseResult<Expression>)
    requires pos <= |input| && |keyword| > 0
    ensures !r.Panic?
    ensures r.Success? <==> Lit(input, pos, keyword).Some?
    ensures r.Success? ==> r == Success(Boolean(truth), pos + |keyword|)
  {
    match Lit(input, pos, keyword)
    case None => Failure
    case Some(p1) => Success(Boolean(truth), p1)
  }
}
