/** The recognising expression grammar: oak's `recognize_expr`,
    `recognize_term`, `recognize_factor`, ... for the rules of
    src/main.rs:17, 38-63. Recognition runs no semantic action, so it
    builds nothing and `to_number` never runs: a rule either matches, giving
    the position after its match, or fails. Same rules, same order, same
    termination ranks as module Parse. */
module Recognize {
  import opened Results
  import opened Lexer

  /** `integer = digit+ spacing`, without the conversion. */
  function Integer(input: string, pos: nat): (r: Option<nat>)
    requires pos <= |input|
    ensures r.Some? <==> Peek(input, pos, IsDigit)
    ensures r.Some? ==> r.value == Spacing(input, Span(input, pos, IsDigit)) && pos < r.value
  {
    var digitsEnd := Span(input, pos, IsDigit);
    if digitsEnd == pos then None else Some(Spacing(input, digitsEnd))
  }

  /** `term_op = add_op / sub_op`. */
  function TermOp(input: string, pos: nat): (r: Option<nat>)
    requires pos <= |input|
    ensures r.Some? <==> pos < |input| && (input[pos] == '+' || input[pos] == '-')
    ensures r.Some? ==> r.value == Spacing(input, pos + 1)
  {
    if AddOp(input, pos).Some? then AddOp(input, pos) else SubOp(input, pos)
  }

  /** `factor_op = mul_op / div_op`. */
  function FactorOp(input: string, pos: nat): (r: Option<nat>)
    requires pos <= |input|
    ensures r.Some? <==> pos < |input| && (input[pos] == '*' || input[pos] == '/')
    ensures r.Some? ==> r.value == Spacing(input, pos + 1)
  {
    if MulOp(input, pos).Some? then MulOp(input, pos) else DivOp(input, pos)
  }

  /** `expr = term (term_op term)*`. */
  function Expr(input: string, pos: nat): (r: Option<nat>)
    requires pos <= |input|
    ensures r.Some? ==> pos < r.value <= |input|
    decreases |input| - pos, 5
  {
    var p1 :- Term(input, pos);
    Some(TermTail(input, p1))
  }

  /** `(term_op term)*`, which never fails. */
  function TermTail(input: string, pos: nat): (r: nat)
    requires pos <= |input|
    ensures pos <= r <= |input|
    decreases |input| - pos, 4
  {
    match TermOp(input, pos)
    case None => pos
    case Some(p1) =>
      match Term(input, p1)
      case None => pos
      case Some(p2) => TermTail(input, p2)
  }

  /** `term = (factor factor_op)* factor`. */
  function Term(input: string, pos: nat): (r: Option<nat>)
    requires pos <= |input|
    ensures r.Some? ==> pos < r.value <= |input|
    decreases |input| - pos, 3
  {
    Factor(input, FactorPairs(input, pos))
  }

  /** `(factor factor_op)*`, which never fails. */
  function FactorPairs(input: string, pos: nat): (r: nat)
    requires pos <= |input|
    ensures pos <= r <= |input|
    decreases |input| - pos, 2
  {
    match Factor(input, pos)
    case None => pos
    case Some(p1) =>
      match FactorOp(input, p1)
      case None => pos
      case Some(p2) => FactorPairs(input, p2)
  }

  /** `factor`, its alternatives in order. */
  function Factor(input: string, pos: nat): (r: Option<nat>)
    requires pos <= |input|
    ensures r.Some? ==> pos < r.value <= |input|
    decreases |input| - pos, 1
  {
    var assign := AssignAlt(input, pos);
    if assign.Some? then assign else
    var cond := IfAlt(input, pos);
    if cond.Some? then cond else
    var loop := WhileAlt(input, pos);
    if loop.Some? then loop else
    var inst := NewAlt(input, pos);
    if inst.Some? then inst else
    var isVoid := Operand(input, pos, "isvoid");
    if isVoid.Some? then isVoid else
    var neg := Operand(input, pos, "~");
    if neg.Some? then neg else
    var not := Operand(input, pos, "not");
    if not.Some? then not else
    var number := Integer(input, pos);
    if number.Some? then number else
    var yes := Lit(input, pos, "true");
    if yes.Some? then yes else
    var no := Lit(input, pos, "false");
    if no.Some? then no else
    ParenAlt(input, pos)
  }

  /** `ID "<-" expr`. */
  function AssignAlt(input: string, pos: nat): (r: Option<nat>)
    requires pos <= |input|
    ensures r.Some? ==> pos < r.value <= |input|
    decreases |input| - pos, 0
  {
    var id :- Id(input, pos);
    var p1 :- Lit(input, id.1, "<-");
    Expr(input, p1)
  }

  /** `"if" expr "then" expr "else" expr "fi"`. */
  function IfAlt(input: string, pos: nat): (r: Option<nat>)
    requires pos <= |input|
    ensures r.Some? ==> pos < r.value <= |input|
    decreases |input| - pos, 0
  {
    var p1 :- Lit(input, pos, "if");
    var p2 :- Expr(input, p1);
    var p3 :- Lit(input, p2, "then");
    var p4 :- Expr(input, p3);
    var p5 :- Lit(input, p4, "else");
    var p6 :- Expr(input, p5);
    Lit(input, p6, "fi")
  }

  /** `"while" expr "loop" expr "pool"`. */
  function WhileAlt(input: string, pos: nat): (r: Option<nat>)
    requires pos <= |input|
    ensures r.Some? ==> pos < r.value <= |input|
    decreases |input| - pos, 0
  {
    var p1 :- Lit(input, pos, "while");
    var p2 :- Expr(input, p1);
    var p3 :- Lit(input, p2, "loop");
    var p4 :- Expr(input, p3);
    Lit(input, p4, "pool")
  }

  /** A keyword followed directly by `expr`. */
  function Operand(input: string, pos: nat, keyword: string): (r: Option<nat>)
    requires pos <= |input| && |keyword| > 0
    ensures r.Some? ==> pos < r.value <= |input|
    decreases |input| - pos, 0
  {
    var p1 :- Lit(input, pos, keyword);
    Expr(input, p1)
  }

  /** `lparen expr rparen`. */
  function ParenAlt(input: string, pos: nat): (r: Option<nat>)
    requires pos <= |input|
    ensures r.Some? ==> pos < r.value <= |input|
    decreases |input| - pos, 0
  {
    var p1 :- LParen(input, pos);
    var p2 :- Expr(input, p1);
    RParen(input, p2)
  }

  /** `"new" TYPE`. */
  function NewAlt(input: string, pos: nat): (r: Option<nat>)
    requires pos <= |input|
    ensures r.Some? <==> Lit(input, pos, "new").Some? && Peek(input, pos + 3, IsCaps)
    ensures r.Some? ==> pos + 3 < r.value <= |input|
  {
    var p1 :- Lit(input, pos, "new");
    var ty :- TypeName(input, p1);
    Some(ty.1)
  }
}
