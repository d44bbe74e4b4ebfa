/** oak's two functions per rule agree: wherever `parse_*` does not panic,
    it matches exactly where `recognize_*` matches, ending at the same
    position, and fails exactly where it fails. */
module Agreement {
  import opened Results
  import opened Lexer
  import Parse
  import Recognize

  /** A value-building outcome and a recognising one describe the same match. */
  predicate Agree<T>(p: ParseResult<T>, r: Option<nat>) {
    match p
    case Success(_, q) => r == Some(q)
    case Failure => r == None
    case Panic => true
  }

  /** Recognition never panics where it agrees with a parse that did not:
      the position builder and the tree builder match the same text. */
  lemma IntegerAgrees(input: string, pos: nat)
    requires pos <= |input|
    ensures Agree(Parse.Integer(input, pos), Recognize.Integer(input, pos))
  {
  }

  lemma {:induction false} ExprAgrees(input: string, pos: nat)
    requires pos <= |input|
    ensures Agree(Parse.Expr(input, pos), Recognize.Expr(input, pos))
    decreases |input| - pos, 5
  {
    TermAgrees(input, pos);
    var head := Parse.Term(input, pos);
    if head.Success? {
      TermTailAgrees(input, head.pos);
    }
  }

  lemma {:induction false} TermTailAgrees(input: string, pos: nat)
    requires pos <= |input|
    ensures Agree(Parse.TermTail(input, pos), Some(Recognize.TermTail(input, pos)))
    decreases |input| - pos, 4
  {
    match Parse.TermOp(input, pos)
    case None =>
    case Some((op, p1)) =>
      TermAgrees(input, p1);
      var t := Parse.Term(input, p1);
      if t.Success? {
        TermTailAgrees(input, t.pos);
      }
  }

  lemma {:induction false} TermAgrees(input: string, pos: nat)
    requires pos <= |input|
    ensures Agree(Parse.Term(input, pos), Recognize.Term(input, pos))
    decreases |input| - pos, 3
  {
    FactorPairsAgrees(input, pos);
    var front := Parse.FactorPairs(input, pos);
    if front.Success? {
      FactorAgrees(input, front.pos);
    }
  }

  lemma {:induction false} FactorPairsAgrees(input: string, pos: nat)
    requires pos <= |input|
    ensures Agree(Parse.FactorPairs(input, pos), Some(Recognize.FactorPairs(input, pos)))
    decreases |input| - pos, 2
  {
    FactorAgrees(input, pos);
    var f := Parse.Factor(input, pos);
    if f.Success? {
      match Parse.FactorOp(input, f.pos)
      case None =>
      case Some((op, p1)) =>
        FactorPairsAgrees(input, p1);
    }
  }

  lemma {:induction false} FactorAgrees(input: string, pos: nat)
    requires pos <= |input|
    ensures Agree(Parse.Factor(input, pos), Recognize.Factor(input, pos))
    decreases |input| - pos, 1
  {
    AssignAgrees(input, pos);
    IfAgrees(input, pos);
    WhileAgrees(input, pos);
    OperandAgrees(input, pos, "isvoid");
    OperandAgrees(input, pos, "~");
    OperandAgrees(input, pos, "not");
    IntegerAgrees(input, pos);
    ParenAgrees(input, pos);
  }

  lemma {:induction false} AssignAgrees(input: string, pos: nat)
    requires pos <= |input|
    ensures Agree(Parse.AssignAlt(input, pos), Recognize.AssignAlt(input, pos))
    decreases |input| - pos, 0
  {
    match Id(input, pos)
    case None =>
    case Some((name, p1)) =>
      match Lit(input, p1, "<-")
      case None =>
      case Some(p2) =>
        ExprAgrees(input, p2);
  }

  lemma {:induction false} IfAgrees(input: string, pos: nat)
    requires pos <= |input|
    ensures Agree(Parse.IfAlt(input, pos), Recognize.IfAlt(input, pos))
    decreases |input| - pos, 0
  {
    match Lit(input, pos, "if")
    case None =>
    case Some(p1) =>
      ExprAgrees(input, p1);
      var c := Parse.Expr(input, p1);
      if c.Success? {
        match Lit(input, c.pos, "then")
        case None =>
        case Some(p2) =>
          ExprAgrees(input, p2);
          var t := Parse.Expr(input, p2);
          if t.Success? {
            match Lit(input, t.pos, "else")
            case None =>
            case Some(p3) =>
              ExprAgrees(input, p3);
          }
      }
  }

  lemma {:induction false} WhileAgrees(input: string, pos: nat)
    requires pos <= |input|
    ensures Agree(Parse.WhileAlt(input, pos), Recognize.WhileAlt(input, pos))
    decreases |input| - pos, 0
  {
    match Lit(input, pos, "while")
    case None =>
    case Some(p1) =>
      ExprAgrees(input, p1);
      var c := Parse.Expr(input, p1);
      if c.Success? {
        match Lit(input, c.pos, "loop")
        case None =>
        case Some(p2) =>
          ExprAgrees(input, p2);
      }
  }

  lemma {:induction false} OperandAgrees(input: string, pos: nat, keyword: string)
    requires pos <= |input| && |keyword| > 0
    ensures Agree(Parse.Operand(input, pos, keyword), Recognize.Operand(input, pos, keyword))
    decreases |input| - pos, 0
  {
    match Lit(input, pos, keyword)
    case None =>
    case Some(p1) =>
      ExprAgrees(input, p1);
  }

  lemma {:induction false} ParenAgrees(input: string, pos: nat)
    requires pos <= |input|
    ensures Agree(Parse.ParenAlt(input, pos), Recognize.ParenAlt(input, pos))
    decreases |input| - pos, 0
  {
    match LParen(input, pos)
    case None =>
    case Some(p1) =>
      ExprAgrees(input, p1);
  }
}
