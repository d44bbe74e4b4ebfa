/** The grammar on particular inputs: the inputs of the tests in
    src/main.rs:164-204 and inputs that pin down grouping, the treatment of
    whitespace after keywords, and the overflow of `to_number`. */
module Examples {
  import opened Results
  import opened Ast
  import opened Lexer
  import Parse
  import Recognize
  import Agreement
  import opened Properties
  import Structure

  /** The value of a one-digit literal is that digit's. */
  lemma OneDigit(c: char)
    requires IsDigit(c)
    ensures AllDigits([c]) && DecimalValue([c]) == DigitValue(c)
  {
    assert [c][..0] == [];
  }

  // Composition steps: each rule's outcome from those of its parts, so that
  // the examples below never unfold more than one rule at a time.

  lemma OpAt(input: string, pos: nat, next: nat)
    requires pos < next <= |input|
    requires forall i :: pos < i < next ==> IsSpace(input[i])
    requires next == |input| || !IsSpace(input[next])
    ensures Spacing(input, pos + 1) == next
  {
    SpanIsUnique(input, pos + 1, IsSpace, next);
  }

  lemma DigitFactor(input: string, pos: nat, next: nat)
    requires pos < next <= |input| && IsDigit(input[pos])
    requires pos + 1 == |input| || !IsDigit(input[pos + 1])
    requires forall i :: pos < i < next ==> IsSpace(input[i])
    requires next == |input| || !IsSpace(input[next])
    ensures Parse.Factor(input, pos) == Success(Number(DigitValue(input[pos])), next)
    ensures next == |input| || (input[next] != '*' && input[next] != '/') ==>
      Parse.Term(input, pos) == Success(Number(DigitValue(input[pos])), next)
  {
    OneDigit(input[pos]);
    assert input[pos..pos + 1] == [input[pos]];
    NumberFactor(input, pos, pos + 1, next);
    if next == |input| || (input[next] != '*' && input[next] != '/') {
      NumberTerm(input, pos, pos + 1, next);
    }
  }

  lemma DigitSpaceTerm(input: string, pos: nat)
    requires pos + 2 < |input| && IsDigit(input[pos]) && input[pos + 1] == ' '
    requires input[pos + 2] in "+-"
    ensures Parse.Term(input, pos) == Success(Number(DigitValue(input[pos])), pos + 2)
  {
    DigitFactor(input, pos, pos + 2);
  }

  lemma DigitSpaceFactor(input: string, pos: nat)
    requires pos + 2 < |input| && IsDigit(input[pos]) && input[pos + 1] == ' '
    requires !IsSpace(input[pos + 2])
    ensures Parse.Factor(input, pos) == Success(Number(DigitValue(input[pos])), pos + 2)
  {
    DigitFactor(input, pos, pos + 2);
  }

  lemma DigitLast(input: string, pos: nat)
    requires pos + 1 == |input| && IsDigit(input[pos])
    ensures Parse.Factor(input, pos) == Success(Number(DigitValue(input[pos])), pos + 1)
    ensures Parse.Term(input, pos) == Success(Number(DigitValue(input[pos])), pos + 1)
  {
    DigitFactor(input, pos, pos + 1);
  }

  lemma IdAt(input: string, pos: nat, next: nat)
    requires pos < next <= |input| && (IsLower(input[pos]) || input[pos] == '_')
    requires forall i :: pos <= i < next ==> IsIdChar(input[i])
    requires next == |input| || !IsIdChar(input[next])
    ensures Id(input, pos) == Some((input[pos..next], next))
  {
    SpanIsUnique(input, pos, IsIdChar, next);
  }

  lemma ExprOf(input: string, pos: nat, t: Expression, q: nat, rest: seq<(BinOp, Expression)>, e: nat)
    requires pos <= |input|
    requires Parse.Term(input, pos) == Success(t, q)
    requires Parse.TermTail(input, q) == Success(rest, e)
    ensures Parse.Expr(input, pos) == Success(FoldLeft(t, rest), e)
  {
  }

  lemma TailCons(input: string, pos: nat, op: BinOp, p1: nat, t: Expression, q: nat,
                 rest: seq<(BinOp, Expression)>, e: nat)
    requires pos <= |input|
    requires Parse.TermOp(input, pos) == Some((op, p1))
    requires Parse.Term(input, p1) == Success(t, q)
    requires Parse.TermTail(input, q) == Success(rest, e)
    ensures Parse.TermTail(input, pos) == Success([(op, t)] + rest, e)
  {
  }

  lemma TailEnd(input: string, pos: nat)
    requires pos <= |input|
    requires pos == |input| || (input[pos] != '+' && input[pos] != '-')
    ensures Parse.TermTail(input, pos) == Success([], pos)
  {
  }

  lemma TermOf(input: string, pos: nat, front: seq<(Expression, BinOp)>, q: nat, last: Expression, e: nat)
    requires pos <= |input|
    requires Parse.FactorPairs(input, pos) == Success(front, q)
    requires Parse.Factor(input, q) == Success(last, e)
    ensures Parse.Term(input, pos) == Success(FoldRight(front, last), e)
  {
  }

  lemma PairsCons(input: string, pos: nat, f: Expression, q: nat, op: BinOp, p1: nat,
                  rest: seq<(Expression, BinOp)>, e: nat)
    requires pos <= |input|
    requires Parse.Factor(input, pos) == Success(f, q)
    requires Parse.FactorOp(input, q) == Some((op, p1))
    requires Parse.FactorPairs(input, p1) == Success(rest, e)
    ensures Parse.FactorPairs(input, pos) == Success([(f, op)] + rest, e)
  {
  }

  lemma PairsEnd(input: string, pos: nat, f: Expression, q: nat)
    requires pos <= |input|
    requires Parse.Factor(input, pos) == Success(f, q)
    requires q == |input| || (input[q] != '*' && input[q] != '/')
    ensures Parse.FactorPairs(input, pos) == Success([], pos)
  {
  }

  // The largest `u32` and the first number past it.

  lemma Renderings()
    ensures DecimalDigits(4294967295) == "4294967295"
    ensures DecimalDigits(4294967296) == "4294967296"
  {
    assert DecimalDigits(4) == "4";
    assert DecimalDigits(42) == "42";
    assert DecimalDigits(429) == "429";
    assert DecimalDigits(4294) == "4294";
    assert DecimalDigits(42949) == "42949";
    assert DecimalDigits(429496) == "429496";
    assert DecimalDigits(4294967) == "4294967";
    assert DecimalDigits(42949672) == "42949672";
    assert DecimalDigits(429496729) == "429496729";
  }

  /** The largest `u32` is read back as itself. */
  lemma LargestLiteral(input: string)
    requires input == "4294967295"
    ensures Parse.Expr(input, 0) == Success(Number(4294967295), 10)
    ensures Recognize.Expr(input, 0) == Some(10)
  {
    assert forall i :: 0 <= i < 10 ==> IsDigit(input[i]);
    assert DecimalValue(input[0..10]) == 4294967295 by {
      assert input[0..10] == DecimalDigits(4294967295) by { Renderings(); }
      DecimalRoundTrip(4294967295);
    }
    NumberExpr(input, 0, 10, 10);
  }

  /** One more, and building the value panics, while recognition, which
      runs no action, accepts the literal. */
  lemma OverflowPanics(input: string)
    requires input == "4294967296"
    ensures Parse.Expr(input, 0) == Panic
    ensures Recognize.Expr(input, 0) == Some(10)
  {
    assert forall i :: 0 <= i < 10 ==> IsDigit(input[i]);
    assert DecimalValue(input[0..10]) == 4294967296 by {
      assert input[0..10] == DecimalDigits(4294967296) by { Renderings(); }
      DecimalRoundTrip(4294967296);
    }
    NumberExpr(input, 0, 10, 10);
  }

  // Sums of two digits, with and without parentheses; the test input `1 + 1`.

  lemma DigitSumParts(input: string, a: char, b: char)
    requires IsDigit(a) && IsDigit(b) && input == [a, ' ', '+', ' ', b]
    ensures Parse.Term(input, 0) == Success(Number(DigitValue(a)), 2)
    ensures Parse.TermOp(input, 2) == Some((Add, 4))
    ensures Parse.Term(input, 4) == Success(Number(DigitValue(b)), 5)
  {
    assert Parse.Term(input, 0) == Success(Number(DigitValue(a)), 2) by { DigitFactor(input, 0, 2); }
    assert Parse.TermOp(input, 2) == Some((Add, 4)) by { OpAt(input, 2, 4); }
    assert Parse.Term(input, 4) == Success(Number(DigitValue(b)), 5) by { DigitFactor(input, 4, 5); }
  }

  /** `a + b` for two digits is one sum over the whole input. */
  lemma DigitSum(input: string, a: char, b: char)
    requires IsDigit(a) && IsDigit(b) && input == [a, ' ', '+', ' ', b]
    ensures Parse.Expr(input, 0) == Success(BinaryExpr(Add, Number(DigitValue(a)), Number(DigitValue(b))), 5)
  {
    var x, y := Number(DigitValue(a)), Number(DigitValue(b));
    DigitSumParts(input, a, b);
    TailEnd(input, 5);
    TailCons(input, 2, Add, 4, y, 5, [], 5);
    ExprOf(input, 0, x, 2, [(Add, y)] + [], 5);
    FoldLeftSnoc(x, [], Add, y);
    assert [] + [(Add, y)] == [(Add, y)] + [];
  }

  lemma ParenSumParts(input: string, a: char, b: char)
    requires IsDigit(a) && IsDigit(b) && input == ['(', a, ' ', '+', ' ', b, ')']
    ensures Parse.Term(input, 1) == Success(Number(DigitValue(a)), 3)
    ensures Parse.TermOp(input, 3) == Some((Add, 5))
    ensures Parse.Term(input, 5) == Success(Number(DigitValue(b)), 6)
    ensures Spacing(input, 1) == 1
  {
    assert Parse.Term(input, 1) == Success(Number(DigitValue(a)), 3) by { DigitFactor(input, 1, 3); }
    assert Parse.TermOp(input, 3) == Some((Add, 5)) by { OpAt(input, 3, 5); }
    assert Parse.Term(input, 5) == Success(Number(DigitValue(b)), 6) by { DigitFactor(input, 5, 6); }
    OpAt(input, 0, 1);
  }

  lemma ParenSumInner(input: string, a: char, b: char)
    requires IsDigit(a) && IsDigit(b) && input == ['(', a, ' ', '+', ' ', b, ')']
    ensures Parse.Expr(input, 1) == Success(BinaryExpr(Add, Number(DigitValue(a)), Number(DigitValue(b))), 6)
  {
    var x, y := Number(DigitValue(a)), Number(DigitValue(b));
    ParenSumParts(input, a, b);
    TailEnd(input, 6);
    TailCons(input, 3, Add, 5, y, 6, [], 6);
    ExprOf(input, 1, x, 3, [(Add, y)] + [], 6);
    FoldLeftSnoc(x, [], Add, y);
    assert [] + [(Add, y)] == [(Add, y)] + [];
  }

  /** `(a + b)` for two digits: the sum itself, over the whole input. */
  lemma ParenDigitSum(input: string, a: char, b: char)
    requires IsDigit(a) && IsDigit(b) && input == ['(', a, ' ', '+', ' ', b, ')']
    ensures Parse.Expr(input, 0) == Success(BinaryExpr(Add, Number(DigitValue(a)), Number(DigitValue(b))), 7)
  {
    var sum := BinaryExpr(Add, Number(DigitValue(a)), Number(DigitValue(b)));
    ParenSumParts(input, a, b);
    ParenSumInner(input, a, b);
    ParenIsTransparent(input, 0);
    assert Parse.Factor(input, 0) == Success(sum, 7);
    SingleFactorExpr(input, 0);
  }

  /** Parentheses add no node: `(a + b)` and `a + b` give the same tree. */
  lemma ParenthesesAddNoNode(a: char, b: char)
    requires IsDigit(a) && IsDigit(b)
    ensures Parse.Expr(['(', a, ' ', '+', ' ', b, ')'], 0).Success?
    ensures Parse.Expr([a, ' ', '+', ' ', b], 0).Success?
    ensures Parse.Expr(['(', a, ' ', '+', ' ', b, ')'], 0).value == Parse.Expr([a, ' ', '+', ' ', b], 0).value
  {
    ParenDigitSum(['(', a, ' ', '+', ' ', b, ')'], a, b);
    DigitSum([a, ' ', '+', ' ', b], a, b);
  }

  /** The test input `1 + 1` is recognised in full, as the sum of two ones. */
  lemma SimpleSum(input: string)
    requires input == "1 + 1"
    ensures Parse.Expr(input, 0) == Success(BinaryExpr(Add, Number(1), Number(1)), 5)
    ensures Recognize.Expr(input, 0) == Some(5)
  {
    DigitSum(input, '1', '1');
    Agreement.ExprAgrees(input, 0);
  }

  // Grouping of `-` and of `/`.

  lemma SubtractionTerms(input: string)
    requires input == "1 - 2 - 3"
    ensures Parse.Term(input, 0) == Success(Number(1), 2)
    ensures Parse.Term(input, 4) == Success(Number(2), 6)
    ensures Parse.Term(input, 8) == Success(Number(3), 9)
  {
    assert input[0] == '1' && input[1] == ' ' && input[2] == '-';
    assert input[4] == '2' && input[5] == ' ' && input[6] == '-';
    assert input[8] == '3' && |input| == 9;
    DigitSpaceTerm(input, 0);
    DigitSpaceTerm(input, 4);
    DigitLast(input, 8);
  }

  lemma SubtractionOps(input: string)
    requires input == "1 - 2 - 3"
    ensures Parse.TermOp(input, 2) == Some((Sub, 4))
    ensures Parse.TermOp(input, 6) == Some((Sub, 8))
  {
    OpAt(input, 2, 4);
    OpAt(input, 6, 8);
  }

  lemma SubtractionInnerTail(input: string)
    requires input == "1 - 2 - 3"
    ensures Parse.TermTail(input, 6) == Success([(Sub, Number(3))] + [], 9)
  {
    SubtractionTerms(input);
    SubtractionOps(input);
    TailEnd(input, 9);
    TailCons(input, 6, Sub, 8, Number(3), 9, [], 9);
  }

  lemma SubtractionTail(input: string)
    requires input == "1 - 2 - 3"
    ensures Parse.TermTail(input, 2) == Success([(Sub, Number(2))] + ([(Sub, Number(3))] + []), 9)
  {
    SubtractionInnerTail(input);
    SubtractionTerms(input);
    SubtractionOps(input);
    TailCons(input, 2, Sub, 4, Number(2), 6, [(Sub, Number(3))] + [], 9);
  }

  /** `-` groups to the left: `1 - 2 - 3` is `(1 - 2) - 3`. */
  lemma SubtractionGroupsLeft(input: string)
    requires input == "1 - 2 - 3"
    ensures Parse.Expr(input, 0)
      == Success(BinaryExpr(Sub, BinaryExpr(Sub, Number(1), Number(2)), Number(3)), 9)
  {
    SubtractionTerms(input);
    SubtractionTail(input);
    ExprOf(input, 0, Number(1), 2, [(Sub, Number(2))] + ([(Sub, Number(3))] + []), 9);
    FoldLeftSnoc(Number(1), [(Sub, Number(2))], Sub, Number(3));
    FoldLeftSnoc(Number(1), [], Sub, Number(2));
    assert [(Sub, Number(2))] + ([(Sub, Number(3))] + []) == [(Sub, Number(2))] + [(Sub, Number(3))];
    assert [] + [(Sub, Number(2))] == [(Sub, Number(2))];
  }

  lemma DivisionFactors(input: string)
    requires input == "8 / 4 / 2"
    ensures Parse.Factor(input, 0) == Success(Number(8), 2)
    ensures Parse.Factor(input, 4) == Success(Number(4), 6)
    ensures Parse.Factor(input, 8) == Success(Number(2), 9)
  {
    assert input[0] == '8' && input[1] == ' ' && input[2] == '/';
    assert input[4] == '4' && input[5] == ' ' && input[6] == '/';
    assert input[8] == '2' && |input| == 9;
    DigitSpaceFactor(input, 0);
    DigitSpaceFactor(input, 4);
    DigitLast(input, 8);
  }

  lemma DivisionOps(input: string)
    requires input == "8 / 4 / 2"
    ensures Parse.FactorOp(input, 2) == Some((Div, 4))
    ensures Parse.FactorOp(input, 6) == Some((Div, 8))
  {
    OpAt(input, 2, 4);
    OpAt(input, 6, 8);
  }

  lemma DivisionInnerPairs(input: string)
    requires input == "8 / 4 / 2"
    ensures Parse.FactorPairs(input, 4) == Success([(Number(4), Div)] + [], 8)
  {
    DivisionFactors(input);
    DivisionOps(input);
    PairsEnd(input, 8, Number(2), 9);
    PairsCons(input, 4, Number(4), 6, Div, 8, [], 8);
  }

  lemma DivisionPairs(input: string)
    requires input == "8 / 4 / 2"
    ensures Parse.FactorPairs(input, 0) == Success([(Number(8), Div)] + ([(Number(4), Div)] + []), 8)
  {
    DivisionInnerPairs(input);
    DivisionFactors(input);
    DivisionOps(input);
    PairsCons(input, 0, Number(8), 2, Div, 4, [(Number(4), Div)] + [], 8);
  }

  /** `/` groups to the right, because `fold_right` walks the reversed
      pairs: `8 / 4 / 2` is `8 / (4 / 2)`. */
  lemma DivisionGroupsRight(input: string)
    requires input == "8 / 4 / 2"
    ensures Parse.Expr(input, 0)
      == Success(BinaryExpr(Div, Number(8), BinaryExpr(Div, Number(4), Number(2))), 9)
  {
    var quotient := BinaryExpr(Div, Number(8), BinaryExpr(Div, Number(4), Number(2)));
    DivisionFactors(input);
    DivisionPairs(input);
    TermOf(input, 0, [(Number(8), Div)] + ([(Number(4), Div)] + []), 8, Number(2), 9);
    FoldRightCons(Number(8), Div, [(Number(4), Div)] + [], Number(2));
    FoldRightCons(Number(4), Div, [], Number(2));
    TailEnd(input, 9);
    ExprOf(input, 0, quotient, 9, [], 9);
  }

  // The test input `1 + (2 * 3 + 4)`.

  lemma NestedOne(input: string)
    requires input == "1 + (2 * 3 + 4)"
    ensures Parse.Term(input, 0) == Success(Number(1), 2)
  {
    DigitFactor(input, 0, 2);
  }

  lemma NestedTwo(input: string)
    requires input == "1 + (2 * 3 + 4)"
    ensures Parse.Factor(input, 5) == Success(Number(2), 7)
  {
    DigitFactor(input, 5, 7);
  }

  lemma NestedThree(input: string)
    requires input == "1 + (2 * 3 + 4)"
    ensures Parse.Factor(input, 9) == Success(Number(3), 11)
  {
    DigitFactor(input, 9, 11);
  }

  lemma NestedFour(input: string)
    requires input == "1 + (2 * 3 + 4)"
    ensures Parse.Term(input, 13) == Success(Number(4), 14)
  {
    DigitFactor(input, 13, 14);
  }

  lemma NestedTermOps(input: string)
    requires input == "1 + (2 * 3 + 4)"
    ensures Parse.TermOp(input, 2) == Some((Add, 4))
    ensures Parse.TermOp(input, 11) == Some((Add, 13))
  {
    OpAt(input, 2, 4);
    OpAt(input, 11, 13);
  }

  lemma NestedFactorOps(input: string)
    requires input == "1 + (2 * 3 + 4)"
    ensures Spacing(input, 5) == 5
    ensures Parse.FactorOp(input, 7) == Some((Mul, 9))
  {
    OpAt(input, 4, 5);
    OpAt(input, 7, 9);
  }

  lemma NestedOps(input: string)
    requires input == "1 + (2 * 3 + 4)"
    ensures Parse.TermOp(input, 2) == Some((Add, 4))
    ensures Spacing(input, 5) == 5
    ensures Parse.FactorOp(input, 7) == Some((Mul, 9))
    ensures Parse.TermOp(input, 11) == Some((Add, 13))
  {
    NestedTermOps(input);
    NestedFactorOps(input);
  }

  lemma NestedProduct(input: string)
    requires input == "1 + (2 * 3 + 4)"
    ensures Parse.Term(input, 5) == Success(BinaryExpr(Mul, Number(2), Number(3)), 11)
  {
    NestedTwo(input);
    NestedThree(input);
    NestedOps(input);
    PairsEnd(input, 9, Number(3), 11);
    PairsCons(input, 5, Number(2), 7, Mul, 9, [], 9);
    TermOf(input, 5, [(Number(2), Mul)] + [], 9, Number(3), 11);
    FoldRightCons(Number(2), Mul, [], Number(3));
  }

  lemma NestedInner(input: string)
    requires input == "1 + (2 * 3 + 4)"
    ensures Parse.Expr(input, 5)
      == Success(BinaryExpr(Add, BinaryExpr(Mul, Number(2), Number(3)), Number(4)), 14)
  {
    var product := BinaryExpr(Mul, Number(2), Number(3));
    NestedProduct(input);
    NestedFour(input);
    NestedOps(input);
    TailEnd(input, 14);
    TailCons(input, 11, Add, 13, Number(4), 14, [], 14);
    ExprOf(input, 5, product, 11, [(Add, Number(4))] + [], 14);
    FoldLeftSnoc(product, [], Add, Number(4));
    assert [] + [(Add, Number(4))] == [(Add, Number(4))] + [];
  }

  lemma NestedFactor(input: string)
    requires input == "1 + (2 * 3 + 4)"
    ensures Parse.Term(input, 4)
      == Success(BinaryExpr(Add, BinaryExpr(Mul, Number(2), Number(3)), Number(4)), 15)
  {
    var inner := BinaryExpr(Add, BinaryExpr(Mul, Number(2), Number(3)), Number(4));
    NestedInner(input);
    NestedOps(input);
    ParenIsTransparent(input, 4);
    assert Parse.Factor(input, 4) == Success(inner, 15);
    PairsEnd(input, 4, inner, 15);
    TermOf(input, 4, [], 4, inner, 15);
  }

  /** `1 + (2 * 3 + 4)` is recognised in full; the parenthesised sum is
      the right operand of the outer `+`, with `*` binding tighter than
      `+` inside it. */
  lemma NestedSum(input: string)
    requires input == "1 + (2 * 3 + 4)"
    ensures Parse.Expr(input, 0) == Success(
      BinaryExpr(Add, Number(1), BinaryExpr(Add, BinaryExpr(Mul, Number(2), Number(3)), Number(4))), 15)
    ensures Recognize.Expr(input, 0) == Some(15)
  {
    var inner := BinaryExpr(Add, BinaryExpr(Mul, Number(2), Number(3)), Number(4));
    NestedFactor(input);
    NestedOne(input);
    NestedOps(input);
    TailEnd(input, 15);
    TailCons(input, 2, Add, 4, inner, 15, [], 15);
    ExprOf(input, 0, Number(1), 2, [(Add, inner)] + [], 15);
    FoldLeftSnoc(Number(1), [], Add, inner);
    assert [] + [(Add, inner)] == [(Add, inner)] + [];
    Agreement.ExprAgrees(input, 0);
  }

  // Keywords and `<-` skip no whitespace.

  lemma IfAfterSpaceFactor(input: string)
    requires input == "1 + if true then 1 else 0 fi"
    ensures Parse.Factor(input, 4).Failure?
  {
    assert input[4] == 'i' && input[5] == 'f' && input[6] == ' ';
    IfBeforeSpaceFails(input, 4);
  }

  lemma IfAfterSpaceFails(input: string)
    requires input == "1 + if true then 1 else 0 fi"
    ensures Parse.Term(input, 4).Failure?
  {
    IfAfterSpaceFactor(input);
    assert Parse.FactorPairs(input, 4) == Success([], 4);
  }

  lemma IfAfterPlusHead(input: string)
    requires input == "1 + if true then 1 else 0 fi"
    ensures Parse.Term(input, 0) == Success(Number(1), 2)
  {
    assert input[0] == '1' && input[1] == ' ' && input[2] == '+';
    DigitSpaceTerm(input, 0);
  }

  lemma IfAfterPlusOp(input: string)
    requires input == "1 + if true then 1 else 0 fi"
    ensures Parse.TermOp(input, 2) == Some((Add, 4))
  {
    OpAt(input, 2, 4);
  }

  /** The test input `1 + if true then 1 else 0 fi` matches only its prefix
      `1 `: `"if"` is followed by a space, so no expression starts after
      it, the `if` alternative fails, and the repetition `(term_op term)*`
      undoes the `+`. */
  lemma IfAfterPlus(input: string)
    requires input == "1 + if true then 1 else 0 fi"
    ensures Parse.Expr(input, 0) == Success(Number(1), 2)
    ensures Recognize.Expr(input, 0) == Some(2)
  {
    IfAfterPlusHead(input);
    IfAfterPlusOp(input);
    IfAfterSpaceFails(input);
    assert Parse.TermTail(input, 2) == Success([], 2);
    ExprOf(input, 0, Number(1), 2, [], 2);
    Agreement.ExprAgrees(input, 0);
  }

  /** The test input `val <- not if true then 1 else 0 fi` is not an
      expression at all: the identifier is followed by a space, not by
      `<-`, and no other alternative starts with `v`. */
  lemma AssignWithSpacesFails(input: string)
    requires input == "val <- not if true then 1 else 0 fi"
    ensures Parse.Expr(input, 0).Failure?
    ensures Recognize.Expr(input, 0).None?
  {
    IdAt(input, 0, 3);
    BareIdentifierFails(input, 0);
  }

  lemma TrueInParens(input: string)
    requires input == "val<-not(true)"
    ensures Parse.Expr(input, 9) == Success(Boolean(true), 13)
  {
    IdAt(input, 9, 13);
    assert input[9..13] == "true";
    KeywordAfterFailedAssign(input, 9);
    SingleFactorExpr(input, 9);
  }

  lemma ParenTrue(input: string)
    requires input == "val<-not(true)"
    ensures Parse.Factor(input, 8) == Success(Boolean(true), 14)
  {
    TrueInParens(input);
    OpAt(input, 8, 9);
    ParenIsTransparent(input, 8);
  }

  lemma NotFactor(input: string)
    requires input == "val<-not(true)"
    ensures Parse.Factor(input, 5) == Success(Not(Boolean(true)), 14)
  {
    assert Parse.Expr(input, 8) == Success(Boolean(true), 14) by {
      ParenTrue(input);
      SingleFactorExpr(input, 8);
    }
    IdAt(input, 5, 8);
    assert input[5..8] == "not";
    KeywordAfterFailedAssign(input, 5);
  }

  lemma AssignFactor(input: string)
    requires input == "val<-not(true)"
    ensures Parse.Factor(input, 0) == Success(Assign("val", Not(Boolean(true))), 14)
  {
    assert Parse.Expr(input, 5) == Success(Not(Boolean(true)), 14) by {
      NotFactor(input);
      SingleFactorExpr(input, 5);
    }
    IdAt(input, 0, 3);
    assert input[0..3] == "val" && input[3..5] == "<-";
    assert Parse.AssignAlt(input, 0) == Success(Assign("val", Not(Boolean(true))), 14);
  }

  /** Written with no space after `<-` and the keyword, an assignment of
      a negation parses in full. */
  lemma AssignWithoutSpaces(input: string)
    requires input == "val<-not(true)"
    ensures Parse.Expr(input, 0) == Success(Assign("val", Not(Boolean(true))), 14)
    ensures Recognize.Expr(input, 0) == Some(14)
  {
    AssignFactor(input);
    SingleFactorExpr(input, 0);
    Agreement.ExprAgrees(input, 0);
  }

  /** `true` is the boolean: the identifier `true` matches first, but `<-`
      does not follow, so the cursor goes back and `"true"` decides. */
  lemma TrueIsBoolean(input: string)
    requires input == "true"
    ensures Parse.Expr(input, 0) == Success(Boolean(true), 4)
    ensures Recognize.Expr(input, 0) == Some(4)
  {
    IdAt(input, 0, 4);
    assert input[0..4] == "true";
    KeywordAfterFailedAssign(input, 0);
    SingleFactorExpr(input, 0);
    Agreement.ExprAgrees(input, 0);
  }

  /** A lone identifier is not an expression. */
  lemma LoneIdentifierFails(input: string)
    requires input == "b"
    ensures Parse.Expr(input, 0).Failure?
    ensures Recognize.Expr(input, 0).None?
  {
    IdAt(input, 0, 1);
    BareIdentifierFails(input, 0);
  }

  // Classes and programs.

  /** What the rules of `class` before the optional `inherits` clause find
      in `class N` followed by whitespace. */
  lemma ClassHead(name: string, tail: string)
    requires |name| > 0 && IsCaps(name[0]) && forall i :: 0 <= i < |name| ==> IsIdChar(name[i])
    requires |tail| > 0 && tail[0] == ' '
    ensures var input := "class " + name + tail;
      && Lit(input, 0, "class") == Some(5)
      && Spacing(input, 5) == 6
      && TypeName(input, 6) == Some((name, 6 + |name|))
  {
    var input := "class " + name + tail;
    TokenClass("class ", name, tail);
    assert input[..5] == "class";
    assert input[5] == ' ' && input[6] == name[0];
    SpanIsUnique(input, 5, IsSpace, 6);
  }

  /** No feature starts at a character that cannot start an identifier. */
  lemma NoFeatureAt(input: string, pos: nat)
    requires pos < |input| && !IsLower(input[pos]) && input[pos] != '_'
    ensures Structure.Features(input, pos) == pos
  {
    assert Id(input, pos).None?;
    assert Structure.FeatureItem(input, pos).None?;
  }

  /** ` {}` is a class body with no features. */
  lemma EmptyBody(input: string, pos: nat)
    requires pos + 2 < |input| && input[pos] == ' ' && input[pos + 1] == '{' && input[pos + 2] == '}'
    ensures Structure.ClassBody(input, pos) == Some(pos + 3)
  {
    SpanIsUnique(input, pos, IsSpace, pos + 1);
    assert input[pos + 1..pos + 2] == "{" && input[pos + 2..pos + 3] == "}";
    SpanIsUnique(input, pos + 2, IsSpace, pos + 2);
    NoFeatureAt(input, pos + 2);
  }

  lemma EmptyClassParts(input: string, name: string, rest: string)
    requires |name| > 0 && IsCaps(name[0]) && forall i :: 0 <= i < |name| ==> IsIdChar(name[i])
    requires input == "class " + name + " {}" + rest
    ensures Lit(input, 0, "class") == Some(5) && Spacing(input, 5) == 6
    ensures TypeName(input, 6) == Some((name, 6 + |name|))
    ensures Structure.Inherits(input, 6 + |name|).None?
    ensures Structure.ClassBody(input, 6 + |name|) == Some(9 + |name|)
  {
    var n := |name|;
    assert input == "class " + name + (" {}" + rest);
    ClassHead(name, " {}" + rest);
    assert input[6 + n] == ' ' && input[7 + n] == '{' && input[8 + n] == '}';
    SpanIsUnique(input, 6 + n, IsSpace, 7 + n);
    EmptyBody(input, 6 + n);
  }

  /** `class N {}` is a class for every type name `N`; whatever follows is
      not read. */
  lemma EmptyClass(input: string, name: string, rest: string)
    requires |name| > 0 && IsCaps(name[0]) && forall i :: 0 <= i < |name| ==> IsIdChar(name[i])
    requires input == "class " + name + " {}" + rest
    ensures Structure.Class(input, 0) == Some(9 + |name|)
  {
    EmptyClassParts(input, name, rest);
  }

  /** The steps of `inherits`, one rule at a time, give the whole clause. */
  lemma InheritsOf(input: string, pos: nat, s1: nat, p1: nat, s2: nat, q: nat)
    requires pos <= s1 <= p1 <= s2 <= q <= |input|
    requires Spacing(input, pos) == s1
    requires Lit(input, s1, "inherits") == Some(p1)
    requires Spacing(input, p1) == s2
    requires TypeName(input, s2).Some? && TypeName(input, s2).value.1 == q
    ensures Structure.Inherits(input, pos) == Some(q)
  {
  }

  /** ` inherits B`, with `B` a type name ending at `q`, is an `inherits`
      clause. */
  lemma InheritsAt(input: string, pos: nat, q: nat)
    requires pos + 10 <= |input|
    requires input[pos] == ' ' && Lit(input, pos + 1, "inherits") == Some(pos + 9) && input[pos + 9] == ' '
    requires TypeName(input, pos + 10).Some? && TypeName(input, pos + 10).value.1 == q
    ensures Structure.Inherits(input, pos) == Some(q)
  {
    SpanIsUnique(input, pos, IsSpace, pos + 1);
    SpanIsUnique(input, pos + 9, IsSpace, pos + 10);
    InheritsOf(input, pos, pos + 1, pos + 9, pos + 10, q);
  }

  /** The steps of `class` with an `inherits` clause give the whole class. */
  lemma InheritingClassOf(input: string, t: nat, q: nat, e: nat)
    requires Lit(input, 0, "class") == Some(5) && Spacing(input, 5) == 6
    requires TypeName(input, 6).Some? && TypeName(input, 6).value.1 == t
    requires Structure.Inherits(input, t) == Some(q)
    requires Structure.ClassBody(input, q) == Some(e)
    ensures Structure.Class(input, 0) == Some(e)
  {
  }

  /** What the lexical rules find in `class N inherits B {}`, where the type
      names `N` and `B` have lengths `n` and `b`. */
  predicate InheritingClassTokens(input: string, n: nat, b: nat) {
    && 19 + n + b <= |input|
    && Lit(input, 0, "class") == Some(5) && Spacing(input, 5) == 6
    && TypeName(input, 6).Some? && TypeName(input, 6).value.1 == 6 + n
    && input[6 + n] == ' ' && Lit(input, 7 + n, "inherits") == Some(15 + n) && input[15 + n] == ' '
    && TypeName(input, 16 + n).Some? && TypeName(input, 16 + n).value.1 == 16 + n + b
    && input[16 + n + b] == ' ' && input[17 + n + b] == '{' && input[18 + n + b] == '}'
  }

  lemma InheritingEmptyClassOf(input: string, t: nat, q: nat)
    requires q + 2 < |input| && input[q] == ' ' && input[q + 1] == '{' && input[q + 2] == '}'
    requires Lit(input, 0, "class") == Some(5) && Spacing(input, 5) == 6
    requires TypeName(input, 6).Some? && TypeName(input, 6).value.1 == t
    requires Structure.Inherits(input, t) == Some(q)
    ensures Structure.Class(input, 0) == Some(q + 3)
  {
    EmptyBody(input, q);
    InheritingClassOf(input, t, q, q + 3);
  }

  lemma InheritingClassAt(input: string, n: nat, b: nat)
    requires InheritingClassTokens(input, n, b)
    ensures Structure.Class(input, 0) == Some(19 + n + b)
  {
    InheritsAt(input, 6 + n, 16 + n + b);
    InheritingEmptyClassOf(input, 6 + n, 16 + n + b);
  }

  lemma InheritingClassHead(input: string, name: string, base: string, rest: string)
    requires |name| > 0 && IsCaps(name[0]) && forall i :: 0 <= i < |name| ==> IsIdChar(name[i])
    requires |base| > 0 && IsCaps(base[0]) && forall i :: 0 <= i < |base| ==> IsIdChar(base[i])
    requires input == "class " + name + " inherits " + base + " {}" + rest
    ensures 19 + |name| + |base| <= |input|
    ensures Lit(input, 0, "class") == Some(5) && Spacing(input, 5) == 6
    ensures TypeName(input, 6) == Some((name, 6 + |name|)) && input[6 + |name|] == ' '
  {
    assert input == "class " + name + (" inherits " + base + " {}" + rest);
    ClassHead(name, " inherits " + base + " {}" + rest);
  }

  lemma InheritingClassKeyword(input: string, name: string, base: string, rest: string)
    requires |name| > 0 && IsCaps(name[0]) && forall i :: 0 <= i < |name| ==> IsIdChar(name[i])
    requires |base| > 0 && IsCaps(base[0]) && forall i :: 0 <= i < |base| ==> IsIdChar(base[i])
    requires input == "class " + name + " inherits " + base + " {}" + rest
    ensures 19 + |name| + |base| <= |input|
    ensures Lit(input, 7 + |name|, "inherits") == Some(15 + |name|) && input[15 + |name|] == ' '
  {
    assert input == ("class " + name + " ") + "inherits" + (" " + base + " {}" + rest);
  }

  lemma InheritingClassBase(input: string, name: string, base: string, rest: string)
    requires |name| > 0 && IsCaps(name[0]) && forall i :: 0 <= i < |name| ==> IsIdChar(name[i])
    requires |base| > 0 && IsCaps(base[0]) && forall i :: 0 <= i < |base| ==> IsIdChar(base[i])
    requires input == "class " + name + " inherits " + base + " {}" + rest
    ensures 19 + |name| + |base| <= |input|
    ensures TypeName(input, 16 + |name|) == Some((base, 16 + |name| + |base|))
    ensures input[16 + |name| + |base|] == ' '
    ensures input[17 + |name| + |base|] == '{' && input[18 + |name| + |base|] == '}'
  {
    var pre := "class " + name + " inherits ";
    assert input == pre + base + (" {}" + rest);
    TokenClass(pre, base, " {}" + rest);
  }

  lemma InheritingClassTokensOf(input: string, name: string, base: string, rest: string)
    requires |name| > 0 && IsCaps(name[0]) && forall i :: 0 <= i < |name| ==> IsIdChar(name[i])
    requires |base| > 0 && IsCaps(base[0]) && forall i :: 0 <= i < |base| ==> IsIdChar(base[i])
    requires input == "class " + name + " inherits " + base + " {}" + rest
    ensures InheritingClassTokens(input, |name|, |base|)
  {
    InheritingClassHead(input, name, base, rest);
    InheritingClassKeyword(input, name, base, rest);
    InheritingClassBase(input, name, base, rest);
  }

  /** `class N inherits B {}` is a class for every pair of type names `N`
      and `B`; whatever follows is not read. */
  lemma InheritingClass(input: string, name: string, base: string, rest: string)
    requires |name| > 0 && IsCaps(name[0]) && forall i :: 0 <= i < |name| ==> IsIdChar(name[i])
    requires |base| > 0 && IsCaps(base[0]) && forall i :: 0 <= i < |base| ==> IsIdChar(base[i])
    requires input == "class " + name + " inherits " + base + " {}" + rest
    ensures Structure.Class(input, 0).Some?
    ensures Structure.Class(input, 0).value == 19 + |name| + |base|
  {
    InheritingClassTokensOf(input, name, base, rest);
    InheritingClassAt(input, |name|, |base|);
  }

  /** The test input `class Name inherits Base {}` is a class. */
  lemma TestInheritingText(input: string)
    requires input == "class Name inherits Base {}"
    ensures input == "class " + "Name" + " inherits " + "Base" + " {}" + ""
    ensures IsCaps("Name"[0]) && forall i :: 0 <= i < |"Name"| ==> IsIdChar("Name"[i])
    ensures IsCaps("Base"[0]) && forall i :: 0 <= i < |"Base"| ==> IsIdChar("Base"[i])
  {
  }

  lemma TestInheritingClass(input: string)
    requires input == "class Name inherits Base {}"
    ensures Structure.Class(input, 0) == Some(27)
  {
    TestInheritingText(input);
    InheritingClass(input, "Name", "Base", "");
  }

  /** A `;` is matched by the literal `";"`. */
  lemma SemicolonAt(input: string, pos: nat)
    requires pos < |input| && input[pos] == ';'
    ensures Lit(input, pos, ";") == Some(pos + 1)
  {
    assert input[pos..pos + 1] == ";";
  }

  lemma OneClassItem(input: string, name: string)
    requires |name| > 0 && IsCaps(name[0]) && forall i :: 0 <= i < |name| ==> IsIdChar(name[i])
    requires input == "class " + name + " {};"
    ensures Structure.ClassItem(input, 0) == Some(10 + |name|)
  {
    assert input == "class " + name + " {}" + ";";
    EmptyClass(input, name, ";");
    assert input[9 + |name|] == ';';
    SemicolonAt(input, 9 + |name|);
  }

  /** A program of one class is the class followed by `;`. */
  lemma OneClassProgram(input: string, name: string)
    requires |name| > 0 && IsCaps(name[0]) && forall i :: 0 <= i < |name| ==> IsIdChar(name[i])
    requires input == "class " + name + " {};"
    ensures Structure.Program(input, 0) == Some(10 + |name|)
  {
    OneClassItem(input, name);
    assert input[0] == 'c';
    SpanIsUnique(input, 0, IsSpace, 0);
    assert Structure.ClassItem(input, 10 + |name|).None? by {
      assert Lit(input, 10 + |name|, "class").None?;
    }
  }

  /** A program needs a class: blank input is rejected. */
  lemma BlankProgramFails(input: string)
    requires AllSpaces(input)
    ensures Structure.Program(input, 0).None?
  {
    SpanIsUnique(input, 0, IsSpace, |input|);
    assert Structure.Class(input, |input|).None?;
  }
}
