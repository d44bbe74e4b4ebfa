/** What the expression grammar of src/main.rs:38-63 does on particular
    kinds of input, stated for every input of that kind. */
module Properties {
  import opened Results
  import opened Ast
  import opened Lexer
  import Parse
  import Recognize
  import Agreement

  /** A digit can only start the `integer` alternative: every alternative
      before it fails, so ordered choice reaches it and takes its outcome,
      panic included. */
  lemma FactorAtDigit(input: string, pos: nat)
    requires pos < |input| && IsDigit(input[pos])
    ensures Parse.Factor(input, pos) == Parse.Integer(input, pos).Map((n: U32) => Number(n))
    ensures Recognize.Factor(input, pos) == Recognize.Integer(input, pos)
  {
  }

  /** Every alternative of `factor` that starts with a fixed word fails at a
      character other than that word's first one. */
  lemma KeywordsFailAt(input: string, pos: nat)
    requires pos < |input|
    ensures input[pos] != 'i' ==> Parse.IfAlt(input, pos).Failure?
    ensures input[pos] != 'w' ==> Parse.WhileAlt(input, pos).Failure?
    ensures input[pos] != 'n' ==> Parse.NewAlt(input, pos).Failure?
    ensures input[pos] != 'i' ==> Parse.Operand(input, pos, "isvoid").Failure?
    ensures input[pos] != '~' ==> Parse.Operand(input, pos, "~").Failure?
    ensures input[pos] != 'n' ==> Parse.Operand(input, pos, "not").Failure?
    ensures input[pos] != 't' ==> Parse.BooleanAlt(input, pos, "true", true).Failure?
    ensures input[pos] != 'f' ==> Parse.BooleanAlt(input, pos, "false", false).Failure?
    ensures input[pos] != '(' ==> Parse.ParenAlt(input, pos).Failure?
  {
  }

  /** Only the last alternative of `factor` can match at `(`. */
  lemma FactorAtParen(input: string, pos: nat)
    requires pos < |input| && input[pos] == '('
    ensures Parse.Factor(input, pos) == Parse.ParenAlt(input, pos)
  {
    KeywordsFailAt(input, pos);
  }

  /** `lparen` at `(` ends after the whitespace that follows it. */
  lemma OpenParenAt(input: string, pos: nat)
    requires pos < |input| && input[pos] == '('
    ensures LParen(input, pos) == Some(Spacing(input, pos + 1))
  {
    assert input[pos..pos + 1] == "(";
  }

  /** `rparen` matches exactly at `)` and ends after the whitespace that
      follows it. */
  lemma CloseParenAt(input: string, pos: nat)
    requires pos <= |input|
    ensures RParen(input, pos)
      == if pos < |input| && input[pos] == ')' then Some(Spacing(input, pos + 1)) else None
  {
    if pos < |input| {
      assert input[pos..pos + 1] == [input[pos]];
    }
  }

  /** The parenthesised alternative at `(` fails or panics exactly as the
      expression after the parenthesis does. */
  lemma ParenAltWithoutInner(input: string, pos: nat)
    requires pos < |input| && input[pos] == '('
    requires !Parse.Expr(input, Spacing(input, pos + 1)).Success?
    ensures Parse.ParenAlt(input, pos) == Parse.Expr(input, Spacing(input, pos + 1))
  {
    OpenParenAt(input, pos);
  }

  /** Once the expression after `(` matched, the parenthesised alternative
      succeeds with its tree exactly when `)` follows it. */
  lemma ParenAltWithInner(input: string, pos: nat)
    requires pos < |input| && input[pos] == '('
    requires Parse.Expr(input, Spacing(input, pos + 1)).Success?
    ensures var inner := Parse.Expr(input, Spacing(input, pos + 1));
      inner.pos < |input| && input[inner.pos] == ')' ==>
        Parse.ParenAlt(input, pos) == Success(inner.value, Spacing(input, inner.pos + 1))
    ensures var inner := Parse.Expr(input, Spacing(input, pos + 1));
      !(inner.pos < |input| && input[inner.pos] == ')') ==> Parse.ParenAlt(input, pos) == Failure
  {
    OpenParenAt(input, pos);
    CloseParenAt(input, Parse.Expr(input, Spacing(input, pos + 1)).pos);
  }

  /** `( e )` yields the tree of `e` itself, with no wrapper node: the factor
      at an opening parenthesis is the expression after it and its
      whitespace, provided a closing parenthesis follows that expression. */
  lemma ParenIsTransparent(input: string, pos: nat)
    requires pos < |input| && input[pos] == '('
    ensures var inner := Parse.Expr(input, Spacing(input, pos + 1));
      !inner.Success? ==> Parse.Factor(input, pos) == inner
    ensures var inner := Parse.Expr(input, Spacing(input, pos + 1));
      inner.Success? && inner.pos < |input| && input[inner.pos] == ')' ==>
        Parse.Factor(input, pos) == Success(inner.value, Spacing(input, inner.pos + 1))
    ensures var inner := Parse.Expr(input, Spacing(input, pos + 1));
      inner.Success? && !(inner.pos < |input| && input[inner.pos] == ')') ==>
        Parse.Factor(input, pos) == Failure
  {
    FactorAtParen(input, pos);
    if Parse.Expr(input, Spacing(input, pos + 1)).Success? {
      ParenAltWithInner(input, pos);
    } else {
      ParenAltWithoutInner(input, pos);
    }
  }

  /** The second character of a literal that matched. */
  lemma LitSecond(input: string, pos: nat, s: string)
    requires pos <= |input| && |s| > 1 && Lit(input, pos, s).Some?
    ensures input[pos + 1] == s[1]
  {
    assert input[pos..pos + |s|][1] == input[pos + 1];
  }

  /** At a keyword that is also a valid identifier, the assignment
      alternative is tried first: when it fails (no `<-` right after the
      word, or no expression after that), the cursor goes back and the
      keyword's own alternative decides. */
  lemma KeywordAfterFailedAssign(input: string, pos: nat)
    requires pos < |input|
    requires Parse.AssignAlt(input, pos).Failure?
    ensures Lit(input, pos, "if").Some? ==> Parse.Factor(input, pos) == Parse.IfAlt(input, pos)
    ensures Lit(input, pos, "while").Some? ==> Parse.Factor(input, pos) == Parse.WhileAlt(input, pos)
    ensures Lit(input, pos, "not").Some? ==>
      Parse.Factor(input, pos) == Parse.Operand(input, pos, "not").Map(e => Not(e))
    ensures Lit(input, pos, "true").Some? ==> Parse.Factor(input, pos) == Success(Boolean(true), pos + 4)
    ensures Lit(input, pos, "false").Some? ==> Parse.Factor(input, pos) == Success(Boolean(false), pos + 5)
  {
    KeywordsFailAt(input, pos);
    if Lit(input, pos, "if").Some? {
      LitSecond(input, pos, "if");
      if Lit(input, pos, "isvoid").Some? {
        LitSecond(input, pos, "isvoid");
      }
      assert Parse.Operand(input, pos, "isvoid").Failure?;
    }
    if Lit(input, pos, "not").Some? {
      LitSecond(input, pos, "not");
      if Lit(input, pos, "new").Some? {
        LitSecond(input, pos, "new");
      }
      assert Parse.NewAlt(input, pos).Failure?;
    }
  }

  /** A single factor not followed by `*` or `/` is a whole term, with the
      same tree. */
  lemma SingleFactorTerm(input: string, pos: nat)
    requires pos <= |input|
    requires Parse.Factor(input, pos).Success?
    requires Parse.FactorOp(input, Parse.Factor(input, pos).pos).None?
    ensures Parse.Term(input, pos) == Parse.Factor(input, pos)
  {
  }

  /** A digit run `[pos, digitsEnd)` and the whitespace run after it,
      ending at `next`, make a whole factor: the number of the digits when
      their value fits in 32 bits, a panic otherwise; recognition ends at
      `next` either way. */
  lemma NumberFactor(input: string, pos: nat, digitsEnd: nat, next: nat)
    requires pos < digitsEnd <= next <= |input|
    requires forall i :: pos <= i < digitsEnd ==> IsDigit(input[i])
    requires digitsEnd == |input| || !IsDigit(input[digitsEnd])
    requires forall i :: digitsEnd <= i < next ==> IsSpace(input[i])
    requires next == |input| || !IsSpace(input[next])
    ensures AllDigits(input[pos..digitsEnd])
    ensures Parse.Factor(input, pos)
      == if DecimalValue(input[pos..digitsEnd]) <= U32_MAX
         then Success(Number(DecimalValue(input[pos..digitsEnd])), next)
         else Panic
    ensures Recognize.Factor(input, pos) == Some(next)
  {
    FactorAtDigit(input, pos);
    Parse.IntegerAt(input, pos, digitsEnd, next);
    SpanIsUnique(input, pos, IsDigit, digitsEnd);
    SpanIsUnique(input, digitsEnd, IsSpace, next);
  }

  /** The same literal not followed by `*` or `/` is a whole term. */
  lemma NumberTerm(input: string, pos: nat, digitsEnd: nat, next: nat)
    requires pos < digitsEnd <= next <= |input|
    requires forall i :: pos <= i < digitsEnd ==> IsDigit(input[i])
    requires digitsEnd == |input| || !IsDigit(input[digitsEnd])
    requires forall i :: digitsEnd <= i < next ==> IsSpace(input[i])
    requires next == |input| || !IsSpace(input[next])
    requires next == |input| || (input[next] != '*' && input[next] != '/')
    ensures AllDigits(input[pos..digitsEnd])
    ensures Parse.Term(input, pos)
      == if DecimalValue(input[pos..digitsEnd]) <= U32_MAX
         then Success(Number(DecimalValue(input[pos..digitsEnd])), next)
         else Panic
    ensures Recognize.Term(input, pos) == Some(next)
  {
    NumberFactor(input, pos, digitsEnd, next);
    assert Parse.FactorOp(input, next).None?;
    assert Recognize.FactorOp(input, next).None?;
    assert Recognize.FactorPairs(input, pos) == pos;
  }

  /** The same literal not followed by any operator is a whole expression. */
  lemma NumberExpr(input: string, pos: nat, digitsEnd: nat, next: nat)
    requires pos < digitsEnd <= next <= |input|
    requires forall i :: pos <= i < digitsEnd ==> IsDigit(input[i])
    requires digitsEnd == |input| || !IsDigit(input[digitsEnd])
    requires forall i :: digitsEnd <= i < next ==> IsSpace(input[i])
    requires next == |input| || !IsSpace(input[next])
    requires next == |input| || (input[next] != '*' && input[next] != '/')
    requires next == |input| || (input[next] != '+' && input[next] != '-')
    ensures AllDigits(input[pos..digitsEnd])
    ensures Parse.Expr(input, pos)
      == if DecimalValue(input[pos..digitsEnd]) <= U32_MAX
         then Success(Number(DecimalValue(input[pos..digitsEnd])), next)
         else Panic
    ensures Recognize.Expr(input, pos) == Some(next)
  {
    NumberTerm(input, pos, digitsEnd, next);
    assert Parse.TermOp(input, next).None?;
    assert Recognize.TermOp(input, next).None?;
  }

  /** A factor that is followed by no operator is a whole expression, with
      the same tree and the same end. */
  lemma SingleFactorExpr(input: string, pos: nat)
    requires pos <= |input|
    requires Parse.Factor(input, pos).Success?
    requires var q := Parse.Factor(input, pos).pos;
      q == |input| || (input[q] != '*' && input[q] != '/' && input[q] != '+' && input[q] != '-')
    ensures Parse.Expr(input, pos) == Parse.Factor(input, pos)
  {
    var q := Parse.Factor(input, pos).pos;
    assert Parse.FactorOp(input, q).None?;
    SingleFactorTerm(input, pos);
    assert Parse.TermOp(input, q).None?;
  }

  /** A bare identifier is not an expression: the code has no alternative
      that produces `Variable`, so an identifier that is not followed by
      `<-` and does not start like a keyword fails every alternative of
      `factor`, and with it `term` and `expr`. */
  lemma BareIdentifierFails(input: string, pos: nat)
    requires pos < |input| && Id(input, pos).Some?
    requires Lit(input, Id(input, pos).value.1, "<-").None?
    requires input[pos] !in "iwntf"
    ensures Parse.Factor(input, pos).Failure?
    ensures Parse.Expr(input, pos).Failure?
    ensures Recognize.Expr(input, pos).None?
  {
    KeywordsFailAt(input, pos);
    assert Parse.AssignAlt(input, pos).Failure?;
    assert Parse.FactorPairs(input, pos) == Success([], pos);
    Agreement.ExprAgrees(input, pos);
  }

  /** No expression starts with whitespace or at the end of the input:
      whitespace is only ever skipped after a literal, an operator or a
      parenthesis, never before a factor. */
  lemma NoExprAtSpace(input: string, pos: nat)
    requires pos <= |input|
    requires pos == |input| || IsSpace(input[pos])
    ensures Parse.Factor(input, pos).Failure?
    ensures Parse.Expr(input, pos).Failure?
    ensures Recognize.Expr(input, pos).None?
  {
    if pos < |input| {
      KeywordsFailAt(input, pos);
    } else {
      assert LParen(input, pos).None?;
    }
    assert Parse.AssignAlt(input, pos).Failure?;
    assert Parse.Integer(input, pos).Failure?;
    assert Parse.Factor(input, pos).Failure?;
    assert Parse.FactorPairs(input, pos) == Success([], pos);
    Agreement.ExprAgrees(input, pos);
  }

  /** A keyword is not followed by implicit whitespace: at `if` followed by
      whitespace no alternative of `factor` matches. The identifier `if` is
      not followed by `<-`, the `if` alternative finds no expression at the
      whitespace, and no other alternative starts with `if`. */
  lemma IfBeforeSpaceFails(input: string, pos: nat)
    requires pos + 2 < |input| && input[pos] == 'i' && input[pos + 1] == 'f' && IsSpace(input[pos + 2])
    ensures Parse.Factor(input, pos).Failure?
    ensures Recognize.Factor(input, pos).None?
  {
    SpanIsUnique(input, pos, IsIdChar, pos + 2);
    assert Parse.AssignAlt(input, pos).Failure?;
    assert input[pos..pos + 2] == "if";
    KeywordAfterFailedAssign(input, pos);
    NoExprAtSpace(input, pos + 2);
    Agreement.FactorAgrees(input, pos);
  }
}
