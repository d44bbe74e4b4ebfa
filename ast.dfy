/** The expression tree the grammar builds (src/main.rs:69-90) and the two
    folds that assemble binary-operator chains (src/main.rs:148-156). */
module Ast {

  /** The largest value of Rust's `u32`. */
  const U32_MAX: nat := 0xFFFF_FFFF

  type U32 = x: int | 0 <= x <= U32_MAX

  datatype BinOp = Add | Sub | Mul | Div

  /** One node type for the whole expression language. `Variable` has no rule
      that produces it. */
  datatype Expression =
    | Assign(name: string, value: Expression)
    | If(cond: Expression, thenBranch: Expression, elseBranch: Expression)
    | While(cond: Expression, body: Expression)
    | New(typeName: string)
    | IsVoid(operand: Expression)
    | Neg(operand: Expression)
    | Not(operand: Expression)
    | Variable(name: string)
    | Number(number: U32)
    | Boolean(truth: bool)
    | BinaryExpr(op: BinOp, left: Expression, right: Expression)

  /** No `Variable` node anywhere in `e`. */
  predicate VariableFree(e: Expression) {
    match e
    case Assign(_, v) => VariableFree(v)
    case If(c, t, f) => VariableFree(c) && VariableFree(t) && VariableFree(f)
    case While(c, b) => VariableFree(c) && VariableFree(b)
    case New(_) => true
    case IsVoid(x) => VariableFree(x)
    case Neg(x) => VariableFree(x)
    case Not(x) => VariableFree(x)
    case Variable(_) => false
    case Number(_) => true
    case Boolean(_) => true
    case BinaryExpr(_, l, r) => VariableFree(l) && VariableFree(r)
  }

  /** `fold_left`: starting from `head`, each `(op, e)` of `rest`, front to
      back, makes the tree so far the LEFT operand of a new node. */
  function FoldLeft(head: Expression, rest: seq<(BinOp, Expression)>): (r: Expression)
    ensures VariableFree(head) && (forall i :: 0 <= i < |rest| ==> VariableFree(rest[i].1))
      ==> VariableFree(r)
    decreases |rest|
  {
    if rest == [] then head
    else FoldLeft(BinaryExpr(rest[0].0, head, rest[0].1), rest[1..])
  }

  /** `s` back to front. */
  function Reverse<T>(s: seq<T>): (r: seq<T>)
    ensures |r| == |s|
    ensures forall i :: 0 <= i < |s| ==> r[i] == s[|s| - 1 - i]
  {
    if s == [] then [] else Reverse(s[1..]) + [s[0]]
  }

  /** The fold of `fold_right` after the reversal: each `(e, op)` of `pairs`,
      front to back, makes the tree so far the RIGHT operand of a new node. */
  function FoldReversed(pairs: seq<(Expression, BinOp)>, acc: Expression): (r: Expression)
    ensures VariableFree(acc) && (forall i :: 0 <= i < |pairs| ==> VariableFree(pairs[i].0))
      ==> VariableFree(r)
    decreases |pairs|
  {
    if pairs == [] then acc
    else FoldReversed(pairs[1..], BinaryExpr(pairs[0].1, pairs[0].0, acc))
  }

  /** `fold_right`: `front.into_iter().rev().fold(last, ...)`. */
  function FoldRight(front: seq<(Expression, BinOp)>, last: Expression): (r: Expression)
    ensures VariableFree(last) && (forall i :: 0 <= i < |front| ==> VariableFree(front[i].0))
      ==> VariableFree(r)
  {
    var reversed := Reverse(front);
    assert forall i :: 0 <= i < |reversed| ==> reversed[i] == front[|front| - 1 - i];
    FoldReversed(reversed, last)
  }

  /** Appending a pair to `rest` wraps the whole previous fold: `+`/`-` chains
      are left-nested. */
  lemma {:induction false} FoldLeftSnoc(head: Expression, rest: seq<(BinOp, Expression)>, op: BinOp, e: Expression)
    ensures FoldLeft(head, []) == head
    ensures FoldLeft(head, rest + [(op, e)]) == BinaryExpr(op, FoldLeft(head, rest), e)
    decreases |rest|
  {
    if rest != [] {
      assert (rest + [(op, e)])[1..] == rest[1..] + [(op, e)];
      FoldLeftSnoc(BinaryExpr(rest[0].0, head, rest[0].1), rest[1..], op, e);
    }
  }

  lemma {:induction false} FoldReversedSnoc(pairs: seq<(Expression, BinOp)>, acc: Expression, e: Expression, op: BinOp)
    ensures FoldReversed(pairs + [(e, op)], acc) == BinaryExpr(op, e, FoldReversed(pairs, acc))
    decreases |pairs|
  {
    if pairs == [] {
      assert [(e, op)][1..] == [];
    } else {
      assert (pairs + [(e, op)])[1..] == pairs[1..] + [(e, op)];
      FoldReversedSnoc(pairs[1..], BinaryExpr(pairs[0].1, pairs[0].0, acc), e, op);
    }
  }

  /** Prepending a pair to `front` puts its operand at the top, with the
      rest of the fold as right operand: `*`/`/` chains are right-nested. */
  lemma FoldRightCons(e: Expression, op: BinOp, front: seq<(Expression, BinOp)>, last: Expression)
    ensures FoldRight([], last) == last
    ensures FoldRight([(e, op)] + front, last) == BinaryExpr(op, e, FoldRight(front, last))
  {
    var s := [(e, op)] + front;
    assert s[1..] == front;
    assert Reverse(s) == Reverse(front) + [(e, op)];
    FoldReversedSnoc(Reverse(front), last, e, op);
  }

  /** An element of the in-order reading of a tree. */
  datatype Item = Operand(operand: Expression) | Operator(op: BinOp)

  /** The in-order reading of `e` through its binary nodes: what the source
      text showed, less the grouping. */
  function Spine(e: Expression): seq<Item> {
    match e
    case BinaryExpr(op, l, r) => Spine(l) + [Operator(op)] + Spine(r)
    case _ => [Operand(e)]
  }

  /** The items of `(term_op term)*` in source order. */
  function LeftItems(rest: seq<(BinOp, Expression)>): seq<Item>
    decreases |rest|
  {
    if rest == [] then [] else [Operator(rest[0].0)] + Spine(rest[0].1) + LeftItems(rest[1..])
  }

  /** The items of `(factor factor_op)*` in source order. */
  function RightItems(front: seq<(Expression, BinOp)>): seq<Item>
    decreases |front|
  {
    if front == [] then [] else Spine(front[0].0) + [Operator(front[0].1)] + RightItems(front[1..])
  }

  /** `fold_left` keeps operands and operators in source order; it only
      chooses the grouping. */
  lemma {:induction false} FoldLeftKeepsOrder(head: Expression, rest: seq<(BinOp, Expression)>)
    ensures Spine(FoldLeft(head, rest)) == Spine(head) + LeftItems(rest)
    decreases |rest|
  {
    if rest != [] {
      FoldLeftKeepsOrder(BinaryExpr(rest[0].0, head, rest[0].1), rest[1..]);
    }
  }

  /** `fold_right` keeps operands and operators in source order too, although
      it walks the pairs back to front. */
  lemma {:induction false} FoldRightKeepsOrder(front: seq<(Expression, BinOp)>, last: Expression)
    ensures Spine(FoldRight(front, last)) == RightItems(front) + Spine(last)
    decreases |front|
  {
    if front != [] {
      assert [front[0]] + front[1..] == front;
      FoldRightCons(front[0].0, front[0].1, front[1..], last);
      FoldRightKeepsOrder(front[1..], last);
    }
  }
}
