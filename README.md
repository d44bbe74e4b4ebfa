# COOL subset grammar (oak PEG) in Dafny

This project models `src/main.rs`, a parsing expression grammar (PEG) for a
subset of COOL. The grammar is written for the Rust parser generator oak.
It covers:

- the lexical rules `spacing`, `ID`, `TYPE`, `integer` and the operator
  terminals;
- the structural rules `program`, `class`, `feature` and `formal`;
- the expression rules `expr`, `term`, `term_op`, `factor` and `factor_op`;
- the semantic actions that build `Expression` trees, including `to_number`
  and the two folds `fold_left` and `fold_right`.

A PEG rule maps an input and a cursor to a match or a failure. Choice is
ordered: the first alternative that matches decides. A failed alternative
leaves the cursor where it was. `*` and `?` are greedy and never give back
what they matched. oak generates two functions per rule, and both are
modelled:

- `parse_*` runs the semantic actions (module `Parse`). Its outcome is
  `Success(value, next)`, `Failure` or `Panic`. `Panic` is the `unwrap` in
  `to_number` meeting a literal that does not fit in `u32`. That aborts the
  whole parse and is never backtracked over, so every rule passes it up.
- `recognize_*` runs no action (module `Recognize`). Its outcome is the
  position after the match, or none.

Module `Agreement` proves that the two agree wherever the parse does not
panic: the same match, ending at the same place. The structural rules build
nothing the repository uses (`feature` discards its value with `-> (^)`, and
no code reads what `formal`, `class` and `program` capture), so module
`Structure` models them as recognisers over `Recognize.Expr`.

Termination of the mutually recursive expression rules uses the pair
(characters left, rank). Every re-entry into `expr` follows at least one
consumed character. Calls at the same position go down the ranks
expr > `(term_op term)*` > term > `(factor factor_op)*` > factor >
alternatives.

## What the grammar does on its test inputs

The tests in `src/main.rs` expect all six inputs to be accepted by a
`recognize_*` function. The grammar as written does not skip whitespace
after `ID`, after a keyword, or after `"<-"`. Only `integer` and the
operator and parenthesis terminals consume the whitespace that follows them.
It follows, and module `Examples` proves, that:

- `class Name {}` and `class Name inherits Base {}` are classes (the
  explicit `spc` in `class` allows the spaces);
- `1 + 1` and `1 + (2 * 3 + 4)` are expressions over the whole input;
- `1 + if true then 1 else 0 fi` matches only its prefix `1 `: `if` followed
  by a space fails, so `(term_op term)*` undoes the `+`;
- `val <- not if true then 1 else 0 fi` is not an expression at all: `ID`
  stops at the space and `"<-"` is not there, `val` is no keyword, and no
  alternative produces a bare identifier;
- `val<-not(true)`, written without those spaces, is a whole assignment.

The same holds in the structural rules: no whitespace is skipped after the
`;` that ends a feature or a class. Module `FeatureExamples` proves that
`class A {x:Int; }` is not a class, and that a program stops at whitespace
after its first class.

Keywords are not reserved. At `true`, `if` or `not`, the assignment
alternative is tried first as an identifier, fails for lack of `<-`, and
the keyword's own alternative then decides.

## Model

The trees are the datatypes `Ast.Expression` (the enum `Expression`,
src/main.rs:71-85, one constructor per variant with `Box` dropped and `u32`
as the subset type `Ast.U32`) and `Ast.BinOp` (the enum `BinOp`,
src/main.rs:87-90). The character classes `digit` and `caps` are the
predicates `Lexer.IsDigit` and `Lexer.IsCaps`, whose members the lemmas
`Lexer.DigitClass` and `Lexer.CapsClass` list.

| member | source | states |
|---|---|---|
| `Lexer.Span` | src/main.rs:11 | greedy `[p]*`: every character it passes is in the class, and the one after it is not (or the input ends) |
| `Lexer.SpanIsUnique` | src/main.rs:11 | any run in the class that ends where the class stops matching is the one the greedy repetition takes |
| `Lexer.SpanOverRun` | src/main.rs:14-18 | a known run of class characters at a position is taken whole by the greedy repetition |
| `Lexer.Spacing` | src/main.rs:11-12 | `spacing` never fails; it skips only whitespace, and stops at the first character that is not whitespace |
| `Lexer.Id` | src/main.rs:14 | `ID` matches exactly at a lower-case letter or `_`; it reads the longest run of identifier characters and returns that text |
| `Lexer.TypeName` | src/main.rs:15 | `TYPE` matches exactly at a capital; it reads the longest run of identifier characters and returns that text |
| `Lexer.IdAndTypeNameDisjoint` | src/main.rs:14-15 | no position starts both an `ID` and a `TYPE` |
| `Lexer.TokenClass` | src/main.rs:14-15 | on a whole token, `ID` and `TYPE` each read exactly that token, and which one applies depends on its first character alone |
| `Lexer.DecimalRoundTrip` | src/main.rs:96-98 | reading back the decimal rendering of any number gives that number |
| `Lexer.LeadingZero` | src/main.rs:96-98 | a leading zero does not change the value of a digit string |
| `Lexer.ToNumber` | src/main.rs:96-98 | `to_number` yields a value exactly when the digit string is non-empty and its value fits in 32 bits; the value is the decimal value of the digits |
| `Lexer.ToNumberRoundTrip` | src/main.rs:96-98 | every `u32`, rendered in decimal, converts back to itself |
| `Lexer.Lit` | src/main.rs:30 | a literal string matches exactly when the input has that text at the cursor, and ends right after it |
| `Lexer.DigitClass` | src/main.rs:18 | `digit` holds exactly the ten characters `0` to `9` |
| `Lexer.CapsClass` | src/main.rs:19 | `caps` holds exactly the 26 capitals `A` to `Z` |
| `Lexer.Token` | src/main.rs:21-26 | a terminal text followed by `spacing` matches exactly where the input has that text; it then ends after the text and all the whitespace that follows, at a character that is not whitespace or at the end |
| `Lexer.OperatorTerminal` | src/main.rs:21-26 | a one-character terminal matches exactly when that character is next |
| `Lexer.AddOp` | src/main.rs:21 | `add_op` matches exactly at `+` and ends after all the whitespace that follows it |
| `Lexer.SubOp` | src/main.rs:22 | `sub_op` matches exactly at `-` and ends after all the whitespace that follows it |
| `Lexer.MulOp` | src/main.rs:23 | `mul_op` matches exactly at `*` and ends after all the whitespace that follows it |
| `Lexer.DivOp` | src/main.rs:24 | `div_op` matches exactly at `/` and ends after all the whitespace that follows it |
| `Lexer.LParen` | src/main.rs:25 | `lparen` matches exactly at `(` and ends after all the whitespace that follows it |
| `Lexer.RParen` | src/main.rs:26 | `rparen` matches exactly at `)` and ends after all the whitespace that follows it |
| `Ast.FoldLeft` | src/main.rs:148-151 | `fold_left` of trees without `Variable` has no `Variable` |
| `Ast.FoldReversed` | src/main.rs:154-155 | the fold inside `fold_right` of trees without `Variable` has no `Variable` |
| `Ast.FoldRight` | src/main.rs:153-156 | `fold_right` of trees without `Variable` has no `Variable` |
| `Ast.FoldLeftSnoc` | src/main.rs:148-151 | each later `(op, e)` makes the whole previous fold its left operand: `+`/`-` chains nest to the left |
| `Ast.FoldReversedSnoc` | src/main.rs:154-155 | appending a pair to the reversed pairs wraps the previous fold as the right operand |
| `Ast.FoldRightCons` | src/main.rs:153-156 | the first `(e, op)` is at the top with the fold of the rest as its right operand: `*`/`/` chains nest to the right |
| `Ast.FoldLeftKeepsOrder` | src/main.rs:148-151 | `fold_left` keeps every operand and operator in source order; it only chooses the grouping |
| `Ast.FoldRightKeepsOrder` | src/main.rs:153-156 | `fold_right` keeps every operand and operator in source order, although it walks the pairs back to front |
| `Parse.Integer` | src/main.rs:17 | `integer` fails exactly when no digit is at the cursor; a match consumes input |
| `Parse.IntegerAt` | src/main.rs:17 | a maximal digit run and the whitespace after it give the number of the digits, ending after the whitespace, or a panic when the value exceeds `u32` |
| `Parse.IntegerLiteral` | src/main.rs:17 | the same for a literal written as digits, then spaces, inside any text |
| `Parse.TermOp` | src/main.rs:44-46 | `term_op` matches exactly at `+` or `-`, gives `Add` or `Sub` accordingly, and ends after the following whitespace |
| `Parse.FactorOp` | src/main.rs:61-63 | `factor_op` matches exactly at `*` or `/`, gives `Mul` or `Div` accordingly, and ends after the following whitespace |
| `Parse.Expr` | src/main.rs:38-39 | a match of `expr` consumes input, stays within it, and builds no `Variable` |
| `Parse.TermTail` | src/main.rs:39 | `(term_op term)*` never fails; its pairs hold no `Variable` |
| `Parse.Term` | src/main.rs:41-42 | a match of `term` consumes input and builds no `Variable` |
| `Parse.FactorPairs` | src/main.rs:42 | `(factor factor_op)*` never fails; its factors hold no `Variable` |
| `Parse.Factor` | src/main.rs:48-59 | a match of `factor` consumes input and builds no `Variable`: none of the eleven alternatives produces one |
| `Parse.AssignAlt` | src/main.rs:49 | a match of `ID "<-" expr` consumes input and builds no `Variable` |
| `Parse.IfAlt` | src/main.rs:50 | a match of the `if` alternative consumes input and builds no `Variable` |
| `Parse.WhileAlt` | src/main.rs:51 | a match of the `while` alternative consumes input and builds no `Variable` |
| `Parse.NewAlt` | src/main.rs:52 | `"new" TYPE` never panics, matches exactly when a capital follows `new` directly, and names the type read after `new` |
| `Parse.Operand` | src/main.rs:53-55 | a keyword followed by `expr` consumes input and builds no `Variable` |
| `Parse.BooleanAlt` | src/main.rs:57-58 | `"true"`/`"false"` never panic, match exactly at their word and give that boolean |
| `Parse.ParenAlt` | src/main.rs:59 | a match of `lparen expr rparen` consumes input and builds no `Variable` |
| `Recognize.Integer` | src/main.rs:17 | `recognize_integer` matches exactly at a digit, never panics, and ends after the digits and the whitespace after them |
| `Recognize.TermOp` | src/main.rs:44-46 | matches exactly at `+` or `-` and ends after the following whitespace |
| `Recognize.FactorOp` | src/main.rs:61-63 | matches exactly at `*` or `/` and ends after the following whitespace |
| `Recognize.Expr` | src/main.rs:38-39 | a match of `expr` consumes input and stays within it |
| `Recognize.TermTail` | src/main.rs:39 | `(term_op term)*` never fails and stays within the input |
| `Recognize.Term` | src/main.rs:41-42 | a match of `term` consumes input |
| `Recognize.FactorPairs` | src/main.rs:42 | `(factor factor_op)*` never fails and stays within the input |
| `Recognize.Factor` | src/main.rs:48-59 | a match of `factor` consumes input |
| `Recognize.AssignAlt` | src/main.rs:49 | a match of `ID "<-" expr` consumes input |
| `Recognize.IfAlt` | src/main.rs:50 | a match of the `if` alternative consumes input |
| `Recognize.WhileAlt` | src/main.rs:51 | a match of the `while` alternative consumes input |
| `Recognize.NewAlt` | src/main.rs:52 | `"new" TYPE` matches exactly when a capital follows `new` directly |
| `Recognize.Operand` | src/main.rs:53-55 | a keyword followed by `expr` consumes input |
| `Recognize.ParenAlt` | src/main.rs:59 | a match of `lparen expr rparen` consumes input |
| `Agreement.IntegerAgrees` | src/main.rs:17 | `parse_integer` and `recognize_integer` match the same text unless the conversion panics |
| `Agreement.ExprAgrees` | src/main.rs:38-39 | `parse_expr` succeeds exactly where `recognize_expr` does, ending at the same position, unless it panics |
| `Agreement.TermTailAgrees` | src/main.rs:39 | the two forms of `(term_op term)*` end at the same position unless the parse panics |
| `Agreement.TermAgrees` | src/main.rs:41-42 | the two forms of `term` agree unless the parse panics |
| `Agreement.FactorPairsAgrees` | src/main.rs:42 | the two forms of `(factor factor_op)*` end at the same position unless the parse panics |
| `Agreement.FactorAgrees` | src/main.rs:48-59 | the two forms of `factor` agree unless the parse panics |
| `Agreement.AssignAgrees` | src/main.rs:49 | the two forms of the assignment alternative agree unless the parse panics |
| `Agreement.IfAgrees` | src/main.rs:50 | the two forms of the `if` alternative agree unless the parse panics |
| `Agreement.WhileAgrees` | src/main.rs:51 | the two forms of the `while` alternative agree unless the parse panics |
| `Agreement.OperandAgrees` | src/main.rs:53-55 | the two forms of `isvoid`, `~` and `not` agree unless the parse panics |
| `Agreement.ParenAgrees` | src/main.rs:59 | the two forms of the parenthesised alternative agree unless the parse panics |
| `Properties.FactorAtDigit` | src/main.rs:48-56 | at a digit, every alternative before `integer` fails, so `factor` is the number literal, panic included, in both forms |
| `Properties.KeywordsFailAt` | src/main.rs:50-59 | each keyword alternative fails at any character other than its word's first one |
| `Properties.FactorAtParen` | src/main.rs:48-59 | at `(` only the last alternative of `factor` can match |
| `Properties.OpenParenAt` | src/main.rs:25 | `lparen` at `(` ends after the whitespace that follows it |
| `Properties.CloseParenAt` | src/main.rs:26 | `rparen` matches exactly at `)` and ends after the whitespace that follows it |
| `Properties.ParenAltWithoutInner` | src/main.rs:59 | when the expression after `(` fails or panics, so does the parenthesised alternative |
| `Properties.ParenAltWithInner` | src/main.rs:59 | after a matched inner expression, the parenthesised alternative gives its tree exactly when `)` follows, and fails otherwise |
| `Properties.ParenIsTransparent` | src/main.rs:59 | `( e )` is the tree of `e` itself with no wrapper node, ending after `)` and its whitespace; fails or panics with `e` otherwise |
| `Properties.LitSecond` | src/main.rs:50-58 | a matched literal fixes the second character at the cursor |
| `Properties.KeywordAfterFailedAssign` | src/main.rs:49-58 | when the assignment alternative fails at `if`, `while`, `not`, `true` or `false`, the cursor goes back and that keyword's alternative decides |
| `Properties.SingleFactorTerm` | src/main.rs:41-42 | a factor not followed by `*` or `/` is a whole term with the same tree |
| `Properties.NumberFactor` | src/main.rs:17-56 | a maximal digit run with its whitespace is a factor holding the number of the digits, or panics above `u32`; recognition ends at the same place either way |
| `Properties.NumberTerm` | src/main.rs:41-42 | the same literal not followed by `*` or `/` is a whole term |
| `Properties.NumberExpr` | src/main.rs:38-39 | the same literal not followed by any operator is a whole expression |
| `Properties.SingleFactorExpr` | src/main.rs:38-42 | a factor followed by no operator is a whole expression with the same tree and end |
| `Properties.BareIdentifierFails` | src/main.rs:48-59 | an identifier not followed by `<-` whose first letter is none of `i`, `w`, `n`, `t` and `f` (the first letters of the keywords, so `foo` and `total` are excluded too) is no factor and no expression, in both forms |
| `Properties.NoExprAtSpace` | src/main.rs:38-59 | no expression starts at whitespace or at the end of the input, in both forms |
| `Properties.IfBeforeSpaceFails` | src/main.rs:49-50 | `if` followed by whitespace is no factor, in both forms |
| `Structure.Formal` | src/main.rs:36 | a match of `formal` starts with an `ID`, consumes at least three characters, and stays within the input |
| `Structure.MoreFormal` | src/main.rs:33 | one iteration of `(spc "," spc formal spc)*` consumes input |
| `Structure.MoreFormals` | src/main.rs:33 | the repetition of formals never fails and stays within the input |
| `Structure.Formals` | src/main.rs:33 | the optional formal list never fails and stays within the input |
| `Structure.MethodFeature` | src/main.rs:33 | a match of the method form of `feature` consumes input |
| `Structure.Initializer` | src/main.rs:34 | a match of `"<-" expr` consumes at least three characters |
| `Structure.AttributeFeature` | src/main.rs:34 | a match of the attribute form of `feature` consumes input |
| `Structure.Feature` | src/main.rs:32-34 | a match of `feature` starts with an `ID` and consumes input |
| `Structure.FeatureItem` | src/main.rs:30 | one iteration of `(feature ";")*` consumes input |
| `Structure.Features` | src/main.rs:30 | `(feature ";")*` never fails and stays within the input |
| `Structure.Inherits` | src/main.rs:30 | a match of `(spc "inherits" spc TYPE)` consumes at least nine characters |
| `Structure.ClassBody` | src/main.rs:30 | a match of `spc "{" spc (feature ";")* "}"` consumes at least the two braces |
| `Structure.Class` | src/main.rs:30 | a match of `class` starts with `class`, directly followed after whitespace by a `TYPE`, and consumes at least eight characters; both forms without features are classes for every choice of type names, by `Examples.EmptyClass` and `Examples.InheritingClass` |
| `Structure.ClassItem` | src/main.rs:28 | one iteration of `(class ";")+` consumes input |
| `Structure.MoreClasses` | src/main.rs:28 | the repetitions after the first class never fail and stay within the input |
| `Structure.Program` | src/main.rs:28 | `program` matches exactly when a class and `;` follow the leading whitespace, and then consumes input |
| `Examples.Renderings` | src/main.rs:96-98 | the decimal renderings of the largest `u32` and of the next number |
| `Examples.LargestLiteral` | src/main.rs:96-98 | `4294967295` parses to that number over the whole input |
| `Examples.OverflowPanics` | src/main.rs:96-98 | `4294967296` makes the parse panic, while recognition accepts the literal |
| `Examples.DigitSum` | src/main.rs:38-46 | `a + b` for any two digits is one sum over the whole input |
| `Examples.ParenDigitSum` | src/main.rs:59 | `(a + b)` for any two digits is that sum over the whole input |
| `Examples.ParenthesesAddNoNode` | src/main.rs:59 | `(a + b)` and `a + b` give the same tree |
| `Examples.SimpleSum` | src/main.rs:178-183 | `1 + 1` is recognised in full as the sum of two ones |
| `Examples.SubtractionGroupsLeft` | src/main.rs:148-151 | `1 - 2 - 3` is `(1 - 2) - 3` |
| `Examples.DivisionGroupsRight` | src/main.rs:153-156 | `8 / 4 / 2` is `8 / (4 / 2)` |
| `Examples.NestedSum` | src/main.rs:185-190 | `1 + (2 * 3 + 4)` is recognised in full; the parenthesised sum is the right operand of the outer sum |
| `Examples.IfAfterPlus` | src/main.rs:192-197 | `1 + if true then 1 else 0 fi` matches only its prefix `1 `, in both forms |
| `Examples.AssignWithSpacesFails` | src/main.rs:199-204 | `val <- not if true then 1 else 0 fi` is no expression, in both forms |
| `Examples.AssignWithoutSpaces` | src/main.rs:49-59 | `val<-not(true)` is the assignment of the negation of `true`, over the whole input |
| `Examples.TrueIsBoolean` | src/main.rs:49-57 | `true` is the boolean, although the identifier alternative is tried first |
| `Examples.LoneIdentifierFails` | src/main.rs:48-59 | `b` is no expression, in both forms |
| `Examples.EmptyClass` | src/main.rs:164-169 | `class N {}` is a class for every type name `N` |
| `Examples.InheritingClass` | src/main.rs:30 | `class N inherits B {}` is a class for every pair of type names `N` and `B`, ending right after `}` whatever follows |
| `Examples.TestInheritingClass` | src/main.rs:171-176 | `class Name inherits Base {}` is a class over the whole input, as one instance of `Examples.InheritingClass` |
| `Examples.OneClassProgram` | src/main.rs:28 | `class N {};` is a program for every type name `N`, and a whole one |
| `Examples.BlankProgramFails` | src/main.rs:28 | blank input is no program |
| `FeatureExamples.AttributeFormWithoutParen` | src/main.rs:32-34 | the method form of `feature` is tried first; where no `(` follows the name and its whitespace, `feature` is exactly its attribute form |
| `FeatureExamples.AttributeItem` | src/main.rs:34 | `count:Int<-0;` at any position is an attribute with an initializer followed by `;` |
| `FeatureExamples.PlainAttributeItem` | src/main.rs:34 | `x:Int;` at any position is an attribute without initializer followed by `;` |
| `FeatureExamples.MethodFormals` | src/main.rs:33-36 | the formal list `n:Int` of a method is one formal, and the list stops at `)` |
| `FeatureExamples.MethodItem` | src/main.rs:33 | `get(n:Int):Int{1};` at any position is a method followed by `;` |
| `FeatureExamples.CounterProgram` | src/main.rs:28-36 | a class with an attribute and a method, followed by `;`, is a class and a whole program |
| `FeatureExamples.SpaceAfterFeatureFails` | src/main.rs:30 | `class A {x:Int; }` is not a class: the features end at the space and `}` is missing |
| `FeatureExamples.SpaceAfterClassEndsProgram` | src/main.rs:28 | after `class N {};` and whitespace the program ends with the first class, whatever follows |

## Left out

- The oak macro, its runtime and the `#![show_api]` attribute (src/main.rs:1-9): the model is the grammar itself, one function per rule and per generated entry point.
- How oak reports a match that stops before the end of the input (partial against full success): the model returns the end position, and the examples state it.
- Stack depth: every expression rule of the generated parser is a recursive Rust function, so deep nesting such as `((((…))))` can overflow the stack; the model's recursion has no such bound.
- `main` and its `println!` (src/main.rs:206-208): output only.
- `Box` and the `PExpr` alias (src/main.rs:69): trees are plain datatype values.
- `to_string` (src/main.rs:92-94): identifier and type texts are taken directly as the matched substring.
- The `+` sign that `u32::from_str` would accept: `integer` only ever passes digits to `to_number`.
- The `Variable` constructor (src/main.rs:80): it is modelled, but no rule produces it, which `Parse.Expr` states.
- Values of the structural rules: `program`, `class`, `feature` and `formal` build nothing the repository uses, so they are recognisers.
- Structure.MethodFeature: its own contract states only the bounds of a match; the method form is pinned down on one input, by `FeatureExamples.MethodItem`.
- Structure.AttributeFeature: its own contract states only the bounds of a match; the attribute form is pinned down on two inputs, by `FeatureExamples.AttributeItem` and `FeatureExamples.PlainAttributeItem`.
- Structure.Formal: its own contract states only the bounds and the leading `ID`; one formal is pinned down by `FeatureExamples.MethodFormals`.
