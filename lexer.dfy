/** Lexical rules (src/main.rs:11-26) and the literal conversion `to_number`
    (src/main.rs:92-98). None of them runs a semantic action that can fail,
    so they serve both the value-building and the recognising grammar. */
module Lexer {
  import opened Results
  import opened Ast

  /** `digit = ["0-9"]`. */
  predicate IsDigit(c: char) { '0' <= c <= '9' }

  /** `caps = ["A-Z"]`. */
  predicate IsCaps(c: char) { 'A' <= c <= 'Z' }

  /** The class `digit` holds exactly the ten decimal digits. */
  lemma DigitClass(c: char)
    ensures IsDigit(c) <==> c in "0123456789"
  {
  }

  /** The class `caps` holds exactly the 26 capital letters. */
  lemma CapsClass(c: char)
    ensures IsCaps(c) <==> c in "ABCDEFGHIJKLMNOPQRSTUVWXYZ"
  {
  }

  predicate IsLower(c: char) { 'a' <= c <= 'z' }

  /** The class `["0-9A-Za-z_"]`. */
  predicate IsIdChar(c: char) { IsDigit(c) || IsCaps(c) || IsLower(c) || c == '_' }

  /** The class `[" \n\r\t"]`. */
  predicate IsSpace(c: char) { c == ' ' || c == '\n' || c == '\r' || c == '\t' }

  predicate AllDigits(s: string) { forall i :: 0 <= i < |s| ==> IsDigit(s[i]) }

  predicate AllSpaces(s: string) { forall i :: 0 <= i < |s| ==> IsSpace(s[i]) }

  /** Lookahead `&p`: the character at `pos` is in class `p`. At the end of the
      input there is no character, so no class matches there. */
  predicate Peek(input: string, pos: nat, p: char -> bool) {
    pos < |input| && p(input[pos])
  }

  /** Greedy repetition `[p]*`: the end of the longest run, from `pos`, of
      characters in class `p`. */
  function Span(input: string, pos: nat, p: char -> bool): (r: nat)
    requires pos <= |input|
    ensures pos <= r <= |input|
    ensures forall i :: pos <= i < r ==> p(input[i])
    ensures r == |input| || !p(input[r])
    decreases |input| - pos
  {
    if pos < |input| && p(input[pos]) then Span(input, pos + 1, p) else pos
  }

  /** A run in class `p` that ends where the class stops matching is the one
      `Span` finds. */
  lemma SpanIsUnique(input: string, pos: nat, p: char -> bool, e: nat)
    requires pos <= e <= |input|
    requires forall i :: pos <= i < e ==> p(input[i])
    requires e == |input| || !p(input[e])
    ensures Span(input, pos, p) == e
  {
  }

  /** The same, for a run given as the text `run` found at `pos`. */
  lemma SpanOverRun(input: string, pos: nat, run: string, p: char -> bool)
    requires pos + |run| <= |input| && input[pos..pos + |run|] == run
    requires forall i :: 0 <= i < |run| ==> p(run[i])
    requires pos + |run| == |input| || !p(input[pos + |run|])
    ensures Span(input, pos, p) == pos + |run|
  {
    forall i | pos <= i < pos + |run| ensures p(input[i]) {
      assert input[i] == input[pos..pos + |run|][i - pos];
    }
    SpanIsUnique(input, pos, p, pos + |run|);
  }

  /** The characters of `run` keep their class inside `pre + run + post`. */
  lemma RunInside(pre: string, run: string, post: string, p: char -> bool)
    requires forall i :: 0 <= i < |run| ==> p(run[i])
    ensures forall i :: |pre| <= i < |pre| + |run| ==> p((pre + run + post)[i])
  {
    forall i | |pre| <= i < |pre| + |run| ensures p((pre + run + post)[i]) {
      assert (pre + run + post)[i] == run[i - |pre|];
    }
  }

  /** `spacing`: skips every space, newline, carriage return and tab; never fails. */
  function Spacing(input: string, pos: nat): (r: nat)
    requires pos <= |input|
    ensures pos <= r <= |input|
    ensures AllSpaces(input[pos..r])
    ensures r == |input| || !IsSpace(input[r])
  {
    var r := Span(input, pos, IsSpace);
    assert forall i :: 0 <= i < r - pos ==> input[pos..r][i] == input[pos + i];
    r
  }

  /** `ID = !digit !caps ["0-9A-Za-z_"]+`: the identifier text and the
      position after it. No whitespace is skipped. */
  function Id(input: string, pos: nat): (r: Option<(string, nat)>)
    requires pos <= |input|
    ensures r.Some? <==> pos < |input| && (IsLower(input[pos]) || input[pos] == '_')
    ensures r.Some? ==>
      var (name, next) := r.value;
      && pos < next <= |input|
      && name == input[pos..next]
      && (forall i :: pos <= i < next ==> IsIdChar(input[i]))
      && (next == |input| || !IsIdChar(input[next]))
  {
    if Peek(input, pos, IsDigit) || Peek(input, pos, IsCaps) then None
    else
      var next := Span(input, pos, IsIdChar);
      if next == pos then None else Some((input[pos..next], next))
  }

  /** `TYPE = !digit &caps ["0-9A-Za-z_"]+`: the type name and the position
      after it. No whitespace is skipped. */
  function TypeName(input: string, pos: nat): (r: Option<(string, nat)>)
    requires pos <= |input|
    ensures r.Some? <==> pos < |input| && IsCaps(input[pos])
    ensures r.Some? ==>
      var (name, next) := r.value;
      && pos < next <= |input|
      && name == input[pos..next]
      && (forall i :: pos <= i < next ==> IsIdChar(input[i]))
      && (next == |input| || !IsIdChar(input[next]))
  {
    if Peek(input, pos, IsDigit) || !Peek(input, pos, IsCaps) then None
    else
      var next := Span(input, pos, IsIdChar);
      if next == pos then None else Some((input[pos..next], next))
  }

  /** The two lexical classes are disjoint: no position starts both an
      identifier and a type name. */
  lemma IdAndTypeNameDisjoint(input: string, pos: nat)
    requires pos <= |input|
    ensures !(Id(input, pos).Some? && TypeName(input, pos).Some?)
  {
  }

  /** On a token that is a whole run of identifier characters, `Id` and
      `TypeName` each read exactly that token, and which of them applies is
      decided by its first character alone. */
  lemma {:induction false} TokenClass(pre: string, token: string, rest: string)
    requires |token| > 0 && forall i :: 0 <= i < |token| ==> IsIdChar(token[i])
    requires rest == [] || !IsIdChar(rest[0])
    ensures var input := pre + token + rest;
      && (Id(input, |pre|).Some? <==> !IsDigit(token[0]) && !IsCaps(token[0]))
      && (Id(input, |pre|).Some? ==> Id(input, |pre|).value == (token, |pre| + |token|))
      && (TypeName(input, |pre|).Some? <==> IsCaps(token[0]))
      && (TypeName(input, |pre|).Some? ==> TypeName(input, |pre|).value == (token, |pre| + |token|))
  {
    var input := pre + token + rest;
    var e := |pre| + |token|;
    assert forall i :: |pre| <= i < e ==> input[i] == token[i - |pre|];
    assert e < |input| ==> input[e] == rest[0];
    SpanIsUnique(input, |pre|, IsIdChar, e);
    assert input[|pre|..e] == token;
  }

  /** Value of one decimal digit. */
  function DigitValue(c: char): (d: nat)
    requires IsDigit(c)
    ensures d < 10
  {
    (c as int) - ('0' as int)
  }

  /** The digit character of `d`. */
  function DigitChar(d: nat): (c: char)
    requires d < 10
    ensures IsDigit(c) && DigitValue(c) == d
  {
    ('0' as int + d) as char
  }

  /** Value of a digit string read in base 10, most significant digit first,
      with no bound on its size. */
  function DecimalValue(digits: string): nat
    requires AllDigits(digits)
    decreases |digits|
  {
    if digits == [] then 0
    else DecimalValue(digits[..|digits| - 1]) * 10 + DigitValue(digits[|digits| - 1])
  }

  /** Reference rendering of a number in base 10, without leading zeros. */
  function DecimalDigits(n: nat): (s: string)
    ensures |s| > 0 && AllDigits(s)
  {
    if n < 10 then [DigitChar(n)] else DecimalDigits(n / 10) + [DigitChar(n % 10)]
  }

  /** Reading back the rendering of `n` gives `n`. */
  lemma {:induction false} DecimalRoundTrip(n: nat)
    ensures DecimalValue(DecimalDigits(n)) == n
  {
    var s := DecimalDigits(n);
    if n >= 10 {
      DecimalRoundTrip(n / 10);
      assert s[..|s| - 1] == DecimalDigits(n / 10);
    }
  }

  /** Leading zeros do not change the value. */
  lemma {:induction false} LeadingZero(digits: string)
    requires AllDigits(digits)
    ensures AllDigits("0" + digits) && DecimalValue("0" + digits) == DecimalValue(digits)
    decreases |digits|
  {
    var s := "0" + digits;
    if digits != [] {
      assert s[..|s| - 1] == "0" + digits[..|digits| - 1];
      LeadingZero(digits[..|digits| - 1]);
    }
  }

  /** `to_number`: `u32::from_str(...).unwrap()` on a digit string. `None`
      stands for the panic of `unwrap`: the text is empty or its value does
      not fit in 32 bits. */
  function ToNumber(digits: string): (r: Option<U32>)
    requires AllDigits(digits)
    ensures r.Some? <==> |digits| > 0 && DecimalValue(digits) <= U32_MAX
    ensures r.Some? ==> r.value as int == DecimalValue(digits)
  {
    if digits == [] then None
    else
      var v := DecimalValue(digits);
      if v <= U32_MAX then Some(v) else None
  }

  /** Every `u32` survives rendering and conversion. */
  lemma ToNumberRoundTrip(n: U32)
    ensures ToNumber(DecimalDigits(n)) == Some(n)
  {
    DecimalRoundTrip(n);
  }

  /** A literal string at `pos`, with no whitespace skipped before or after. */
  function Lit(input: string, pos: nat, s: string): (r: Option<nat>)
    requires pos <= |input|
    ensures r.Some? <==> pos + |s| <= |input| && input[pos..pos + |s|] == s
    ensures r.Some? ==> r.value == pos + |s|
    ensures r.Some? && |s| > 0 ==> input[pos] == s[0]
  {
    if pos + |s| <= |input| && input[pos..pos + |s|] == s then
      assert |s| > 0 ==> input[pos] == input[pos..pos + |s|][0];
      Some(pos + |s|)
    else None
  }

  /** `q` is where `spacing` ends when it starts at `from`: every character
      in between is whitespace, and the one at `q`, if any, is not. */
  predicate SpacedTo(input: string, from: nat, q: nat) {
    from <= q <= |input| && AllSpaces(input[from..q]) && (q == |input| || !IsSpace(input[q]))
  }

  /** A literal string followed by `spacing`, whose whitespace is discarded:
      it matches exactly where the text is, and ends after the text and all
      the whitespace that follows it. */
  function Token(input: string, pos: nat, s: string): (r: Option<nat>)
    requires pos <= |input|
    ensures r.Some? <==> pos + |s| <= |input| && input[pos..pos + |s|] == s
    ensures r.Some? ==> SpacedTo(input, pos + |s|, r.value)
  {
    var p :- Lit(input, pos, s);
    Some(Spacing(input, p))
  }

  /** `add_op = "+" spacing`. */
  function AddOp(input: string, pos: nat): (r: Option<nat>)
    requires pos <= |input|
    ensures r.Some? <==> pos < |input| && input[pos] == '+'
    ensures r.Some? ==> SpacedTo(input, pos + 1, r.value)
  {
    OperatorTerminal(input, pos, '+');
    Token(input, pos, "+")
  }

  /** `sub_op = "-" spacing`. */
  function SubOp(input: string, pos: nat): (r: Option<nat>)
    requires pos <= |input|
    ensures r.Some? <==> pos < |input| && input[pos] == '-'
    ensures r.Some? ==> SpacedTo(input, pos + 1, r.value)
  {
    OperatorTerminal(input, pos, '-');
    Token(input, pos, "-")
  }

  /** `mul_op = "*" spacing`. */
  function MulOp(input: string, pos: nat): (r: Option<nat>)
    requires pos <= |input|
    ensures r.Some? <==> pos < |input| && input[pos] == '*'
    ensures r.Some? ==> SpacedTo(input, pos + 1, r.value)
  {
    OperatorTerminal(input, pos, '*');
    Token(input, pos, "*")
  }

  /** `div_op = "/" spacing`. */
  function DivOp(input: string, pos: nat): (r: Option<nat>)
    requires pos <= |input|
    ensures r.Some? <==> pos < |input| && input[pos] == '/'
    ensures r.Some? ==> SpacedTo(input, pos + 1, r.value)
  {
    OperatorTerminal(input, pos, '/');
    Token(input, pos, "/")
  }

  /** `lparen = "(" spacing`. */
  function LParen(input: string, pos: nat): (r: Option<nat>)
    requires pos <= |input|
    ensures r.Some? <==> pos < |input| && input[pos] == '('
    ensures r.Some? ==> SpacedTo(input, pos + 1, r.value)
  {
    OperatorTerminal(input, pos, '(');
    Token(input, pos, "(")
  }

  /** `rparen = ")" spacing`. */
  function RParen(input: string, pos: nat): (r: Option<nat>)
    requires pos <= |input|
    ensures r.Some? <==> pos < |input| && input[pos] == ')'
    ensures r.Some? ==> SpacedTo(input, pos + 1, r.value)
  {
    OperatorTerminal(input, pos, ')');
    Token(input, pos, ")")
  }

  /** A one-character terminal matches exactly when its character is next. */
  lemma OperatorTerminal(input: string, pos: nat, c: char)
    requires pos <= |input|
    ensures Token(input, pos, [c]).Some? <==> pos < |input| && input[pos] == c
  {
    if pos < |input| {
      assert input[pos..pos + 1] == [input[pos]];
    }
  }
}
