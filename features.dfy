/** The structural grammar of src/main.rs:28-36 on particular inputs: a
    class with an attribute and a method, the order in which `feature`
    tries its two forms, and where the absence of implicit whitespace
    after `;` ends a class body or a program. */
module FeatureExamples {
  import opened Results
  import opened Lexer
  import Recognize
  import Properties
  import Examples
  import Structure

  /** `spacing` at a character that is not whitespace matches nothing. */
  lemma NoSpacing(input: string, pos: nat)
    requires pos <= |input| && (pos == |input| || !IsSpace(input[pos]))
    ensures Spacing(input, pos) == pos
  {
    SpanIsUnique(input, pos, IsSpace, pos);
  }

  /** `TYPE` over a run of identifier characters that starts with a capital. */
  lemma TypeNameAt(input: string, pos: nat, next: nat)
    requires pos < next <= |input| && IsCaps(input[pos])
    requires forall i :: pos <= i < next ==> IsIdChar(input[i])
    requires next == |input| || !IsIdChar(input[next])
    ensures TypeName(input, pos) == Some((input[pos..next], next))
  {
    SpanIsUnique(input, pos, IsIdChar, next);
  }

  /** A one-digit literal followed by a character that continues no
      expression is recognised as a whole expression. */
  lemma DigitExpr(input: string, pos: nat)
    requires pos + 1 < |input| && IsDigit(input[pos])
    requires input[pos + 1] in ";}"
    ensures Recognize.Expr(input, pos) == Some(pos + 1)
  {
    Properties.NumberExpr(input, pos, pos + 1, pos + 1);
  }

  /** `feature` tries the method form first, and the method form needs `(`
      after the name and its whitespace: where that is missing, `feature`
      is exactly its attribute form. */
  lemma AttributeFormWithoutParen(input: string, pos: nat)
    requires pos <= |input| && Id(input, pos).Some?
    requires var p := Spacing(input, Id(input, pos).value.1); p == |input| || input[p] != '('
    ensures Structure.Feature(input, pos) == Structure.AttributeFeature(input, pos)
  {
    assert Structure.MethodFeature(input, pos).None?;
  }

  /** The characters of a text found at `pos`. */
  lemma TextAt(input: string, pos: nat, s: string)
    requires pos + |s| <= |input| && input[pos..pos + |s|] == s
    ensures forall k :: 0 <= k < |s| ==> input[pos + k] == s[k]
  {
    forall k | 0 <= k < |s| ensures input[pos + k] == s[k] {
      assert input[pos..pos + |s|][k] == input[pos + k];
    }
  }

  /** A part of a text found at `pos` is found inside it. */
  lemma SubText(input: string, pos: nat, s: string, i: nat, j: nat)
    requires pos + |s| <= |input| && input[pos..pos + |s|] == s
    requires i <= j <= |s|
    ensures input[pos + i..pos + j] == s[i..j]
  {
    forall k | 0 <= k < j - i ensures input[pos + i..pos + j][k] == s[i..j][k] {
      assert input[pos + i + k] == input[pos..pos + |s|][i + k];
    }
  }

  /** A run of identifier characters inside a text found at `pos` is one in
      the input. */
  lemma IdCharsAt(input: string, pos: nat, s: string, i: nat, j: nat)
    requires pos + |s| <= |input| && input[pos..pos + |s|] == s
    requires i <= j <= |s| && forall k :: i <= k < j ==> IsIdChar(s[k])
    ensures forall m :: pos + i <= m < pos + j ==> IsIdChar(input[m])
  {
    forall m | pos + i <= m < pos + j ensures IsIdChar(input[m]) {
      assert input[m] == input[pos..pos + |s|][m - pos];
    }
  }

  /** The middle part of a concatenation is found after the first. */
  lemma Middle(pre: string, mid: string, post: string)
    ensures var input := pre + mid + post;
      |pre| + |mid| <= |input| && input[|pre|..|pre| + |mid|] == mid
  {
  }

  lemma AttributeName(input: string, pos: nat)
    requires pos + 13 <= |input| && input[pos..pos + 13] == "count:Int<-0;"
    ensures Id(input, pos).Some? && Id(input, pos).value.1 == pos + 5
  {
    TextAt(input, pos, "count:Int<-0;");
    IdCharsAt(input, pos, "count:Int<-0;", 0, 5);
    Examples.IdAt(input, pos, pos + 5);
  }

  lemma AttributeColon(input: string, pos: nat)
    requires pos + 13 <= |input| && input[pos..pos + 13] == "count:Int<-0;"
    ensures Spacing(input, pos + 5) == pos + 5 && Lit(input, pos + 5, ":") == Some(pos + 6)
    ensures Spacing(input, pos + 6) == pos + 6
  {
    TextAt(input, pos, "count:Int<-0;");
    NoSpacing(input, pos + 5);
    SubText(input, pos, "count:Int<-0;", 5, 6);
    NoSpacing(input, pos + 6);
  }

  lemma AttributeType(input: string, pos: nat)
    requires pos + 13 <= |input| && input[pos..pos + 13] == "count:Int<-0;"
    ensures TypeName(input, pos + 6).Some? && TypeName(input, pos + 6).value.1 == pos + 9
  {
    TextAt(input, pos, "count:Int<-0;");
    IdCharsAt(input, pos, "count:Int<-0;", 6, 9);
    TypeNameAt(input, pos + 6, pos + 9);
  }

  lemma AttributeInitializer(input: string, pos: nat)
    requires pos + 13 <= |input| && input[pos..pos + 13] == "count:Int<-0;"
    ensures Structure.Initializer(input, pos + 9) == Some(pos + 12)
  {
    TextAt(input, pos, "count:Int<-0;");
    SubText(input, pos, "count:Int<-0;", 9, 11);
    DigitExpr(input, pos + 11);
  }

  lemma AttributeEnd(input: string, pos: nat)
    requires pos + 13 <= |input| && input[pos..pos + 13] == "count:Int<-0;"
    ensures Spacing(input, pos + 12) == pos + 12
    ensures Lit(input, pos + 12, ";") == Some(pos + 13)
  {
    TextAt(input, pos, "count:Int<-0;");
    NoSpacing(input, pos + 12);
    Examples.SemicolonAt(input, pos + 12);
  }

  /** `count:Int<-0;` is an attribute with an initializer, then `;`. */
  lemma AttributeItem(input: string, pos: nat)
    requires pos + 13 <= |input| && input[pos..pos + 13] == "count:Int<-0;"
    ensures Structure.Feature(input, pos) == Some(pos + 12)
    ensures Structure.FeatureItem(input, pos) == Some(pos + 13)
  {
    AttributeName(input, pos);
    AttributeColon(input, pos);
    AttributeType(input, pos);
    AttributeInitializer(input, pos);
    AttributeEnd(input, pos);
    AttributeFormWithoutParen(input, pos);
  }

  lemma MethodFormal(input: string, pos: nat)
    requires pos + 18 <= |input| && input[pos..pos + 18] == "get(n:Int):Int{1};"
    ensures Structure.Formal(input, pos + 4) == Some(pos + 9)
  {
    TextAt(input, pos, "get(n:Int):Int{1};");
    Examples.IdAt(input, pos + 4, pos + 5);
    SubText(input, pos, "get(n:Int):Int{1};", 5, 6);
    IdCharsAt(input, pos, "get(n:Int):Int{1};", 6, 9);
    assert input[pos + 6] == 'I';
    TypeNameAt(input, pos + 6, pos + 9);
  }

  lemma MethodFormals(input: string, pos: nat)
    requires pos + 18 <= |input| && input[pos..pos + 18] == "get(n:Int):Int{1};"
    ensures Structure.Formals(input, pos + 4) == pos + 9
  {
    MethodFormal(input, pos);
    TextAt(input, pos, "get(n:Int):Int{1};");
    NoSpacing(input, pos + 9);
    assert Structure.MoreFormal(input, pos + 9).None?;
  }

  lemma MethodName(input: string, pos: nat)
    requires pos + 18 <= |input| && input[pos..pos + 18] == "get(n:Int):Int{1};"
    ensures Id(input, pos).Some? && Id(input, pos).value.1 == pos + 3
  {
    TextAt(input, pos, "get(n:Int):Int{1};");
    IdCharsAt(input, pos, "get(n:Int):Int{1};", 0, 3);
    Examples.IdAt(input, pos, pos + 3);
  }

  lemma MethodOpen(input: string, pos: nat)
    requires pos + 18 <= |input| && input[pos..pos + 18] == "get(n:Int):Int{1};"
    ensures Spacing(input, pos + 3) == pos + 3 && Lit(input, pos + 3, "(") == Some(pos + 4)
    ensures Spacing(input, pos + 4) == pos + 4
  {
    TextAt(input, pos, "get(n:Int):Int{1};");
    NoSpacing(input, pos + 3);
    SubText(input, pos, "get(n:Int):Int{1};", 3, 4);
    NoSpacing(input, pos + 4);
  }

  lemma MethodClose(input: string, pos: nat)
    requires pos + 18 <= |input| && input[pos..pos + 18] == "get(n:Int):Int{1};"
    ensures Spacing(input, pos + 9) == pos + 9 && Lit(input, pos + 9, ")") == Some(pos + 10)
    ensures Lit(input, pos + 10, ":") == Some(pos + 11)
  {
    TextAt(input, pos, "get(n:Int):Int{1};");
    NoSpacing(input, pos + 9);
    SubText(input, pos, "get(n:Int):Int{1};", 9, 10);
    SubText(input, pos, "get(n:Int):Int{1};", 10, 11);
  }

  lemma MethodType(input: string, pos: nat)
    requires pos + 18 <= |input| && input[pos..pos + 18] == "get(n:Int):Int{1};"
    ensures TypeName(input, pos + 11).Some? && TypeName(input, pos + 11).value.1 == pos + 14
  {
    TextAt(input, pos, "get(n:Int):Int{1};");
    IdCharsAt(input, pos, "get(n:Int):Int{1};", 11, 14);
    TypeNameAt(input, pos + 11, pos + 14);
  }

  lemma MethodBody(input: string, pos: nat)
    requires pos + 18 <= |input| && input[pos..pos + 18] == "get(n:Int):Int{1};"
    ensures Lit(input, pos + 14, "{") == Some(pos + 15)
    ensures Recognize.Expr(input, pos + 15) == Some(pos + 16)
    ensures Lit(input, pos + 16, "}") == Some(pos + 17)
  {
    TextAt(input, pos, "get(n:Int):Int{1};");
    SubText(input, pos, "get(n:Int):Int{1};", 14, 15);
    DigitExpr(input, pos + 15);
    SubText(input, pos, "get(n:Int):Int{1};", 16, 17);
  }

  lemma MethodEnd(input: string, pos: nat)
    requires pos + 18 <= |input| && input[pos..pos + 18] == "get(n:Int):Int{1};"
    ensures Spacing(input, pos + 17) == pos + 17
    ensures Lit(input, pos + 17, ";") == Some(pos + 18)
  {
    TextAt(input, pos, "get(n:Int):Int{1};");
    NoSpacing(input, pos + 17);
    Examples.SemicolonAt(input, pos + 17);
  }

  /** `get(n:Int):Int{1};` is a method with one formal parameter, then `;`. */
  lemma MethodItem(input: string, pos: nat)
    requires pos + 18 <= |input| && input[pos..pos + 18] == "get(n:Int):Int{1};"
    ensures Structure.Feature(input, pos) == Some(pos + 17)
    ensures Structure.FeatureItem(input, pos) == Some(pos + 18)
  {
    MethodName(input, pos);
    MethodOpen(input, pos);
    MethodFormals(input, pos);
    MethodClose(input, pos);
    MethodType(input, pos);
    MethodBody(input, pos);
    MethodEnd(input, pos);
    assert Structure.MethodFeature(input, pos) == Some(pos + 17);
  }

  // The class `Counter`, with the attribute and the method above, as a
  // one-class program: the name at 6, `{` at 14, the attribute at 15, the
  // method at 28, `}` at 46, `;` at 47.

  lemma CounterParts(input: string)
    requires input == "class Counter {" + "count:Int<-0;" + "get(n:Int):Int{1};" + "};"
    ensures input[15..28] == "count:Int<-0;" && input[28..46] == "get(n:Int):Int{1};"
    ensures input[46] == '}' && input[47] == ';' && |input| == 48
  {
    Middle("class Counter {", "count:Int<-0;", "get(n:Int):Int{1};" + "};");
    Middle("class Counter {" + "count:Int<-0;", "get(n:Int):Int{1};", "};");
  }

  lemma CounterFeatures(input: string)
    requires input == "class Counter {" + "count:Int<-0;" + "get(n:Int):Int{1};" + "};"
    ensures Structure.Features(input, 15) == 46
  {
    CounterParts(input);
    AttributeItem(input, 15);
    MethodItem(input, 28);
    Examples.NoFeatureAt(input, 46);
  }

  lemma CounterBrace(input: string)
    requires input == "class Counter {" + "count:Int<-0;" + "get(n:Int):Int{1};" + "};"
    ensures Spacing(input, 13) == 14 && Lit(input, 14, "{") == Some(15)
    ensures Spacing(input, 15) == 15
  {
    CounterParts(input);
    assert input[13] == ' ' && input[14] == '{' && input[15] == 'c';
    SpanIsUnique(input, 13, IsSpace, 14);
    assert input[14..15] == "{";
    NoSpacing(input, 15);
  }

  lemma CounterBody(input: string)
    requires input == "class Counter {" + "count:Int<-0;" + "get(n:Int):Int{1};" + "};"
    ensures Structure.ClassBody(input, 13) == Some(47)
  {
    CounterBrace(input);
    CounterFeatures(input);
    CounterParts(input);
    assert input[46..47] == "}";
  }

  lemma CounterPrefix(input: string)
    requires input == "class Counter {" + "count:Int<-0;" + "get(n:Int):Int{1};" + "};"
    ensures 15 <= |input| && input[0..15] == "class Counter {"
  {
    assert input == "class Counter {" + ("count:Int<-0;" + "get(n:Int):Int{1};" + "};");
  }

  lemma CounterKeyword(input: string)
    requires input == "class Counter {" + "count:Int<-0;" + "get(n:Int):Int{1};" + "};"
    ensures Lit(input, 0, "class") == Some(5) && Spacing(input, 5) == 6
  {
    CounterPrefix(input);
    TextAt(input, 0, "class Counter {");
    assert input[0..5] == "class";
    SpanIsUnique(input, 5, IsSpace, 6);
  }

  lemma CounterName(input: string)
    requires input == "class Counter {" + "count:Int<-0;" + "get(n:Int):Int{1};" + "};"
    ensures TypeName(input, 6).Some? && TypeName(input, 6).value.1 == 13
  {
    CounterPrefix(input);
    TextAt(input, 0, "class Counter {");
    IdCharsAt(input, 0, "class Counter {", 6, 13);
    TypeNameAt(input, 6, 13);
  }

  lemma CounterNoInherits(input: string)
    requires input == "class Counter {" + "count:Int<-0;" + "get(n:Int):Int{1};" + "};"
    ensures Structure.Inherits(input, 13).None?
  {
    CounterPrefix(input);
    TextAt(input, 0, "class Counter {");
    SpanIsUnique(input, 13, IsSpace, 14);
    assert Lit(input, 14, "inherits").None?;
  }

  lemma CounterHead(input: string)
    requires input == "class Counter {" + "count:Int<-0;" + "get(n:Int):Int{1};" + "};"
    ensures Lit(input, 0, "class") == Some(5) && Spacing(input, 5) == 6
    ensures TypeName(input, 6).Some? && TypeName(input, 6).value.1 == 13
    ensures Structure.Inherits(input, 13).None?
  {
    CounterKeyword(input);
    CounterName(input);
    CounterNoInherits(input);
  }

  /** A class with an attribute and a method, followed by `;`, is a whole
      program. */
  lemma CounterProgram(input: string)
    requires input == "class Counter {" + "count:Int<-0;" + "get(n:Int):Int{1};" + "};"
    ensures Structure.Class(input, 0) == Some(47)
    ensures Structure.Program(input, 0) == Some(48)
  {
    CounterHead(input);
    CounterBody(input);
    CounterParts(input);
    assert input[0] == 'c';
    NoSpacing(input, 0);
    Examples.SemicolonAt(input, 47);
    assert Structure.ClassItem(input, 0) == Some(48);
    assert Structure.ClassItem(input, 48).None?;
  }

  // Whitespace after `;`.

  lemma PlainAttributeHead(input: string, pos: nat)
    requires pos + 6 <= |input| && input[pos..pos + 6] == "x:Int;"
    ensures Id(input, pos).Some? && Id(input, pos).value.1 == pos + 1
    ensures Spacing(input, pos + 1) == pos + 1 && Lit(input, pos + 1, ":") == Some(pos + 2)
    ensures Spacing(input, pos + 2) == pos + 2
  {
    TextAt(input, pos, "x:Int;");
    Examples.IdAt(input, pos, pos + 1);
    NoSpacing(input, pos + 1);
    SubText(input, pos, "x:Int;", 1, 2);
    NoSpacing(input, pos + 2);
  }

  lemma PlainAttributeType(input: string, pos: nat)
    requires pos + 6 <= |input| && input[pos..pos + 6] == "x:Int;"
    ensures TypeName(input, pos + 2).Some? && TypeName(input, pos + 2).value.1 == pos + 5
    ensures Structure.Initializer(input, pos + 5).None?
    ensures Spacing(input, pos + 5) == pos + 5 && Lit(input, pos + 5, ";") == Some(pos + 6)
  {
    TextAt(input, pos, "x:Int;");
    IdCharsAt(input, pos, "x:Int;", 2, 5);
    TypeNameAt(input, pos + 2, pos + 5);
    NoSpacing(input, pos + 5);
    Examples.SemicolonAt(input, pos + 5);
  }

  /** `x:Int;` is an attribute without initializer, then `;`. */
  lemma PlainAttributeItem(input: string, pos: nat)
    requires pos + 6 <= |input| && input[pos..pos + 6] == "x:Int;"
    ensures Structure.FeatureItem(input, pos) == Some(pos + 6)
  {
    PlainAttributeHead(input, pos);
    PlainAttributeType(input, pos);
    AttributeFormWithoutParen(input, pos);
  }

  lemma SpacedBodyParts(input: string)
    requires input == "class A {" + "x:Int;" + " }"
    ensures input[9..15] == "x:Int;" && input[15] == ' ' && |input| == 17
    ensures input[7] == ' ' && input[8] == '{' && input[9] == 'x'
  {
    Middle("class A {", "x:Int;", " }");
  }

  lemma SpacedBodyHead(input: string)
    requires input == "class A {" + "x:Int;" + " }"
    ensures Lit(input, 0, "class") == Some(5) && Spacing(input, 5) == 6
    ensures TypeName(input, 6).Some? && TypeName(input, 6).value.1 == 7
    ensures Structure.Inherits(input, 7).None?
  {
    var tail := " {" + "x:Int;" + " }";
    assert input == "class " + "A" + tail;
    Examples.ClassHead("A", tail);
    SpacedBodyParts(input);
    SpanIsUnique(input, 7, IsSpace, 8);
    assert Lit(input, 8, "inherits").None?;
  }

  /** After a feature's `;` no whitespace is skipped: in `class A {x:Int; }`
      the features end at the space, where `}` is missing, so this is not a
      class. */
  lemma SpaceAfterFeatureFails(input: string)
    requires input == "class A {" + "x:Int;" + " }"
    ensures Structure.Class(input, 0).None?
  {
    SpacedBodyHead(input);
    SpacedBodyParts(input);
    SpanIsUnique(input, 7, IsSpace, 8);
    assert input[8..9] == "{";
    NoSpacing(input, 9);
    PlainAttributeItem(input, 9);
    Examples.NoFeatureAt(input, 15);
    assert Structure.ClassBody(input, 7).None?;
  }

  lemma SpacedClassItem(input: string, name: string, rest: string)
    requires |name| > 0 && IsCaps(name[0]) && forall i :: 0 <= i < |name| ==> IsIdChar(name[i])
    requires |rest| > 0 && IsSpace(rest[0])
    requires input == "class " + name + " {};" + rest
    ensures Structure.ClassItem(input, 0).Some?
    ensures Structure.ClassItem(input, 0).value == 10 + |name|
    ensures IsSpace(input[10 + |name|])
  {
    SpacedClassText(input, name, rest);
    Examples.EmptyClass(input, name, ";" + rest);
    ClassThenSemicolon(input, 9 + |name|);
  }

  lemma SpacedClassText(input: string, name: string, rest: string)
    requires |rest| > 0 && IsSpace(rest[0])
    requires input == "class " + name + " {};" + rest
    ensures input == "class " + name + " {}" + (";" + rest)
    ensures 10 + |name| < |input| && input[9 + |name|] == ';' && IsSpace(input[10 + |name|])
  {
    assert input[10 + |name|] == rest[0];
  }

  /** A class ending at `e`, followed by `;`, is a class item. */
  lemma ClassThenSemicolon(input: string, e: nat)
    requires e < |input| && input[e] == ';'
    requires Structure.Class(input, 0) == Some(e)
    ensures Structure.ClassItem(input, 0) == Some(e + 1)
  {
    Examples.SemicolonAt(input, e);
  }

  /** Nor is whitespace skipped between classes: after `class N {};` and
      whitespace, the program ends after the first class, whatever
      follows. */
  lemma SpaceAfterClassEndsProgram(input: string, name: string, rest: string)
    requires |name| > 0 && IsCaps(name[0]) && forall i :: 0 <= i < |name| ==> IsIdChar(name[i])
    requires |rest| > 0 && IsSpace(rest[0])
    requires input == "class " + name + " {};" + rest
    ensures Structure.Program(input, 0) == Some(10 + |name|)
  {
    var n := |name|;
    SpacedClassItem(input, name, rest);
    assert input[0] == 'c';
    NoSpacing(input, 0);
    assert Lit(input, 10 + n, "class").None?;
    assert Structure.ClassItem(input, 10 + n).None?;
  }
}
