/** The structural grammar of src/main.rs:28-36: `program`, `class`,
    `feature`, `formal`. These rules build nothing (`feature` discards its
    value with `-> (^)`), so they are modelled as recognisers, and the
    expressions inside features are recognised with `Recognize.Expr`.
    Apart from the explicit `spc`, nothing here skips whitespace. */
module Structure {
  import opened Results
  import opened Lexer
  import Recognize

  /** `formal = ID ":" TYPE`. */
  function Formal(input: string, pos: nat): (r: Option<nat>)
    requires pos <= |input|
    ensures r.Some? ==> pos + 2 < r.value <= |input|
    ensures r.Some? ==> Id(input, pos).Some?
  {
    var id :- Id(input, pos);
    var p1 :- Lit(input, id.1, ":");
    var ty :- TypeName(input, p1);
    Some(ty.1)
  }

  /** One iteration of `(spc "," spc formal spc)*`. */
  function MoreFormal(input: string, pos: nat): (r: Option<nat>)
    requires pos <= |input|
    ensures r.Some? ==> pos < r.value <= |input|
  {
    var p1 :- Lit(input, Spacing(input, pos), ",");
    var p2 :- Formal(input, Spacing(input, p1));
    Some(Spacing(input, p2))
  }

  /** `(spc "," spc formal spc)*`. */
  function MoreFormals(input: string, pos: nat): (r: nat)
    requires pos <= |input|
    ensures pos <= r <= |input|
    decreases |input| - pos
  {
    match MoreFormal(input, pos)
    case None => pos
    case Some(p) => MoreFormals(input, p)
  }

  /** `(formal (spc "," spc formal spc)*)?`. */
  function Formals(input: string, pos: nat): (r: nat)
    requires pos <= |input|
    ensures pos <= r <= |input|
  {
    match Formal(input, pos)
    case None => pos
    case Some(p) => MoreFormals(input, p)
  }

  /** The method form of `feature`:
      `ID spc "(" spc formals spc ")" ":" TYPE "{" expr "}" spc`. */
  function MethodFeature(input: string, pos: nat): (r: Option<nat>)
    requires pos <= |input|
    ensures r.Some? ==> pos < r.value <= |input|
  {
    var id :- Id(input, pos);
    var p1 :- Lit(input, Spacing(input, id.1), "(");
    var p2 := Spacing(input, Formals(input, Spacing(input, p1)));
    var p3 :- Lit(input, p2, ")");
    var p4 :- Lit(input, p3, ":");
    var ty :- TypeName(input, p4);
    var p5 :- Lit(input, ty.1, "{");
    var p6 :- Recognize.Expr(input, p5);
    var p7 :- Lit(input, p6, "}");
    Some(Spacing(input, p7))
  }

  /** `("<-" expr)?` of an attribute, as a recogniser of the part itself. */
  function Initializer(input: string, pos: nat): (r: Option<nat>)
    requires pos <= |input|
    ensures r.Some? ==> pos + 2 < r.value <= |input|
  {
    var p1 :- Lit(input, pos, "<-");
    Recognize.Expr(input, p1)
  }

  /** The attribute form of `feature`: `ID spc ":" spc TYPE ("<-" expr)? spc`. */
  function AttributeFeature(input: string, pos: nat): (r: Option<nat>)
    requires pos <= |input|
    ensures r.Some? ==> pos < r.value <= |input|
  {
    var id :- Id(input, pos);
    var p1 :- Lit(input, Spacing(input, id.1), ":");
    var ty :- TypeName(input, Spacing(input, p1));
    var p2 := match Initializer(input, ty.1) case Some(q) => q case None => ty.1;
    Some(Spacing(input, p2))
  }

  /** `feature`: the method form first, then the attribute form. */
  function Feature(input: string, pos: nat): (r: Option<nat>)
    requires pos <= |input|
    ensures r.Some? ==> pos < r.value <= |input|
    ensures r.Some? ==> Id(input, pos).Some?
  {
    var asMethod := MethodFeature(input, pos);
    if asMethod.Some? then asMethod else AttributeFeature(input, pos)
  }

  /** One iteration of `(feature ";")*`. */
  function FeatureItem(input: string, pos: nat): (r: Option<nat>)
    requires pos <= |input|
    ensures r.Some? ==> pos < r.value <= |input|
  {
    var p1 :- Feature(input, pos);
    Lit(input, p1, ";")
  }

  /** `(feature ";")*`. */
  function Features(input: string, pos: nat): (r: nat)
    requires pos <= |input|
    ensures pos <= r <= |input|
    decreases |input| - pos
  {
    match FeatureItem(input, pos)
    case None => pos
    case Some(p) => Features(input, p)
  }

  /** `(spc "inherits" spc TYPE)?` of a class, as a recogniser of the part
      itself. */
  function Inherits(input: string, pos: nat): (r: Option<nat>)
    requires pos <= |input|
    ensures r.Some? ==> pos + 9 <= r.value <= |input|
  {
    var p1 :- Lit(input, Spacing(input, pos), "inherits");
    var ty :- TypeName(input, Spacing(input, p1));
    Some(ty.1)
  }

  /** `spc "{" spc (feature ";")* "}"`, the part of `class` after the
      optional `inherits` clause. */
  function ClassBody(input: string, pos: nat): (r: Option<nat>)
    requires pos <= |input|
    ensures r.Some? ==> pos + 2 <= r.value <= |input|
  {
    var p1 :- Lit(input, Spacing(input, pos), "{");
    var p2 := Features(input, Spacing(input, p1));
    Lit(input, p2, "}")
  }

  /** `class = "class" spc TYPE (spc "inherits" spc TYPE)? spc "{" spc
      (feature ";")* "}"`. */
  function Class(input: string, pos: nat): (r: Option<nat>)
    requires pos <= |input|
    ensures r.Some? ==> Lit(input, pos, "class").Some? && TypeName(input, Spacing(input, pos + 5)).Some?
    ensures r.Some? ==> pos + 8 <= r.value <= |input|
  {
    var p1 :- Lit(input, pos, "class");
    var ty :- TypeName(input, Spacing(input, p1));
    var p2 := match Inherits(input, ty.1) case Some(q) => q case None => ty.1;
    ClassBody(input, p2)
  }

  /** One iteration of `(class ";")+`. */
  function ClassItem(input: string, pos: nat): (r: Option<nat>)
    requires pos <= |input|
    ensures r.Some? ==> pos < r.value <= |input|
  {
    var p1 :- Class(input, pos);
    Lit(input, p1, ";")
  }

  /** The repetitions of `(class ";")+` after the first. */
  function MoreClasses(input: string, pos: nat): (r: nat)
    requires pos <= |input|
    ensures pos <= r <= |input|
    decreases |input| - pos
  {
    match ClassItem(input, pos)
    case None => pos
    case Some(p) => MoreClasses(input, p)
  }

  /** `program = spc (class ";")+`. */
  function Program(input: string, pos: nat): (r: Option<nat>)
    requires pos <= |input|
    ensures r.Some? <==> ClassItem(input, Spacing(input, pos)).Some?
    ensures r.Some? ==> pos < r.value <= |input|
  {
    var p1 :- ClassItem(input, Spacing(input, pos));
    Some(MoreClasses(input, p1))
  }
}
