// The mangler's unit-test vectors (compiler/tests/unit/test_mangler.cc),
// stated as lemmas about the functions of the Mangling module.
module ManglerTests {
  import opened Basics
  import opened Ids
  import Types
  import Ast
  import SourceLocs
  import opened Mangling

  /** make_fn: a non-extern function around a prototype, with an empty body. */
  function MakeFn(proto: Ast.FnPrototype): Ast.Decl
  {
    Ast.Decl(SourceLocs.Nonexistent, false, Ast.Fn(false, proto, Ast.Expr(SourceLocs.Nonexistent, Ast.Block([]), None)), false)
  }

  /** user_defined: a user-defined type without generics. */
  function UserDefined(moduleString: string, name: string): Types.Type
  {
    Types.UserType(SourceLocs.Nonexistent, QualifiedName(moduleString, name), [])
  }

  function Arg(t: Types.Type): Ast.Argument
  {
    Ast.Argument(SourceLocs.Nonexistent, "", t)
  }

  /** A module string of one part between "::"s walks that one part. */
  lemma OnePart(part: string)
    requires |part| > 0 && Avoids(part, ':')
    ensures ModuleParts("::" + part + "::") == [part]
  {
    var pieces := ["", part, ""];
    assert Join(pieces[2..], "::") == "";
    assert Join(pieces[1..], "::") == part + "::";
    assert Join(pieces, "::") == "::" + part + "::";
    SplitJoin(pieces, "::");
    assert NonEmpty(pieces[2..]) == [];
    assert NonEmpty(pieces[1..]) == [part];
  }

  /** A one-letter name that is neither a digit nor the separator's ':'. */
  predicate Letter(x: string)
  {
    |x| == 1 && !IsDigit(x[0]) && x[0] != ':'
  }

  /** A one-letter type in a one-letter module. */
  function OneLetterType(part: string, name: string): Types.Type
  {
    UserDefined("::" + part + "::", name)
  }

  /** Such a type is encodable: "1", the module, "U1", the name; it renders as "::", the module, "::", the name. */
  lemma OneLetterFacts(part: string, name: string)
    requires Letter(part) && Letter(name)
    ensures Mangleable(OneLetterType(part, name))
    ensures NamedEncoding(false, OneLetterType(part, name).id) == "1" + part + "U1" + name
    ensures RenderNamed(false, OneLetterType(part, name).id) == "::" + part + "::" + name
  {
    OnePart(part);
    assert ValidParts([part]);
    assert Dec(1) == "1";
    assert PartsPrefix([part]) == "1" + part;
    assert PartsText([part]) == part + "::";
  }

  /** A named type is encoded by the substitution step alone. */
  lemma NamedStep(t: Types.Type, subs: map<string, nat>, code: nat)
    requires t.UserType? && Mangleable(t)
    ensures EncodeType(t, subs, code) == Substitute(NamedEncoding(false, t.id), subs, code)
  {
  }

  /** Three types are encoded one after the other, each with the table the previous one leaves. */
  lemma ThreeSteps(a: Types.Type, b: Types.Type, c: Types.Type, subs: map<string, nat>, code: nat)
    requires Mangleable(a) && Mangleable(b) && Mangleable(c)
    ensures AllMangleable([a, b, c])
    ensures var e1 := EncodeType(a, subs, code);
            var e2 := EncodeType(b, e1.subs, e1.code);
            var e3 := EncodeType(c, e2.subs, e2.code);
            EncodeTypes([a, b, c], subs, code) == Encoded(e1.text + (e2.text + e3.text), e3.subs, e3.code)
  {
    var e1 := EncodeType(a, subs, code);
    var e2 := EncodeType(b, e1.subs, e1.code);
    var e3 := EncodeType(c, e2.subs, e2.code);
    assert [a, b, c][1..] == [b, c] && [b, c][1..] == [c] && [c][1..] == [];
    assert EncodeTypes([c], e2.subs, e2.code) == Encoded(e3.text + "", e3.subs, e3.code);
    assert e3.text + "" == e3.text;
  }

  /** The substitution steps for s, s, q and then q, with s and q distinct. */
  lemma SubstituteTwice(ss: string, qq: string)
    requires |ss| > 0 && |qq| > 0 && ss != qq
    ensures var e1 := Substitute(ss, map[], 0);
            var e2 := Substitute(ss, e1.subs, e1.code);
            var e3 := Substitute(qq, e2.subs, e2.code);
            var e4 := Substitute(qq, e3.subs, e3.code);
            e1.text + (e2.text + e3.text) == ss + "Z0_" + qq && e4.text == "Z1_"
  {
    assert Dec(0) == "0" && Dec(1) == "1";
  }

  /**
   * Two distinct named types `s` and `q` as the arguments s, s, q and then
   * the return type q: the repeated s is written "Z0_", the return type "Z1_".
   */
  lemma SubstitutionOrder(s: Types.Type, q: Types.Type)
    requires s.UserType? && q.UserType? && Mangleable(s) && Mangleable(q)
    requires NamedEncoding(false, s.id) != NamedEncoding(false, q.id)
    ensures var a := EncodeTypes([s, s, q], map[], 0);
            a.text == NamedEncoding(false, s.id) + "Z0_" + NamedEncoding(false, q.id)
            && EncodeType(q, a.subs, a.code).text == "Z1_"
  {
    var ss, qq := NamedEncoding(false, s.id), NamedEncoding(false, q.id);
    ThreeSteps(s, s, q, map[], 0);
    var e1 := EncodeType(s, map[], 0);
    var e2 := EncodeType(s, e1.subs, e1.code);
    var e3 := EncodeType(q, e2.subs, e2.code);
    NamedStep(s, map[], 0);
    NamedStep(s, e1.subs, e1.code);
    NamedStep(q, e2.subs, e2.code);
    NamedStep(q, e3.subs, e3.code);
    SubstituteTwice(ss, qq);
  }

  /** The root module walks no parts. */
  lemma RootHasNoParts()
    ensures ModuleParts("::") == []
  {
    var pieces := ["", ""];
    assert Join(pieces[1..], "::") == "";
    assert Join(pieces, "::") == "::";
    SplitJoin(pieces, "::");
    assert NonEmpty(pieces[1..]) == [];
  }

  /** f(s, s, q) -> q at the root, without attributes: the prototype of the MultipleSubstitutions test. */
  function MultiProto(s: Types.Type, q: Types.Type): Ast.FnPrototype
  {
    Ast.FnPrototype("f", None, [Arg(s), Arg(s), Arg(q)], [], q)
  }

  /** What follows the root's empty module prefix in the symbol of f(s, s, q) -> q. */
  lemma MultiBody(s: Types.Type, q: Types.Type)
    requires s.UserType? && q.UserType? && Mangleable(s) && Mangleable(q)
    requires NamedEncoding(false, s.id) != NamedEncoding(false, q.id)
    ensures AllMangleable(ArgTypes(MultiProto(s, q).args))
    ensures FnBody(MultiProto(s, q)) == "F" + ("1f" + ("N" + ((NamedEncoding(false, s.id) + "Z0_" + NamedEncoding(false, q.id)) + ("E" + "Z1_"))))
  {
    var proto := MultiProto(s, q);
    assert ArgTypes(proto.args) == [s, s, q];
    assert !CanThrow(proto);
    SubstitutionOrder(s, q);
    assert Dec(1) == "1";
    assert LenPrefixed("f") == "1f";
  }

  /** The symbol of f(s, s, q) -> q. */
  lemma MultiSymbol(s: Types.Type, q: Types.Type)
    requires s.UserType? && q.UserType? && Mangleable(s) && Mangleable(q)
    requires NamedEncoding(false, s.id) != NamedEncoding(false, q.id)
    ensures MangleableDecl(MakeFn(MultiProto(s, q)), QualifiedName("::", "f"))
    ensures Symbol(MakeFn(MultiProto(s, q)), QualifiedName("::", "f"))
         == "_GF1fN" + NamedEncoding(false, s.id) + "Z0_" + NamedEncoding(false, q.id) + "EZ1_"
  {
    var proto := MultiProto(s, q);
    MultiBody(s, q);
    RootHasNoParts();
    assert ValidName("f") && ValidParts([]);
    assert PartsPrefix([]) == "";
    var sym := FnSymbol("::", proto);
    assert sym == "_G" + ("" + FnBody(proto));
    SymbolAssoc(NamedEncoding(false, s.id), NamedEncoding(false, q.id), NamedEncoding(false, s.id) + "Z0_" + NamedEncoding(false, q.id), "Z1_");
    assert sym[3] != MainSymbol[3];
  }

  lemma SymbolAssoc(ss: string, qq: string, args: string, ret: string)
    requires args == ss + "Z0_" + qq && ret == "Z1_"
    ensures "_G" + ("" + ("F" + ("1f" + ("N" + (args + ("E" + ret))))))
         == "_GF1fN" + ss + "Z0_" + qq + "EZ1_"
  {
  }

  /** Three rendered types, in order. */
  lemma RenderThree(a: Types.Type, b: Types.Type, c: Types.Type)
    requires Mangleable(a) && Mangleable(b) && Mangleable(c)
    ensures AllMangleable([a, b, c])
    ensures RenderAll([a, b, c]) == [Render(a), Render(b), Render(c)]
  {
    assert [a, b, c][1..] == [b, c] && [b, c][1..] == [c] && [c][1..] == [];
    assert RenderAll([c]) == [Render(c)] + [];
  }

  /** Three parts joined by a separator. */
  lemma JoinThree(x: string, y: string, z: string, sep: string)
    ensures Join([x, y, z], sep) == x + sep + y + sep + z
  {
    assert [x, y, z][1..] == [y, z] && [y, z][1..] == [z];
    assert Join([y, z], sep) == y + sep + z;
    assert Join([x, y, z], sep) == x + sep + (y + sep + z);
    assert x + sep + (y + sep + z) == x + sep + y + sep + z;
  }

  /** The argument list of f(s, s, q), as the demangler writes it. */
  lemma RenderArgs(s: Types.Type, q: Types.Type)
    requires Mangleable(s) && Mangleable(q)
    ensures AllMangleable([s, s, q])
    ensures Join(RenderAll([s, s, q]), ", ") == Render(s) + ", " + Render(s) + ", " + Render(q)
  {
    RenderThree(s, s, q);
    JoinThree(Render(s), Render(s), Render(q), ", ");
  }

  /** The signature of f(s, s, q) -> q. */
  lemma MultiSignature(s: Types.Type, q: Types.Type)
    requires s.UserType? && q.UserType? && Mangleable(s) && Mangleable(q)
    requires MangleableDecl(MakeFn(MultiProto(s, q)), QualifiedName("::", "f"))
    ensures Signature(MakeFn(MultiProto(s, q)), QualifiedName("::", "f"))
         == "fn ::f(" + RenderNamed(false, s.id) + ", " + RenderNamed(false, s.id) + ", " + RenderNamed(false, q.id)
            + ") -> " + RenderNamed(false, q.id)
  {
    var proto := MultiProto(s, q);
    assert ArgTypes(proto.args) == [s, s, q];
    assert !CanThrow(proto);
    RootHasNoParts();
    assert ModuleText("::") == "::";
    RenderArgs(s, q);
    var args := Render(s) + ", " + Render(s) + ", " + Render(q);
    assert FnSignature("::", proto) == "fn " + "::" + "f" + "(" + args + ")" + " -> " + Render(q);
    assert Signature(MakeFn(proto), QualifiedName("::", "f")) == FnSignature("::", proto);
    SignatureAssoc(Render(s), Render(q), args);
  }

  lemma SignatureAssoc(rs: string, rq: string, args: string)
    requires args == rs + ", " + rs + ", " + rq
    ensures "fn " + "::" + "f" + "(" + args + ")" + " -> " + rq == "fn ::f(" + rs + ", " + rs + ", " + rq + ") -> " + rq
  {
  }

  /**
   * The MultipleSubstitutions test, for any one-letter modules and names
   * (the test uses ::s::S and ::q::Q): the second S becomes "Z0_", the
   * return type Q "Z1_", and the symbol demangles to the signature.
   */
  lemma MultipleSubstitutions(sp: string, sn: string, qp: string, qn: string)
    requires Letter(sp) && Letter(sn) && Letter(qp) && Letter(qn) && (sp != qp || sn != qn)
    ensures var d := MakeFn(MultiProto(OneLetterType(sp, sn), OneLetterType(qp, qn)));
            MangleableDecl(d, QualifiedName("::", "f"))
            && Symbol(d, QualifiedName("::", "f"))
               == "_GF1fN" + ("1" + sp + "U1" + sn) + "Z0_" + ("1" + qp + "U1" + qn) + "EZ1_"
            && Demangled(Symbol(d, QualifiedName("::", "f")))
               == Some("fn ::f(" + ("::" + sp + "::" + sn) + ", " + ("::" + sp + "::" + sn) + ", "
                       + ("::" + qp + "::" + qn) + ") -> " + ("::" + qp + "::" + qn))
  {
    var s, q := OneLetterType(sp, sn), OneLetterType(qp, qn);
    OneLetterFacts(sp, sn);
    OneLetterFacts(qp, qn);
    var ss, qq := "1" + sp + "U1" + sn, "1" + qp + "U1" + qn;
    assert ss[1] == sp[0] && ss[4] == sn[0] && qq[1] == qp[0] && qq[4] == qn[0];
    MultiSymbol(s, q);
    MultiSignature(s, q);
    MangleDemangleRoundTrip(MakeFn(MultiProto(s, q)), QualifiedName("::", "f"));
  }
}
