// The checker's symbol tables: block scopes (a stack of hash maps) and the
// global table of entities and overload sets built from a program's
// declarations.
module Environments {
  import opened Basics
  import opened SourceLocs
  import Types
  import Ast
  import Diagnostics

  /** A diagnostic as handed to report_emplace: its code and the spans pointed out, in the order given. */
  datatype Reported = Reported(code: int, spans: seq<Diagnostics.PointedOut>)

  /** A DiagnosticReporter, kept as the list of what was reported to it. */
  class Reporter {
    var reports: seq<Reported>

    constructor ()
      ensures reports == []
    {
      reports := [];
    }

    method ReportEmplace(code: int, spans: seq<Diagnostics.PointedOut>)
      modifies this
      ensures reports == old(reports) + [Reported(code, spans)]
    {
      reports := reports + [Reported(code, spans)];
    }
  }

  // ---- block scopes ----

  /** A local binding: where it was bound, its type and whether it is `mut`. */
  datatype ScopeEntity = ScopeEntity(loc: SourceLoc, entityType: Types.Type, mut: bool)

  /** A Scope is held by value in the environment's vector: its map of variables. */
  type Scope = map<string, ScopeEntity>

  /** What Scope::add reports: nothing for a new name, code 8 for a second binding. */
  function RebindReport(variables: Scope, name: string, data: ScopeEntity): seq<Reported>
  {
    if name !in variables then []
    else [Reported(8, [Diagnostics.PointOutPart(data.loc, Diagnostics.Error, "second binding was here"),
                       Diagnostics.PointOutPart(variables[name].loc, Diagnostics.Note, "first binding was here")])]
  }

  /**
   * Scope::add on a scope value: the binding is emplaced, so a name bound
   * already keeps its first binding, reports code 8 and gives false.
   */
  method ScopeAdd(variables: Scope, name: string, data: ScopeEntity, diagnostics: Reporter)
    returns (updated: Scope, inserted: bool)
    modifies diagnostics
    ensures updated == Emplace(variables, name, data)
    ensures inserted <==> name !in variables
    ensures diagnostics.reports == old(diagnostics.reports) + RebindReport(variables, name, data)
  {
    inserted := name !in variables;
    updated := Emplace(variables, name, data);
    if !inserted {
      var a := Diagnostics.PointOutPart(data.loc, Diagnostics.Error, "second binding was here");
      var b := Diagnostics.PointOutPart(variables[name].loc, Diagnostics.Note, "first binding was here");
      diagnostics.ReportEmplace(8, [a, b]);
    }
  }

  /** The binding of `name` in the innermost scope that has one, scopes being ordered outermost first. */
  function Innermost<V>(scopes: seq<map<string, V>>, name: string): Option<V>
    decreases |scopes|
  {
    if |scopes| == 0 then None
    else if name in scopes[|scopes| - 1] then Some(scopes[|scopes| - 1][name])
    else Innermost(scopes[..|scopes| - 1], name)
  }

  /** Scope `i` binds `name` and no scope inside it does. */
  predicate InnermostAt<V>(scopes: seq<map<string, V>>, name: string, i: int)
  {
    0 <= i < |scopes| && name in scopes[i] && forall j :: i < j < |scopes| ==> name !in scopes[j]
  }

  /**
   * A lookup finds nothing iff no scope binds the name, and otherwise the
   * binding of the innermost scope that binds it.
   */
  lemma {:induction false} InnermostFinds<V>(scopes: seq<map<string, V>>, name: string)
    ensures Innermost(scopes, name).None? <==> forall i :: 0 <= i < |scopes| ==> name !in scopes[i]
    ensures forall i :: InnermostAt(scopes, name, i) ==> Innermost(scopes, name) == Some(scopes[i][name])
    decreases |scopes|
  {
    if |scopes| > 0 {
      var n := |scopes| - 1;
      var outer := scopes[..n];
      InnermostFinds(outer, name);
      if name !in scopes[n] {
        assert Innermost(scopes, name) == Innermost(outer, name);
        assert forall i :: 0 <= i < n ==> outer[i] == scopes[i];
        forall i | InnermostAt(scopes, name, i) ensures Innermost(scopes, name) == Some(scopes[i][name]) {
          assert InnermostAt(outer, name, i);
        }
      } else {
        assert Innermost(scopes, name) == Some(scopes[n][name]);
      }
    }
  }

  /** A new innermost scope shadows the outer ones for the names it binds, and hides nothing else. */
  lemma {:induction false} InnermostShadows<V>(scopes: seq<map<string, V>>, inner: map<string, V>, name: string)
    ensures Innermost(scopes + [inner], name) == if name in inner then Some(inner[name]) else Innermost(scopes, name)
  {
    assert (scopes + [inner])[..|scopes|] == scopes;
  }

  /** Environment: the stack of block scopes, innermost last, and the reporter for re-bindings. */
  class Environment {
    var scopes: seq<Scope>
    const diagnostics: Reporter

    constructor (reporter: Reporter)
      ensures scopes == [] && diagnostics == reporter
    {
      scopes := [];
      diagnostics := reporter;
    }

    /** get: the binding from the innermost scope that has the name, walking the scopes from the back. */
    method Get(name: string) returns (r: Option<ScopeEntity>)
      ensures r == Innermost(scopes, name)
    {
      var i := |scopes|;
      assert scopes[..i] == scopes;
      while i > 0
        invariant 0 <= i <= |scopes|
        invariant Innermost(scopes, name) == Innermost(scopes[..i], name)
      {
        if name in scopes[i - 1] {
          return Some(scopes[i - 1][name]);
        }
        assert scopes[..i][..i - 1] == scopes[..i - 1];
        i := i - 1;
      }
      return None;
    }

    /** contains: some scope binds the name. */
    method Contains(name: string) returns (b: bool)
      ensures b <==> exists i :: 0 <= i < |scopes| && name in scopes[i]
      ensures b <==> Innermost(scopes, name).Some?
    {
      InnermostFinds(scopes, name);
      b := false;
      for i := 0 to |scopes|
        invariant !b
        invariant forall j :: 0 <= j < i ==> name !in scopes[j]
      {
        if name in scopes[i] {
          return true;
        }
      }
    }

    /** add: binds in the innermost scope only; there has to be one. */
    method Add(name: string, data: ScopeEntity)
      requires |scopes| > 0
      modifies this, diagnostics
      ensures |scopes| == |old(scopes)| && scopes[..|scopes| - 1] == old(scopes)[..|scopes| - 1]
      ensures scopes[|scopes| - 1] == Emplace(old(scopes)[|scopes| - 1], name, data)
      ensures diagnostics.reports == old(diagnostics.reports) + RebindReport(old(scopes)[|scopes| - 1], name, data)
    {
      var last := |scopes| - 1;
      var updated, _ := ScopeAdd(scopes[last], name, data, diagnostics);
      scopes := scopes[last := updated];
    }

    method Push(scope: Scope)
      modifies this
      ensures scopes == old(scopes) + [scope]
    {
      scopes := scopes + [scope];
    }

    method Pop()
      requires |scopes| > 0
      modifies this
      ensures scopes == old(scopes)[..|old(scopes)| - 1]
    {
      scopes := scopes[..|scopes| - 1];
    }

    /** enter_scope: one empty scope is pushed. */
    method EnterScope()
      modifies this
      ensures scopes == old(scopes) + [map[]]
    {
      Push(map[]);
    }

    /** leave_scope: the innermost scope is popped and the others are unchanged. */
    method LeaveScope()
      requires |scopes| > 0
      modifies this
      ensures scopes == old(scopes)[..|old(scopes)| - 1]
    {
      Pop();
    }
  }

  // ---- the global table ----

  /** A global entity: its name, its declaration and the type annotated onto it later, if any. */
  datatype GlobalEntity = GlobalEntity(name: string, decl: Ast.Decl, entityType: Option<Types.Type>)

  /** An overload, kept as the location and prototype of the fn or external fn it stands for. */
  datatype Overload = Overload(loc: SourceLoc, proto: Ast.FnPrototype)

  /** The index of the first overload whose argument list equals `args`, if any. */
  function FirstConflict(fns: seq<Overload>, args: seq<Ast.Argument>): (r: Option<nat>)
    ensures r.Some? ==> r.value < |fns| && Ast.ArgsEqual(args, fns[r.value].proto.args)
    ensures r.Some? ==> forall j :: 0 <= j < r.value ==> !Ast.ArgsEqual(args, fns[j].proto.args)
    ensures r.None? ==> forall j :: 0 <= j < |fns| ==> !Ast.ArgsEqual(args, fns[j].proto.args)
    decreases |fns|
  {
    if |fns| == 0 then None
    else if Ast.ArgsEqual(args, fns[0].proto.args) then Some(0)
    else match FirstConflict(fns[1..], args)
      case None => None
      case Some(k) => Some(k + 1)
  }

  /** No overload's argument list equals that of one before it. */
  predicate Distinct(fns: seq<Overload>)
  {
    forall i, j :: 0 <= i < j < |fns| ==> !Ast.ArgsEqual(fns[j].proto.args, fns[i].proto.args)
  }

  /**
   * OverloadSet::add_overload: appends; its debug assertion demands that no
   * overload already there has the same argument list, so the set stays
   * distinct.
   */
  function AddOverload(fns: seq<Overload>, o: Overload): (r: seq<Overload>)
    requires FirstConflict(fns, o.proto.args).None?
    ensures |r| == |fns| + 1 && r[..|fns|] == fns && r[|fns|] == o
    ensures Distinct(fns) ==> Distinct(r)
  {
    fns + [o]
  }

  /** The entity map, the overload sets and what has been reported, at one point of the walk. */
  datatype Table = Table(entities: map<string, GlobalEntity>, overloads: map<string, seq<Overload>>, reports: seq<Reported>)

  /** Every overload set is non-empty and distinct. */
  predicate ValidTable(t: Table)
  {
    forall name :: name in t.overloads ==> |t.overloads[name]| > 0 && Distinct(t.overloads[name])
  }

  /**
   * BuildGlobalSymbolTable::insert for an entity: a new name is bound to
   * the declaration; a name bound already keeps its first declaration and
   * code 6 is reported.
   */
  function WithEntity(t: Table, name: string, decl: Ast.Decl): Table
  {
    if name in t.entities then
      t.(reports := t.reports + [Reported(6, [
        Diagnostics.PointOutPart(decl.loc, Diagnostics.Error, "re-declaration was here"),
        Diagnostics.PointOutPart(t.entities[name].decl.loc, Diagnostics.Note, "previous declaration was here")])])
    else t.(entities := t.entities[name := GlobalEntity(name, decl, None)])
  }

  /**
   * BuildGlobalSymbolTable::insert for an overload: the set for the name is
   * created if missing; an overload whose argument list equals an earlier
   * one's is not added and code 9 is reported, anything else is appended.
   */
  function WithOverload(t: Table, name: string, o: Overload): Table
  {
    var fns := if name in t.overloads then t.overloads[name] else [];
    match FirstConflict(fns, o.proto.args)
    case Some(k) =>
      t.(overloads := t.overloads[name := fns], reports := t.reports + [Reported(9, [
        Diagnostics.PointOutPart(fns[k].loc, Diagnostics.Note, "original overload is here"),
        Diagnostics.PointOutPart(o.loc, Diagnostics.Error, "conflicting overload is here")])])
    case None => t.(overloads := t.overloads[name := AddOverload(fns, o)])
  }

  /** A second declaration of an entity name changes no binding and reports code 6 once; a first one binds the name and reports nothing. */
  lemma EntityInsertOutcome(t: Table, name: string, decl: Ast.Decl)
    ensures name in t.entities ==>
              && WithEntity(t, name, decl).entities == t.entities
              && |WithEntity(t, name, decl).reports| == |t.reports| + 1
              && WithEntity(t, name, decl).reports[|t.reports|].code == 6
    ensures name !in t.entities ==>
              && WithEntity(t, name, decl).entities == t.entities[name := GlobalEntity(name, decl, None)]
              && WithEntity(t, name, decl).reports == t.reports
  {
  }

  /** An overload clashing with an earlier argument list leaves the set as it was and reports code 9; any other is appended silently. */
  lemma OverloadInsertOutcome(t: Table, name: string, o: Overload)
    requires name in t.overloads
    ensures FirstConflict(t.overloads[name], o.proto.args).Some? ==>
              && WithOverload(t, name, o).overloads == t.overloads
              && |WithOverload(t, name, o).reports| == |t.reports| + 1
              && WithOverload(t, name, o).reports[|t.reports|].code == 9
    ensures FirstConflict(t.overloads[name], o.proto.args).None? ==>
              && WithOverload(t, name, o).overloads[name] == t.overloads[name] + [o]
              && WithOverload(t, name, o).reports == t.reports
  {
  }

  /** The visitor on one declaration; imports, classes and methods are not entered yet. */
  function Visited(t: Table, d: Ast.Decl): Table
    decreases d
  {
    match d.node
    case Fn(_, proto, _) => WithOverload(t, proto.name, Overload(d.loc, proto))
    case ExternalFn(proto) => WithOverload(t, proto.name, Overload(d.loc, proto))
    case StructDecl(name, _) => WithEntity(t, name, d)
    case TypeDecl(name, _) => WithEntity(t, name, d)
    case Constant(name, _, _) => WithEntity(t, name, d)
    case External(externals) => VisitedAll(t, externals)
    case _ => t
  }

  /** The visitor on each declaration in order. */
  function VisitedAll(t: Table, ds: seq<Ast.Decl>): Table
    decreases ds
  {
    if |ds| == 0 then t else Visited(VisitedAll(t, ds[..|ds| - 1]), ds[|ds| - 1])
  }

  /** The names a declaration puts into the global table, those inside an external block included. */
  function DeclaredNames(d: Ast.Decl): set<string>
    decreases d
  {
    match d.node
    case Fn(_, proto, _) => {proto.name}
    case ExternalFn(proto) => {proto.name}
    case StructDecl(name, _) => {name}
    case TypeDecl(name, _) => {name}
    case Constant(name, _, _) => {name}
    case External(externals) => AllDeclaredNames(externals)
    case _ => {}
  }

  function AllDeclaredNames(ds: seq<Ast.Decl>): set<string>
    decreases ds
  {
    if |ds| == 0 then {} else AllDeclaredNames(ds[..|ds| - 1]) + DeclaredNames(ds[|ds| - 1])
  }

  /** `u` grows `t`: entities keep their first declaration and overload sets only gain entries at the end. */
  predicate Grows(t: Table, u: Table)
  {
    (forall name :: name in t.entities ==> name in u.entities && u.entities[name] == t.entities[name])
    && (forall name :: name in t.overloads ==> name in u.overloads && t.overloads[name] <= u.overloads[name])
    && t.reports <= u.reports
  }

  /** `u` is a valid growth of `t` that binds exactly the names of `t` and `names`. */
  ghost predicate Extends(t: Table, u: Table, names: set<string>)
  {
    ValidTable(u) && Grows(t, u)
    && forall name :: name in u.entities || name in u.overloads <==> name in t.entities || name in t.overloads || name in names
  }

  lemma ExtendsTransitive(t: Table, u: Table, v: Table, a: set<string>, b: set<string>)
    requires Extends(t, u, a) && Extends(u, v, b)
    ensures Extends(t, v, a + b)
  {
  }

  /**
   * Visiting a declaration keeps the table valid, keeps every first
   * declaration and earlier overload, and binds exactly the names the
   * declaration declares in addition to those bound before.
   */
  lemma {:induction false} VisitedKeeps(t: Table, d: Ast.Decl)
    requires ValidTable(t)
    ensures Extends(t, Visited(t, d), DeclaredNames(d))
    decreases d, 1
  {
    if d.node.Fn? || d.node.ExternalFn? {
      VisitedOverloadKeeps(t, d);
    } else if d.node.StructDecl? || d.node.TypeDecl? || d.node.Constant? {
      VisitedEntityKeeps(t, d);
    } else if d.node.External? {
      assert Visited(t, d) == VisitedAll(t, d.node.externals) && DeclaredNames(d) == AllDeclaredNames(d.node.externals);
      VisitedAllKeeps(t, d.node.externals);
    } else {
      assert Visited(t, d) == t && DeclaredNames(d) == {};
    }
  }

  lemma VisitedOverloadKeeps(t: Table, d: Ast.Decl)
    requires ValidTable(t) && (d.node.Fn? || d.node.ExternalFn?)
    ensures Extends(t, Visited(t, d), DeclaredNames(d))
  {
    var proto := d.node.proto;
    assert Visited(t, d) == WithOverload(t, proto.name, Overload(d.loc, proto)) && DeclaredNames(d) == {proto.name};
    OverloadKeeps(t, proto.name, Overload(d.loc, proto));
  }

  lemma VisitedEntityKeeps(t: Table, d: Ast.Decl)
    requires ValidTable(t) && (d.node.StructDecl? || d.node.TypeDecl? || d.node.Constant?)
    ensures Extends(t, Visited(t, d), DeclaredNames(d))
  {
    var name := d.node.name;
    assert Visited(t, d) == WithEntity(t, name, d) && DeclaredNames(d) == {name};
    EntityKeeps(t, name, d);
  }

  lemma {:induction false} VisitedAllKeeps(t: Table, ds: seq<Ast.Decl>)
    requires ValidTable(t)
    ensures Extends(t, VisitedAll(t, ds), AllDeclaredNames(ds))
    decreases ds
  {
    if |ds| > 0 {
      var front := ds[..|ds| - 1];
      var u := VisitedAll(t, front);
      VisitedAllKeeps(t, front);
      VisitedKeeps(u, ds[|ds| - 1]);
      ExtendsTransitive(t, u, Visited(u, ds[|ds| - 1]), AllDeclaredNames(front), DeclaredNames(ds[|ds| - 1]));
    }
  }

  lemma EntityKeeps(t: Table, name: string, d: Ast.Decl)
    requires ValidTable(t)
    ensures Extends(t, WithEntity(t, name, d), {name})
  {
  }

  lemma OverloadKeeps(t: Table, name: string, o: Overload)
    requires ValidTable(t)
    ensures Extends(t, WithOverload(t, name, o), {name})
  {
  }

  /**
   * BuildGlobalSymbolTable: walks a program's declarations in order,
   * entering entities and overloads and reporting clashes.
   */
  class SymbolTableBuilder {
    var entities: map<string, GlobalEntity>
    var overloads: map<string, seq<Overload>>
    const diagnostics: Reporter

    function Snapshot(): Table
      reads this, diagnostics
    {
      Table(entities, overloads, diagnostics.reports)
    }

    constructor (program: seq<Ast.Decl>, reporter: Reporter)
      modifies reporter
      ensures diagnostics == reporter
      ensures Snapshot() == VisitedAll(Table(map[], map[], old(reporter.reports)), program)
      ensures ValidTable(Snapshot())
      ensures forall name :: name in entities || name in overloads <==> name in AllDeclaredNames(program)
    {
      entities := map[];
      overloads := map[];
      diagnostics := reporter;
      new;
      VisitEach(program);
      VisitedAllKeeps(Table(map[], map[], old(reporter.reports)), program);
    }

    /** Each declaration in order (the program's, or an external block's). */
    method VisitEach(ds: seq<Ast.Decl>)
      modifies this, diagnostics
      ensures Snapshot() == VisitedAll(old(Snapshot()), ds)
      decreases ds, 0
    {
      for i := 0 to |ds|
        invariant Snapshot() == VisitedAll(old(Snapshot()), ds[..i])
      {
        Visit(ds[i]);
        assert ds[..i + 1][..i] == ds[..i];
      }
      assert ds[..|ds|] == ds;
    }

    /** The visitor's dispatch on one declaration. */
    method Visit(d: Ast.Decl)
      modifies this, diagnostics
      ensures Snapshot() == Visited(old(Snapshot()), d)
      decreases d, 1
    {
      match d.node
      case Fn(_, proto, _) => InsertOverload(proto.name, Overload(d.loc, proto));
      case ExternalFn(proto) => InsertOverload(proto.name, Overload(d.loc, proto));
      case StructDecl(name, _) => InsertEntity(name, d);
      case TypeDecl(name, _) => InsertEntity(name, d);
      case Constant(name, _, _) => InsertEntity(name, d);
      case External(externals) => VisitEach(externals);
      case _ =>
    }

    method InsertEntity(name: string, decl: Ast.Decl)
      modifies this, diagnostics
      ensures Snapshot() == WithEntity(old(Snapshot()), name, decl)
    {
      if name in entities {
        var newDecl := Diagnostics.PointOutPart(decl.loc, Diagnostics.Error, "re-declaration was here");
        var previous := Diagnostics.PointOutPart(entities[name].decl.loc, Diagnostics.Note, "previous declaration was here");
        diagnostics.ReportEmplace(6, [newDecl, previous]);
      } else {
        entities := entities[name := GlobalEntity(name, decl, None)];
      }
    }

    /** The overload is checked against the set's overloads in order, and appended when none clashes. */
    method InsertOverload(name: string, o: Overload)
      modifies this, diagnostics
      ensures Snapshot() == WithOverload(old(Snapshot()), name, o)
    {
      if name !in overloads {
        overloads := overloads[name := []];
      }
      var fns := overloads[name];
      for i := 0 to |fns|
        invariant overloads == old(overloads)[name := fns] && entities == old(entities)
        invariant diagnostics.reports == old(diagnostics.reports)
        invariant forall j :: 0 <= j < i ==> !Ast.ArgsEqual(o.proto.args, fns[j].proto.args)
      {
        if Ast.ArgsEqual(o.proto.args, fns[i].proto.args) {
          var a := Diagnostics.PointOutPart(fns[i].loc, Diagnostics.Note, "original overload is here");
          var b := Diagnostics.PointOutPart(o.loc, Diagnostics.Error, "conflicting overload is here");
          diagnostics.ReportEmplace(9, [a, b]);
          return;
        }
      }
      overloads := overloads[name := AddOverload(fns, o)];
    }
  }

  /** GlobalEnvironment: the table a program's declarations build. */
  class GlobalEnvironment {
    var entities: map<string, GlobalEntity>
    var overloads: map<string, seq<Overload>>

    constructor (program: seq<Ast.Decl>, reporter: Reporter)
      modifies reporter
      ensures Table(entities, overloads, reporter.reports) == VisitedAll(Table(map[], map[], old(reporter.reports)), program)
      ensures forall name :: ContainsAny(name) <==> name in AllDeclaredNames(program)
      ensures forall name :: name in overloads ==> |overloads[name]| > 0 && Distinct(overloads[name])
    {
      var builder := new SymbolTableBuilder(program, reporter);
      entities := builder.entities;
      overloads := builder.overloads;
    }

    /** contains_any: the name is an overload set or an entity. */
    predicate ContainsAny(name: string)
      reads this
    {
      name in overloads || name in entities
    }

    function Entity(name: string): Option<GlobalEntity>
      reads this
    {
      if name in entities then Some(entities[name]) else None
    }

    function Overloads(name: string): Option<seq<Overload>>
      reads this
    {
      if name in overloads then Some(overloads[name]) else None
    }
  }
}
