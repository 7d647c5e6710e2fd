// Name resolution in compiler/src/core/name_resolver.cc: the resolver's
// lookups into the global table, the types it annotates onto entities, and
// the rewrites of unqualified types and identifiers.
//
// The program has one module, so the only table is the root one and every
// fully-qualified id the resolver makes lives in module "::". A rewrite the
// resolver performs through a node's owner pointer is modelled as the node
// it yields; the diagnostics it reports become their error codes, in order.
module NameResolution {
  import opened Basics
  import opened Ids
  import opened Types
  import Ast
  import opened Environments

  /** The name of the root module, and so of every fully-qualified id made here. */
  const RootModule := "::"

  /** A node after the resolver visited it, and the codes reported on the way. */
  datatype Rewrite<T> = Rewrite(node: T, codes: seq<int>)

  /**
   * qualified_for asserts that a prefix names no module below the root and
   * that it starts from the root; an unprefixed id is looked up in the root
   * too.
   */
  predicate Supported(uid: UnqualifiedID)
  {
    uid.prefix.None? || (uid.prefix.value.parts == [] && uid.prefix.value.fromRoot)
  }

  /** The declarations the global table enters as entities (the others are overloads or nothing). */
  predicate EntityDecl(d: Ast.Decl)
  {
    d.node.StructDecl? || d.node.TypeDecl? || d.node.Constant?
  }

  /**
   * annotate_type: a struct or class gets the user-defined type named by its
   * own fully-qualified id, a type alias a clone of the type it aliases;
   * every other entity keeps the type it had.
   */
  function Annotate(e: GlobalEntity, moduleName: string): (r: GlobalEntity)
    ensures r.name == e.name && r.decl == e.decl
    ensures (e.decl.node.StructDecl? || e.decl.node.ClassDecl?)
      ==> r.entityType == Some(UserType(e.decl.loc, QualifiedName(moduleName, e.name), []))
    ensures e.decl.node.TypeDecl? ==> r.entityType == Some(e.decl.node.aliased)
    ensures !(e.decl.node.StructDecl? || e.decl.node.ClassDecl? || e.decl.node.TypeDecl?) ==> r == e
  {
    match e.decl.node
    case StructDecl(_, _) => e.(entityType := Some(UserType(e.decl.loc, QualifiedName(moduleName, e.name), [])))
    case ClassDecl => e.(entityType := Some(UserType(e.decl.loc, QualifiedName(moduleName, e.name), [])))
    case TypeDecl(_, aliased) => e.(entityType := Some(Clone(aliased)))
    case _ => e
  }

  /** Every entity of one table annotated, as the constructor's walk over the module tree does. */
  function AnnotateAll(entities: map<string, GlobalEntity>, moduleName: string): map<string, GlobalEntity>
  {
    map name | name in entities :: Annotate(entities[name], moduleName)
  }

  /** Annotating twice is annotating once. */
  lemma AnnotateIdempotent(e: GlobalEntity, moduleName: string)
    ensures Annotate(Annotate(e, moduleName), moduleName) == Annotate(e, moduleName)
  {
  }

  /** What the global table holds before annotation: entities under their own names, with no type yet. */
  predicate Unannotated(entities: map<string, GlobalEntity>)
  {
    forall name :: name in entities ==>
      entities[name] == GlobalEntity(name, entities[name].decl, None) && EntityDecl(entities[name].decl)
  }

  lemma {:induction false} VisitedUnannotated(t: Table, d: Ast.Decl)
    requires Unannotated(t.entities)
    ensures Unannotated(Visited(t, d).entities)
    decreases d, 1
  {
    match d.node
    case External(externals) => VisitedAllUnannotated(t, externals);
    case Fn(_, proto, _) =>
    case ExternalFn(proto) =>
    case StructDecl(name, _) =>
    case TypeDecl(name, _) =>
    case Constant(name, _, _) =>
    case _ =>
  }

  /** The table a program builds keeps each entity under its own name, untyped, and only for entity declarations. */
  lemma {:induction false} VisitedAllUnannotated(t: Table, ds: seq<Ast.Decl>)
    requires Unannotated(t.entities)
    ensures Unannotated(VisitedAll(t, ds).entities)
    decreases ds
  {
    if |ds| > 0 {
      VisitedAllUnannotated(t, ds[..|ds| - 1]);
      VisitedUnannotated(VisitedAll(t, ds[..|ds| - 1]), ds[|ds| - 1]);
    }
  }

  /**
   * NameResolver: the root global table (annotated when the resolver is
   * built) and the environment of block scopes for locals.
   */
  class NameResolver {
    const root: GlobalEnvironment
    const env: Environment

    /** Every entity sits under its own name, is a struct, alias or constant, and carries its annotation. */
    predicate Valid()
      reads root
    {
      forall name :: name in root.entities ==>
        EntityDecl(root.entities[name].decl)
        && root.entities[name] == Annotate(GlobalEntity(name, root.entities[name].decl, None), RootModule)
    }

    /**
     * The constructor builds the global table from the program and
     * annotates each of its entities with module "::".
     */
    constructor (program: seq<Ast.Decl>, reporter: Reporter)
      modifies reporter
      ensures fresh(root) && fresh(env) && env.scopes == [] && env.diagnostics == reporter
      ensures Table(root.entities, root.overloads, reporter.reports)
        == var built := VisitedAll(Table(map[], map[], old(reporter.reports)), program);
           built.(entities := AnnotateAll(built.entities, RootModule))
      ensures Valid()
    {
      var global := new GlobalEnvironment(program, reporter);
      VisitedAllUnannotated(Table(map[], map[], old(reporter.reports)), program);
      global.entities := AnnotateAll(global.entities, RootModule);
      root := global;
      env := new Environment(reporter);
    }

    /**
     * qualified_for: the root table is searched, and the id comes back in
     * module "::" exactly when the name is an entity or an overload set there.
     */
    function QualifiedFor(uid: UnqualifiedID): (r: Option<QualifiedName>)
      requires Supported(uid)
      reads root
      ensures r.Some? <==> root.ContainsAny(uid.name)
      ensures r.Some? ==> r.value == QualifiedName(RootModule, uid.name)
    {
      if root.ContainsAny(uid.name) then Some(QualifiedName(RootModule, uid.name)) else None
    }

    /** entity: the entity of the id's module (asserted to be a known one) under the id's name. */
    function Entity(id: QualifiedName): Option<GlobalEntity>
      requires id.moduleString == RootModule
      reads root
    {
      root.Entity(id.name)
    }

    /** overloads: the overload set of the id's module under the id's name. */
    function Overloads(id: QualifiedName): Option<seq<Overload>>
      requires id.moduleString == RootModule
      reads root
    {
      root.Overloads(id.name)
    }

    /**
     * type: the type annotated onto the entity, none when there is no entity.
     * The source asserts the entity has a type; a constant has none, and
     * without the assertion none is what comes back.
     */
    function TypeOf(id: QualifiedName): (r: Option<Type>)
      requires id.moduleString == RootModule
      reads root
      ensures r.Some? ==> Entity(id).Some? && r == Entity(id).value.entityType
      ensures Valid() ==> (r.Some? <==> Entity(id).Some? && !Entity(id).value.decl.node.Constant?)
    {
      match Entity(id)
      case Some(e) => e.entityType
      case None => None
    }

    /** struct_type: the declaration, only when the entity is a struct. */
    function StructType(id: QualifiedName): (r: Option<Ast.Decl>)
      requires id.moduleString == RootModule
      reads root
      ensures r.Some? <==> Entity(id).Some? && Entity(id).value.decl.node.StructDecl?
      ensures r.Some? ==> r.value == Entity(id).value.decl
    {
      match Entity(id)
      case Some(e) => if e.decl.node.StructDecl? then Some(e.decl) else None
      case None => None
    }

    /** constant: the declaration, only when the entity is a constant. */
    function Constant(id: QualifiedName): (r: Option<Ast.Decl>)
      requires id.moduleString == RootModule
      reads root
      ensures r.Some? <==> Entity(id).Some? && Entity(id).value.decl.node.Constant?
      ensures r.Some? ==> r.value == Entity(id).value.decl
    {
      match Entity(id)
      case Some(e) => if e.decl.node.Constant? then Some(e.decl) else None
      case None => None
    }

    /**
     * The visit of an unqualified user-defined type: a name that resolves to
     * a type is replaced by a clone of it; a name bound to an entity without
     * a type or to an overload set reports code 10; an unknown name reports
     * code 14. Unresolved types stay as they were.
     */
    function ResolveType(t: Type): (r: Rewrite<Type>)
      requires t.UnqualifiedUserType? && Supported(t.uid)
      reads root
      ensures r.codes == [] || r.codes == [10] || r.codes == [14]
      ensures r.codes == [] <==> TypeOf(QualifiedName(RootModule, t.uid.name)).Some?
      ensures r.codes == [] ==> Some(r.node) == TypeOf(QualifiedName(RootModule, t.uid.name))
      ensures r.codes == [14] <==> !root.ContainsAny(t.uid.name)
      ensures r.codes != [] ==> r.node == t
    {
      match QualifiedFor(t.uid)
      case Some(id) =>
        (match TypeOf(id)
         case Some(actual) => Rewrite(Clone(actual), [])
         // the name is an entity without a type or an overload set: both report 10
         case None => Rewrite(t, [10]))
      case None => Rewrite(t, [14])
    }

    /**
     * The visit of an unqualified identifier as written: an unprefixed one
     * becomes a local identifier; a prefixed one naming a constant or an
     * overload set becomes an identifier with the fully-qualified id; a
     * prefixed one naming another entity reports code 10 and then, since
     * the visit does not return there, code 11 as well; any other reports 11.
     */
    function ResolveIdentifierAsWritten(e: Ast.Expr): (r: Rewrite<Ast.Expr>)
      requires e.node.UnqualifiedIdentifier? && Supported(e.node.uid)
      reads root
      ensures r.codes == ResolveIdentifier(e).codes || (ResolveIdentifier(e).codes == [10] && r.codes == [10, 11])
      ensures r.node == ResolveIdentifier(e).node
    {
      var uid := e.node.uid;
      if uid.prefix.Some? then
        match QualifiedFor(uid)
        case Some(id) =>
          if Constant(id).Some? || Overloads(id).Some? then
            Rewrite(Ast.Expr(e.loc, Ast.Identifier(id, [], None), None), [])
          // the name is bound, so it is an entity of another kind
          else Rewrite(e, [10, 11])
        case None => Rewrite(e, [11])
      else Rewrite(Ast.Expr(e.loc, Ast.LocalIdentifier(uid.name), None), [])
    }

    /**
     * The same visit returning after code 10, as the type visit does: a
     * name that resolved to the wrong kind of entity is reported once, as
     * such, and not also as a name that did not resolve.
     */
    function ResolveIdentifier(e: Ast.Expr): (r: Rewrite<Ast.Expr>)
      requires e.node.UnqualifiedIdentifier? && Supported(e.node.uid)
      reads root
      ensures e.node.uid.prefix.None? ==> r == Rewrite(Ast.Expr(e.loc, Ast.LocalIdentifier(e.node.uid.name), None), [])
      ensures e.node.uid.prefix.Some? ==>
        (r.codes == [] <==> Constant(QualifiedName(RootModule, e.node.uid.name)).Some? || Overloads(QualifiedName(RootModule, e.node.uid.name)).Some?)
      ensures e.node.uid.prefix.Some? && r.codes == [] ==>
        r.node == Ast.Expr(e.loc, Ast.Identifier(QualifiedName(RootModule, e.node.uid.name), [], None), None)
      ensures e.node.uid.prefix.Some? ==>
        (r.codes == [10] <==> Entity(QualifiedName(RootModule, e.node.uid.name)).Some? && Constant(QualifiedName(RootModule, e.node.uid.name)).None? && Overloads(QualifiedName(RootModule, e.node.uid.name)).None?)
      ensures e.node.uid.prefix.Some? ==> (r.codes == [11] <==> QualifiedFor(e.node.uid).None?)
      ensures e.node.uid.prefix.Some? && r.codes != [] ==> r.node == e
    {
      var uid := e.node.uid;
      if uid.prefix.Some? then
        match QualifiedFor(uid)
        case Some(id) =>
          if Constant(id).Some? || Overloads(id).Some? then
            Rewrite(Ast.Expr(e.loc, Ast.Identifier(id, [], None), None), [])
          // the name is bound, so it is an entity of another kind
          else Rewrite(e, [10])
        case None => Rewrite(e, [11])
      else Rewrite(Ast.Expr(e.loc, Ast.LocalIdentifier(uid.name), None), [])
    }

    /** enter_scope: forwarded to the environment. */
    method EnterScope()
      modifies env
      ensures env.scopes == old(env.scopes) + [map[]]
    {
      env.EnterScope();
    }

    /** leave_scope: forwarded to the environment. */
    method LeaveScope()
      requires |env.scopes| > 0
      modifies env
      ensures env.scopes == old(env.scopes)[..|old(env.scopes)| - 1]
    {
      env.LeaveScope();
    }

    /** contains_local: some block scope binds the name. */
    method ContainsLocal(name: string) returns (b: bool)
      ensures b <==> exists i :: 0 <= i < |env.scopes| && name in env.scopes[i]
    {
      b := env.Contains(name);
    }

    /** add_local: binds in the innermost scope, reporting a re-binding there. */
    method AddLocal(name: string, data: ScopeEntity)
      requires |env.scopes| > 0
      modifies env, env.diagnostics
      ensures |env.scopes| == |old(env.scopes)| && env.scopes[..|env.scopes| - 1] == old(env.scopes)[..|env.scopes| - 1]
      ensures env.scopes[|env.scopes| - 1] == Emplace(old(env.scopes)[|env.scopes| - 1], name, data)
      ensures env.diagnostics.reports == old(env.diagnostics.reports) + RebindReport(old(env.scopes)[|env.scopes| - 1], name, data)
    {
      env.Add(name, data);
    }

    /** local: the binding of the innermost scope that has the name. */
    method Local(name: string) returns (r: Option<ScopeEntity>)
      ensures r == Innermost(env.scopes, name)
    {
      r := env.Get(name);
    }
  }

  /**
   * On a resolver built from a program: a struct resolves to the
   * user-defined type carrying its own id, an alias to the type it aliases,
   * and only constants have no type.
   */
  lemma LookupsByKind(res: NameResolver, name: string)
    requires res.Valid() && name in res.root.entities
    ensures var id := QualifiedName(RootModule, name);
      var d := res.root.entities[name].decl;
      && (d.node.StructDecl? ==> res.TypeOf(id) == Some(UserType(d.loc, id, [])) && res.StructType(id) == Some(d))
      && (d.node.TypeDecl? ==> res.TypeOf(id) == Some(d.node.aliased))
      && (res.Constant(id).Some? <==> res.TypeOf(id).None?)
  {
  }

  /**
   * An unqualified type resolves on a built resolver exactly when it names a
   * struct or a type alias, and a struct's name resolves to the struct's own
   * user-defined type.
   */
  lemma ResolvedTypes(res: NameResolver, t: Type)
    requires res.Valid() && t.UnqualifiedUserType? && Supported(t.uid)
    ensures var n := t.uid.name;
      && (res.ResolveType(t).codes == [] <==>
            n in res.root.entities && (res.root.entities[n].decl.node.StructDecl? || res.root.entities[n].decl.node.TypeDecl?))
      && (n in res.root.entities && res.root.entities[n].decl.node.StructDecl? ==>
            res.ResolveType(t).node == UserType(res.root.entities[n].decl.loc, QualifiedName(RootModule, n), []))
  {
    var n := t.uid.name;
    if n in res.root.entities {
      LookupsByKind(res, n);
    }
  }

  /**
   * A prefixed identifier naming a struct or an alias, and no overload set,
   * is reported twice as written (codes 10 then 11) and once when the
   * visit returns after code 10.
   */
  lemma IdentifierOfTypeReportedTwice(res: NameResolver, e: Ast.Expr)
    requires res.Valid() && e.node.UnqualifiedIdentifier? && Supported(e.node.uid) && e.node.uid.prefix.Some?
    requires e.node.uid.name in res.root.entities && e.node.uid.name !in res.root.overloads
    requires !res.root.entities[e.node.uid.name].decl.node.Constant?
    ensures res.ResolveIdentifierAsWritten(e).codes == [10, 11]
    ensures res.ResolveIdentifier(e).codes == [10]
  {
  }
}
