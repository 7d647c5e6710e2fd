// Identifiers of the current AST (compiler/src/ast/modular_id.h): module
// paths, identifiers as the user wrote them, and fully-qualified identifiers.
module Ids {
  import opened Basics

  /** A module path such as `foo::bar::baz`; `fromRoot` when written with a leading `::`. */
  datatype ModuleID = ModuleID(fromRoot: bool, parts: seq<string>)

  /** A name part as the grammar produces it: non-empty and free of `:`. */
  predicate IsPart(s: string)
  {
    |s| > 0 && Avoids(s, ':')
  }

  predicate AllParts(parts: seq<string>)
  {
    forall i :: 0 <= i < |parts| ==> IsPart(parts[i])
  }

  /** ModuleID::to_string: the parts joined by `::`, with a leading `::` when rooted. */
  function ModuleString(m: ModuleID): string
  {
    var s := Join(m.parts, "::");
    if m.fromRoot then "::" + s else s
  }

  /** A non-empty join starts with its first part. */
  lemma {:induction false} JoinStartsWithHead(parts: seq<string>, sep: string)
    requires |parts| > 0
    ensures |Join(parts, sep)| >= |parts[0]| && Join(parts, sep)[..|parts[0]|] == parts[0]
  {
    if |parts| > 1 {
      assert Join(parts, sep) == parts[0] + (sep + Join(parts[1..], sep));
    }
  }

  /** Reads a module path back from its string (the inverse of ModuleString). */
  function ParseModule(s: string): (m: ModuleID)
    ensures m.fromRoot <==> |s| >= 2 && s[..2] == "::"
  {
    if |s| >= 2 && s[..2] == "::" then ModuleID(true, SplitParts(s[2..]))
    else ModuleID(false, SplitParts(s))
  }

  /** The parts of a `::`-joined path; the empty path has none. */
  function SplitParts(s: string): seq<string>
  {
    if s == "" then [] else Split(s, "::")
  }

  /** A module path made of proper parts prints to a string it can be read back from. */
  lemma ModuleStringRoundTrip(m: ModuleID)
    requires AllParts(m.parts) && (m.fromRoot || |m.parts| > 0)
    ensures ParseModule(ModuleString(m)) == m
  {
    var s := Join(m.parts, "::");
    if |m.parts| > 0 {
      SplitJoin(m.parts, "::");
      JoinStartsWithHead(m.parts, "::");
      assert s != "";
      if !m.fromRoot {
        assert s[0] == m.parts[0][0];
      }
    }
    if m.fromRoot {
      assert ("::" + s)[2..] == s;
    }
  }

  /** ModuleID's operator==: same rooting and elementwise-equal parts of the same length. */
  predicate ModulesEqual(lhs: ModuleID, rhs: ModuleID)
  {
    lhs.fromRoot == rhs.fromRoot && |lhs.parts| == |rhs.parts|
    && forall i :: 0 <= i < |lhs.parts| ==> lhs.parts[i] == rhs.parts[i]
  }

  /** ModuleID equality is equality of the values. */
  lemma ModulesEqualIsValueEquality(lhs: ModuleID, rhs: ModuleID)
    ensures ModulesEqual(lhs, rhs) <==> lhs == rhs
  {
    if ModulesEqual(lhs, rhs) {
      assert lhs.parts == rhs.parts;
    }
  }

  /** An identifier as written: an optional module prefix and a name. */
  datatype UnqualifiedID = UnqualifiedID(prefix: Option<ModuleID>, name: string)

  /** UnqualifiedID::to_string as written: the prefix string directly followed by the name. */
  function UnqualifiedString(id: UnqualifiedID): string
  {
    match id.prefix
    case None => id.name
    case Some(m) => ModuleString(m) + id.name
  }

  /** With no separator, `foo::bar` + `baz` and `foo` + `barbaz`... print alike. */
  lemma UnqualifiedStringCollides()
    ensures UnqualifiedString(UnqualifiedID(Some(ModuleID(false, ["foo"])), "bar"))
         == UnqualifiedString(UnqualifiedID(None, "foobar"))
  {
  }

  /** The evidently intended rendering: prefix, `::`, name (a bare `::` prefix needs no second separator). */
  function UnqualifiedStringFixed(id: UnqualifiedID): string
  {
    match id.prefix
    case None => id.name
    case Some(m) => if |m.parts| == 0 then ModuleString(m) + id.name else ModuleString(m) + "::" + id.name
  }

  /** Identifiers made of proper parts are told apart by the intended rendering. */
  lemma UnqualifiedStringFixedInjective(a: UnqualifiedID, b: UnqualifiedID)
    requires IsPart(a.name) && IsPart(b.name)
    requires a.prefix.Some? ==> AllParts(a.prefix.value.parts) && (a.prefix.value.fromRoot || |a.prefix.value.parts| > 0)
    requires b.prefix.Some? ==> AllParts(b.prefix.value.parts) && (b.prefix.value.fromRoot || |b.prefix.value.parts| > 0)
    requires UnqualifiedStringFixed(a) == UnqualifiedStringFixed(b)
    ensures a == b
  {
    var ma := FullModule(a);
    var mb := FullModule(b);
    FixedIsModuleString(a);
    FixedIsModuleString(b);
    ModuleStringRoundTrip(ma);
    ModuleStringRoundTrip(mb);
    assert ma == mb;
    IntoUnqualifiedUndoes(a);
    IntoUnqualifiedUndoes(b);
  }

  /** The whole path of an identifier, its name as the last part. */
  function FullModule(id: UnqualifiedID): ModuleID
  {
    match id.prefix
    case None => ModuleID(false, [id.name])
    case Some(m) => ModuleID(m.fromRoot, m.parts + [id.name])
  }

  /** The intended rendering of an identifier is the rendering of its whole path. */
  lemma FixedIsModuleString(id: UnqualifiedID)
    requires id.prefix.Some? ==> id.prefix.value.fromRoot || |id.prefix.value.parts| > 0
    ensures UnqualifiedStringFixed(id) == ModuleString(FullModule(id))
  {
    if id.prefix.Some? {
      var m := id.prefix.value;
      if |m.parts| > 0 {
        JoinSnoc(m.parts, id.name, "::");
      } else {
        assert m.parts + [id.name] == [id.name];
      }
    }
  }

  /** Splitting a path back into an identifier undoes FullModule, up to the empty rooted prefix. */
  lemma IntoUnqualifiedUndoes(id: UnqualifiedID)
    requires id.prefix.Some? ==> id.prefix.value.fromRoot || |id.prefix.value.parts| > 0
    ensures ModuleIntoUnqualified(FullModule(id)) == id
  {
    var full := FullModule(id);
    if id.prefix.Some? {
      assert full.parts[..|full.parts| - 1] == id.prefix.value.parts;
    }
  }

  /**
   * UnqualifiedID's operator== as written: names must match and the prefixes
   * are compared as optional pointers into each object, so two present
   * prefixes match only when both sides are the same object.
   */
  predicate UnqualifiedEqualAsWritten(lhs: UnqualifiedID, rhs: UnqualifiedID, sameObject: bool)
    requires sameObject ==> lhs == rhs
  {
    lhs.name == rhs.name
    && ((lhs.prefix.None? && rhs.prefix.None?) || (lhs.prefix.Some? && rhs.prefix.Some? && sameObject))
  }

  /** Two distinct objects holding the same prefixed identifier compare unequal. */
  lemma UnqualifiedEqualAsWrittenMissesCopies(id: UnqualifiedID)
    requires id.prefix.Some?
    ensures !UnqualifiedEqualAsWritten(id, id, false)
    ensures UnqualifiedEqualAsWritten(id, id, true)
  {
  }

  /** The evidently intended equality: equal names and equal optional module values. */
  predicate UnqualifiedEqual(lhs: UnqualifiedID, rhs: UnqualifiedID)
  {
    lhs.name == rhs.name
    && ((lhs.prefix.None? && rhs.prefix.None?)
        || (lhs.prefix.Some? && rhs.prefix.Some? && ModulesEqual(lhs.prefix.value, rhs.prefix.value)))
  }

  /** The intended equality is value equality, so it is an equivalence. */
  lemma UnqualifiedEqualIsValueEquality(lhs: UnqualifiedID, rhs: UnqualifiedID)
    ensures UnqualifiedEqual(lhs, rhs) <==> lhs == rhs
  {
    if lhs.prefix.Some? && rhs.prefix.Some? {
      ModulesEqualIsValueEquality(lhs.prefix.value, rhs.prefix.value);
    }
  }

  /**
   * module_into_unqualified: the last part becomes the name, the rest the
   * module; there is no module when nothing is left and the path was not rooted.
   */
  function ModuleIntoUnqualified(m: ModuleID): (id: UnqualifiedID)
    requires |m.parts| > 0
    ensures id.name == m.parts[|m.parts| - 1]
    ensures id.prefix.None? <==> |m.parts| == 1 && !m.fromRoot
    ensures id.prefix.Some? ==>
      id.prefix.value.fromRoot == m.fromRoot && id.prefix.value.parts + [id.name] == m.parts
  {
    var rest := m.parts[..|m.parts| - 1];
    var last := m.parts[|m.parts| - 1];
    assert rest + [last] == m.parts;
    UnqualifiedID(if |rest| == 0 && !m.fromRoot then None else Some(ModuleID(m.fromRoot, rest)), last)
  }

  /** Turning a path into an identifier and back loses nothing. */
  lemma ModuleIntoUnqualifiedRoundTrip(m: ModuleID)
    requires |m.parts| > 0
    ensures FullModule(ModuleIntoUnqualified(m)) == m
  {
  }

  /** The value a fully-qualified identifier stands for: its module string and its name. */
  datatype QualifiedName = QualifiedName(moduleString: string, name: string)

  /** FullyQualifiedID::as_string: the module string followed by the name. */
  function QualifiedString(q: QualifiedName): string
  {
    q.moduleString + q.name
  }

  /** FullyQualifiedID's operator==: equal names and equal module strings. */
  predicate QualifiedEqual(lhs: QualifiedName, rhs: QualifiedName)
  {
    lhs.name == rhs.name && lhs.moduleString == rhs.moduleString
  }

  /** Equality of fully-qualified identifiers is equality of the split, not of the joined string. */
  lemma QualifiedEqualIsSplitEquality(lhs: QualifiedName, rhs: QualifiedName)
    ensures QualifiedEqual(lhs, rhs) <==> lhs == rhs
    ensures QualifiedEqual(lhs, rhs) ==> QualifiedString(lhs) == QualifiedString(rhs)
  {
  }

  /** Two different splits of one string are different identifiers. */
  lemma QualifiedStringNotEnough()
    ensures QualifiedString(QualifiedName("::a", "b")) == QualifiedString(QualifiedName("::", "ab"))
    ensures !QualifiedEqual(QualifiedName("::a", "b"), QualifiedName("::", "ab"))
  {
  }

  /**
   * FullyQualifiedID: one owned string plus two views into it, the first
   * `moduleLength` characters being the module and the rest the name.
   */
  class FullyQualifiedID {
    var fullString: string
    var moduleLength: nat

    predicate Valid()
      reads this
    {
      moduleLength <= |fullString|
    }

    /** The module_string view. */
    function ModuleView(): string
      reads this
      requires Valid()
    {
      fullString[..moduleLength]
    }

    /** The name view. */
    function NameView(): string
      reads this
      requires Valid()
    {
      fullString[moduleLength..]
    }

    /** The identifier this object currently stands for. */
    function Value(): (q: QualifiedName)
      reads this
      requires Valid()
      ensures QualifiedString(q) == fullString
    {
      assert fullString[..moduleLength] + fullString[moduleLength..] == fullString;
      QualifiedName(ModuleView(), NameView())
    }

    /** Builds the string once and points the views at its two halves. */
    constructor (moduleString: string, id: string)
      ensures Valid() && Value() == QualifiedName(moduleString, id)
    {
      fullString := moduleString + id;
      moduleLength := |moduleString|;
      assert (moduleString + id)[..|moduleString|] == moduleString;
      assert (moduleString + id)[|moduleString|..] == id;
    }

    /** The copy (and move) constructor: copies the string and re-points the views at the same split. */
    constructor Copy(other: FullyQualifiedID)
      requires other.Valid()
      ensures Valid() && Value() == other.Value()
    {
      fullString := other.fullString;
      moduleLength := |other.ModuleView()|;
    }

    /** Copy (and move) assignment: same effect as the copy constructor, also when assigning to itself. */
    method Assign(other: FullyQualifiedID)
      requires other.Valid()
      modifies this
      ensures Valid() && Value() == old(other.Value())
    {
      var moduleSize := |other.ModuleView()|;
      fullString := other.fullString;
      moduleLength := moduleSize;
    }

    /** operator==, comparing the views. */
    predicate Equals(other: FullyQualifiedID)
      reads this, other
      requires Valid() && other.Valid()
      ensures Equals(other) <==> Value() == other.Value()
    {
      NameView() == other.NameView() && ModuleView() == other.ModuleView()
    }
  }
}

// The identifiers of the older AST (compiler/src/ast/nodes/modular_id.h).
module LegacyIds {
  import opened Basics

  /** A module path given by its parts; there is no rooting flag. */
  datatype ModuleID = ModuleID(parts: seq<string>)

  /** An entity name inside a module. */
  datatype FullyQualifiedID = FullyQualifiedID(mod: ModuleID, name: string)

  /** ModuleID::to_string: the parts joined by `::`, no leading separator. */
  function ModuleString(m: ModuleID): string
  {
    Join(m.parts, "::")
  }

  /** FullyQualifiedID::to_string: module string, `::`, name. */
  function QualifiedString(id: FullyQualifiedID): string
  {
    ModuleString(id.mod) + "::" + id.name
  }

  /** Splitting the rendering on `::` gives the module parts followed by the name. */
  lemma QualifiedStringSplits(id: FullyQualifiedID)
    requires |id.mod.parts| > 0 && Avoids(id.name, ':')
    requires forall i :: 0 <= i < |id.mod.parts| ==> Avoids(id.mod.parts[i], ':')
    ensures Split(QualifiedString(id), "::") == id.mod.parts + [id.name]
  {
    JoinSnoc(id.mod.parts, id.name, "::");
    var all := id.mod.parts + [id.name];
    assert forall i :: 0 <= i < |all| ==> Avoids(all[i], ':') by {
      forall i | 0 <= i < |all| ensures Avoids(all[i], ':') {
        if i < |id.mod.parts| { assert all[i] == id.mod.parts[i]; }
      }
    }
    SplitJoin(all, "::");
  }

  /** An empty module still contributes the separator: the rendering starts with `::`. */
  lemma EmptyModuleRendersRooted(name: string)
    ensures QualifiedString(FullyQualifiedID(ModuleID([]), name)) == "::" + name
  {
  }
}

// Source positions (compiler/src/ast/source_loc.h).
module SourceLocs {
  /** Where a node came from: its raw text, line, column and file. */
  datatype SourceLoc = SourceLoc(raw: string, line: nat, column: nat, file: string)

  /** The location given to compiler-made nodes (SourceLoc::nonexistent is not part of this model; an empty location stands for it). */
  const Nonexistent := SourceLoc("", 0, 0, "")

  /** SourceLoc's operator==: raw text, line, column and file all equal. */
  predicate LocEqual(a: SourceLoc, b: SourceLoc)
  {
    a.raw == b.raw && a.line == b.line && a.column == b.column && a.file == b.file
  }

  /** Location equality is value equality. */
  lemma LocEqualIsValueEquality(a: SourceLoc, b: SourceLoc)
    ensures LocEqual(a, b) <==> a == b
  {
  }
}
