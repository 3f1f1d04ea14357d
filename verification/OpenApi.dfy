/**
 * The OpenAPI document: schemas of annotations, which may be recursive through named classes, and
 * operation ids, which are made unique. A class is described once, as a component under its name,
 * and referred to by that name; an entry in progress stands in the components already, which is
 * what ends recursion.
 */
module OpenApi {
  import opened Wrappers
  import opened Rules
  import RouteBuild
  import Sequences

  // ---------------------------------------------------------------------
  // Operation ids
  // ---------------------------------------------------------------------

  /** `f"{base}_{n}"`. */
  function Numbered(base: string, n: nat): string {
    base + "_" + RouteBuild.IntText(n)
  }

  lemma NumberedIsInjective(base: string, m: nat, n: nat)
    requires Numbered(base, m) == Numbered(base, n)
    ensures m == n
  {
    RouteBuild.IntTextRead(m);
    RouteBuild.IntTextRead(n);
    var a, b := RouteBuild.IntText(m), RouteBuild.IntText(n);
    Sequences.Cut(base + "_", a);
    Sequences.Cut(base + "_", b);
  }

  /** Every id tried before the one with number `n` is taken. */
  ghost predicate AllTaken(ids: set<string>, base: string, n: nat) {
    base in ids && forall k :: 2 <= k < n ==> Numbered(base, k) in ids
  }

  /** The ids tried before the one with number `n`. */
  ghost function Tried(base: string, n: nat): set<string>
    requires n >= 2
  {
    if n == 2 then {base} else Tried(base, n - 1) + {Numbered(base, n - 1)}
  }

  lemma {:induction false} TriedIsShort(base: string, n: nat, m: nat)
    requires 2 <= n <= m
    ensures Numbered(base, m) !in Tried(base, n)
  {
    if n == 2 {
      assert |Numbered(base, m)| > |base|;
    } else {
      TriedIsShort(base, n - 1, m);
      if Numbered(base, m) == Numbered(base, n - 1) {
        NumberedIsInjective(base, m, n - 1);
      }
    }
  }

  /** As many ids were tried as numbers went by, so the numbers cannot all be taken. */
  lemma {:induction false} TriedAreTaken(ids: set<string>, base: string, n: nat)
    requires n >= 2 && AllTaken(ids, base, n)
    ensures Tried(base, n) <= ids && |Tried(base, n)| == n - 1
  {
    if n > 2 {
      TriedAreTaken(ids, base, n - 1);
      TriedIsShort(base, n - 1, n - 1);
    }
  }

  /** An id not taken yet: the wanted one, else it and the method, else the first free number from 2 on. */
  method UniqueId(ids: set<string>, wanted: string, verb: string) returns (id: string)
    ensures id !in ids
    ensures wanted !in ids ==> id == wanted
    ensures var base := wanted + "_" + verb;
      wanted in ids ==>
        if base !in ids then id == base
        else exists n: nat :: n >= 2 && id == Numbered(base, n) && AllTaken(ids, base, n)
  {
    hide Numbered;
    if wanted !in ids {
      return wanted;
    }
    var base := wanted + "_" + verb;
    var suffix, candidate := 2, base;
    while candidate in ids
      invariant suffix >= 2
      invariant candidate == if suffix == 2 then base else Numbered(base, suffix - 1)
      invariant suffix > 2 ==> AllTaken(ids, base, suffix - 1)
      decreases |ids| + 2 - suffix
    {
      TriedAreTaken(ids, base, suffix);
      Sequences.SubsetIsSmaller(Tried(base, suffix), ids);
      candidate := Numbered(base, suffix);
      suffix := suffix + 1;
    }
    id := candidate;
    assert suffix > 2 ==> id == Numbered(base, suffix - 1) && AllTaken(ids, base, suffix - 1);
  }

  datatype Operation = Operation(path: string, verb: string, wanted: string)

  /** No earlier operation got the name. */
  predicate Unclaimed(names: seq<string>, i: nat, name: string)
    requires i <= |names|
  {
    name !in names[..i]
  }

  /** Every operation gets an id, no two the same, and its own wish unless an earlier one has it. */
  method NameOperations(operations: seq<Operation>) returns (names: seq<string>)
    ensures |names| == |operations|
    ensures forall i, j :: 0 <= i < j < |names| ==> names[i] != names[j]
    ensures forall i :: 0 <= i < |names| && Unclaimed(names, i, operations[i].wanted) ==>
      names[i] == operations[i].wanted
  {
    names := [];
    var ids: set<string> := {};
    for i := 0 to |operations|
      invariant |names| == i
      invariant forall x :: x in ids <==> x in names
      invariant forall a, b :: 0 <= a < b < i ==> names[a] != names[b]
      invariant forall a :: 0 <= a < i && Unclaimed(names, a, operations[a].wanted) ==> names[a] == operations[a].wanted
    {
      var id := UniqueId(ids, operations[i].wanted, operations[i].verb);
      ghost var before := names;
      names := names + [id];
      ids := ids + {id};
      assert names[..i] == before;
      assert forall a :: 0 <= a < i ==> names[..a] == before[..a];
    }
  }

  // ---------------------------------------------------------------------
  // Schemas
  // ---------------------------------------------------------------------

  type Id = nat

  datatype Type =
    | Anything
    | Primitive(kind: nat)
    | Array(item: Type, unique: bool)
    | Tuple(items: seq<Type>)
    | Mapping(value: Type)
    | Union(options: seq<Type>)
    | Class(id: Id)

  datatype Field = Field(name: string, fieldType: Type, required: bool)

  /** A dataclass or typed dictionary: its `__name__` and its fields. */
  datatype ClassInfo = ClassInfo(name: string, fields: seq<Field>)

  type Classes = map<Id, ClassInfo>

  datatype Schema =
    | Free
    | Simple(kind: nat)
    | ArrayOf(item: Schema, unique: bool)
    | TupleOf(items: seq<Schema>)
    | MapOf(value: Schema)
    | AnyOf(options: seq<Schema>)
    | Ref(name: string)
    | Pending
    | Object(properties: seq<(string, Schema)>, required: seq<string>)

  function Size(t: Type): nat {
    match t
    case Array(item, _) => 1 + Size(item)
    case Tuple(items) => 1 + SizeAll(items)
    case Mapping(value) => 1 + Size(value)
    case Union(options) => 1 + SizeAll(options)
    case _ => 1
  }

  function SizeAll(ts: seq<Type>): nat {
    if ts == [] then 0 else 1 + Size(ts[0]) + SizeAll(ts[1..])
  }

  /** Every class named in a type is known. */
  predicate Known(classes: Classes, t: Type) {
    match t
    case Array(item, _) => Known(classes, item)
    case Tuple(items) => forall i :: 0 <= i < |items| ==> Known(classes, items[i])
    case Mapping(value) => Known(classes, value)
    case Union(options) => forall i :: 0 <= i < |options| ==> Known(classes, options[i])
    case Class(id) => id in classes
    case _ => true
  }

  predicate Closed(classes: Classes) {
    forall id | id in classes ::
      forall i :: 0 <= i < |classes[id].fields| ==> Known(classes, classes[id].fields[i].fieldType)
  }

  /** What a schema says is what the type says; a reference goes by the name of the class. */
  predicate Means(classes: Classes, s: Schema, t: Type) {
    match t
    case Anything => s == Free
    case Primitive(kind) => s == Simple(kind)
    case Array(item, unique) => s.ArrayOf? && s.unique == unique && Means(classes, s.item, item)
    case Tuple(items) =>
      s.TupleOf? && |s.items| == |items| && forall i :: 0 <= i < |items| ==> Means(classes, s.items[i], items[i])
    case Mapping(value) => s.MapOf? && Means(classes, s.value, value)
    case Union(options) =>
      && s.AnyOf? && |s.options| == |options|
      && forall i :: 0 <= i < |options| ==> Means(classes, s.options[i], options[i])
    case Class(id) => id in classes && s == Ref(classes[id].name)
  }

  /** The names a schema refers to. */
  predicate RefersOnly(s: Schema, names: set<string>) {
    match s
    case ArrayOf(item, _) => RefersOnly(item, names)
    case TupleOf(items) => forall i :: 0 <= i < |items| ==> RefersOnly(items[i], names)
    case MapOf(value) => RefersOnly(value, names)
    case AnyOf(options) => forall i :: 0 <= i < |options| ==> RefersOnly(options[i], names)
    case Ref(name) => name in names
    case Object(properties, _) => forall i :: 0 <= i < |properties| ==> RefersOnly(properties[i].1, names)
    case _ => true
  }

  function RequiredNames(fields: seq<Field>): seq<string> {
    if fields == [] then []
    else (if fields[0].required then [fields[0].name] else []) + RequiredNames(fields[1..])
  }

  /** The schema of a class: its fields in order, and the names of the required ones. */
  predicate Describes(classes: Classes, s: Schema, info: ClassInfo) {
    && s.Object? && |s.properties| == |info.fields| && s.required == RequiredNames(info.fields)
    && forall i :: 0 <= i < |info.fields| ==>
         s.properties[i].0 == info.fields[i].name && Means(classes, s.properties[i].1, info.fields[i].fieldType)
  }

  function NamesOf(classes: Classes): set<string> {
    set id | id in classes :: classes[id].name
  }

  /** Every reference is to an entry. */
  ghost predicate Defined(schemas: map<string, Schema>) {
    forall n :: n in schemas ==> RefersOnly(schemas[n], schemas.Keys)
  }

  /** What building a schema adds: complete entries, each describing a class of its name. */
  ghost predicate Grows(classes: Classes, before: map<string, Schema>, after: map<string, Schema>) {
    && Defined(after) && after.Keys <= NamesOf(classes)
    && (forall n :: n in before ==> n in after && after[n] == before[n])
    && (forall n :: n in after && n !in before ==>
          exists id :: id in classes && classes[id].name == n && Describes(classes, after[n], classes[id]))
  }

  lemma {:induction false} RefersMore(s: Schema, a: set<string>, b: set<string>)
    requires RefersOnly(s, a) && a <= b
    ensures RefersOnly(s, b)
    decreases s
  {
    match s
    case ArrayOf(item, _) => RefersMore(item, a, b);
    case MapOf(value) => RefersMore(value, a, b);
    case TupleOf(items) =>
      forall i | 0 <= i < |items| ensures RefersOnly(items[i], b) {
        RefersMore(items[i], a, b);
      }
    case AnyOf(options) =>
      forall i | 0 <= i < |options| ensures RefersOnly(options[i], b) {
        RefersMore(options[i], a, b);
      }
    case Object(properties, _) =>
      forall i | 0 <= i < |properties| ensures RefersOnly(properties[i].1, b) {
        RefersMore(properties[i].1, a, b);
      }
    case _ =>
  }

  lemma GrowsOn(classes: Classes, a: map<string, Schema>, b: map<string, Schema>, c: map<string, Schema>)
    requires Grows(classes, a, b) && Grows(classes, b, c)
    ensures Grows(classes, a, c)
  {
    hide Describes, Defined, NamesOf;
  }

  lemma GrowsNot(classes: Classes, a: map<string, Schema>)
    requires Defined(a) && a.Keys <= NamesOf(classes)
    ensures Grows(classes, a, a)
  {
  }

  function Left(classes: Classes, schemas: map<string, Schema>): nat {
    |NamesOf(classes) - schemas.Keys|
  }

  lemma LeftShrinks(classes: Classes, a: map<string, Schema>, b: map<string, Schema>)
    requires a.Keys <= b.Keys
    ensures Left(classes, b) <= Left(classes, a)
    ensures forall n :: n in NamesOf(classes) && n in b && n !in a ==> Left(classes, b) < Left(classes, a)
  {
    var x, y := NamesOf(classes) - a.Keys, NamesOf(classes) - b.Keys;
    assert x == y + (x - y);
    assert |x| == |y| + |x - y|;
    forall n | n in NamesOf(classes) && n in b && n !in a ensures |x - y| > 0 {
      assert n in x - y;
    }
  }

  predicate AllMean(classes: Classes, ss: seq<Schema>, ts: seq<Type>) {
    |ss| == |ts| && forall i :: 0 <= i < |ts| ==> Means(classes, ss[i], ts[i])
  }

  predicate AllRefer(ss: seq<Schema>, names: set<string>) {
    forall i :: 0 <= i < |ss| ==> RefersOnly(ss[i], names)
  }

  lemma NothingYet(classes: Classes, names: set<string>)
    ensures AllMean(classes, [], []) && AllRefer([], names)
  {
  }

  lemma {:induction false} OneMore(classes: Classes, ss: seq<Schema>, ts: seq<Type>, i: nat, s: Schema,
                                   a: set<string>, b: set<string>)
    requires i < |ts| && AllMean(classes, ss, ts[..i]) && AllRefer(ss, a) && a <= b
    requires Means(classes, s, ts[i]) && RefersOnly(s, b)
    ensures AllMean(classes, ss + [s], ts[..i + 1]) && AllRefer(ss + [s], b)
  {
    hide Means, RefersOnly;
    forall k | 0 <= k < |ss| ensures RefersOnly(ss[k], b) {
      RefersMore(ss[k], a, b);
    }
  }

  lemma {:induction false} SizeAt(ts: seq<Type>, i: nat)
    requires i < |ts|
    ensures Size(ts[i]) < SizeAll(ts)
  {
    if i > 0 {
      SizeAt(ts[1..], i - 1);
    }
  }

  lemma GrownKeys(classes: Classes, a: map<string, Schema>, b: map<string, Schema>)
    requires Grows(classes, a, b)
    ensures a.Keys <= b.Keys
  {
  }

  lemma GrowsValid(classes: Classes, a: map<string, Schema>, b: map<string, Schema>)
    requires Grows(classes, a, b)
    ensures Defined(b) && b.Keys <= NamesOf(classes)
  {
  }

  lemma {:induction false} ClassKnown(classes: Classes, id: Id)
    requires id in classes
    ensures classes[id].name in NamesOf(classes)
    ensures Closed(classes) ==>
      forall i :: 0 <= i < |classes[id].fields| ==> Known(classes, classes[id].fields[i].fieldType)
  {
  }

  lemma PendingIsValid(classes: Classes, before: map<string, Schema>, name: string)
    requires Defined(before) && before.Keys <= NamesOf(classes) && name !in before && name in NamesOf(classes)
    ensures var pending := before[name := Pending]; Defined(pending) && pending.Keys <= NamesOf(classes)
  {
    forall n | n in before ensures RefersOnly(before[n], before[name := Pending].Keys) {
      RefersMore(before[n], before.Keys, before[name := Pending].Keys);
    }
  }

  /** The entry in progress is replaced by the finished schema. */
  lemma {:induction false} Completed(classes: Classes, before: map<string, Schema>, after: map<string, Schema>,
                                     s: Schema, id: Id)
    requires id in classes && classes[id].name !in before
    requires Grows(classes, before[classes[id].name := Pending], after)
    requires Describes(classes, s, classes[id]) && RefersOnly(s, after.Keys)
    ensures Grows(classes, before, after[classes[id].name := s])
  {
    hide Describes;
    var name := classes[id].name;
    assert name in before[name := Pending];
    var done := after[name := s];
    assert done.Keys == after.Keys;
  }

  function TypesOf(fields: seq<Field>): seq<Type> {
    seq(|fields|, i requires 0 <= i < |fields| => fields[i].fieldType)
  }

  function Zip(names: seq<string>, ss: seq<Schema>): seq<(string, Schema)>
    requires |names| == |ss|
  {
    seq(|names|, i requires 0 <= i < |names| => (names[i], ss[i]))
  }

  class Components {
    const classes: Classes
    var schemas: map<string, Schema>

    constructor (classes: Classes)
      requires Closed(classes)
      ensures Valid() && schemas == map[] && this.classes == classes
    {
      this.classes, schemas := classes, map[];
    }

    ghost predicate Valid()
      reads this
    {
      Closed(classes) && Defined(schemas) && schemas.Keys <= NamesOf(classes)
    }

    /** `schema_for`, which ends on every recursive type and leaves no reference undefined. */
    method SchemaFor(t: Type) returns (s: Schema)
      requires Valid() && Known(classes, t)
      modifies this`schemas
      ensures Valid() && Grows(classes, old(schemas), schemas)
      ensures Means(classes, s, t) && RefersOnly(s, schemas.Keys)
      decreases Left(classes, schemas), Size(t)
    {
      hide Closed, Defined, Left, NamesOf, Grows;
      if t.Anything? || t.Primitive? {
        GrowsNot(classes, schemas);
        return if t.Anything? then Free else Simple(t.kind);
      } else if t.Array? {
        var item := SchemaFor(t.item);
        return ArrayOf(item, t.unique);
      } else if t.Tuple? {
        var items := SchemasFor(t.items);
        return TupleOf(items);
      } else if t.Mapping? {
        var value := SchemaFor(t.value);
        return MapOf(value);
      } else if t.Union? {
        var options := SchemasFor(t.options);
        return AnyOf(options);
      } else {
        var info := classes[t.id];
        ClassKnown(classes, t.id);
        if info.name in schemas {
          GrowsNot(classes, schemas);
        } else {
          ghost var before := schemas;
          schemas := schemas[info.name := Pending];
          ghost var pending := schemas;
          PendingIsValid(classes, before, info.name);
          LeftShrinks(classes, before, schemas);
          var values := SchemasFor(TypesOf(info.fields));
          var names := seq(|info.fields|, i requires 0 <= i < |info.fields| => info.fields[i].name);
          var entry := Object(Zip(names, values), RequiredNames(info.fields));
          Completed(classes, before, schemas, entry, t.id);
          GrownKeys(classes, pending, schemas);
          schemas := schemas[info.name := entry];
          GrowsValid(classes, before, schemas);
        }
        return Ref(info.name);
      }
    }

    method SchemasFor(ts: seq<Type>) returns (ss: seq<Schema>)
      requires Valid() && forall i :: 0 <= i < |ts| ==> Known(classes, ts[i])
      modifies this`schemas
      ensures Valid() && Grows(classes, old(schemas), schemas)
      ensures AllMean(classes, ss, ts) && AllRefer(ss, schemas.Keys)
      decreases Left(classes, schemas), SizeAll(ts)
    {
      hide Closed, Defined, Left, NamesOf, Grows, Means, RefersOnly, Known, AllMean, AllRefer;
      ghost var before := schemas;
      GrowsNot(classes, schemas);
      NothingYet(classes, schemas.Keys);
      ss := [];
      for i := 0 to |ts|
        invariant Valid() && Grows(classes, before, schemas)
        invariant AllMean(classes, ss, ts[..i]) && AllRefer(ss, schemas.Keys)
      {
        ghost var between := schemas;
        SizeAt(ts, i);
        GrownKeys(classes, before, between);
        LeftShrinks(classes, before, between);
        var schema := SchemaFor(ts[i]);
        GrownKeys(classes, between, schemas);
        GrowsOn(classes, before, between, schemas);
        OneMore(classes, ss, ts, i, schema, between.Keys, schemas.Keys);
        ss := ss + [schema];
      }
      assert ts[..|ts|] == ts;
    }
  }

  // ---------------------------------------------------------------------
  // When references mean their own classes
  // ---------------------------------------------------------------------

  /** The one schema that means a type. */
  function SchemaOf(classes: Classes, t: Type): Schema
    requires Known(classes, t)
  {
    match t
    case Anything => Free
    case Primitive(kind) => Simple(kind)
    case Array(item, unique) => ArrayOf(SchemaOf(classes, item), unique)
    case Tuple(items) => TupleOf(seq(|items|, i requires 0 <= i < |items| => SchemaOf(classes, items[i])))
    case Mapping(value) => MapOf(SchemaOf(classes, value))
    case Union(options) => AnyOf(seq(|options|, i requires 0 <= i < |options| => SchemaOf(classes, options[i])))
    case Class(id) => Ref(classes[id].name)
  }

  lemma {:induction false} MeansIs(classes: Classes, s: Schema, t: Type)
    requires Known(classes, t)
    ensures Means(classes, s, t) <==> s == SchemaOf(classes, t)
    decreases t
  {
    match t
    case Array(item, unique) =>
      if s.ArrayOf? {
        MeansIs(classes, s.item, item);
      }
    case Mapping(value) =>
      if s.MapOf? {
        MeansIs(classes, s.value, value);
      }
    case Tuple(items) =>
      if s.TupleOf? && |s.items| == |items| {
        forall i | 0 <= i < |items|
          ensures Means(classes, s.items[i], items[i]) <==> s.items[i] == SchemaOf(classes, items[i])
        {
          MeansIs(classes, s.items[i], items[i]);
        }
      }
    case Union(options) =>
      if s.AnyOf? && |s.options| == |options| {
        forall i | 0 <= i < |options|
          ensures Means(classes, s.options[i], options[i]) <==> s.options[i] == SchemaOf(classes, options[i])
        {
          MeansIs(classes, s.options[i], options[i]);
        }
      }
    case _ =>
  }

  /** A class's own schema. */
  function ClassSchema(classes: Classes, info: ClassInfo): Schema
    requires forall i :: 0 <= i < |info.fields| ==> Known(classes, info.fields[i].fieldType)
  {
    Object(seq(|info.fields|, i requires 0 <= i < |info.fields| =>
             (info.fields[i].name, SchemaOf(classes, info.fields[i].fieldType))), RequiredNames(info.fields))
  }

  lemma {:induction false} DescribesIs(classes: Classes, s: Schema, info: ClassInfo)
    requires forall i :: 0 <= i < |info.fields| ==> Known(classes, info.fields[i].fieldType)
    ensures Describes(classes, s, info) <==> s == ClassSchema(classes, info)
  {
    hide Means, SchemaOf;
    if s.Object? && |s.properties| == |info.fields| {
      forall i | 0 <= i < |info.fields|
        ensures Means(classes, s.properties[i].1, info.fields[i].fieldType)
           <==> s.properties[i].1 == SchemaOf(classes, info.fields[i].fieldType)
      {
        MeansIs(classes, s.properties[i].1, info.fields[i].fieldType);
      }
      if Describes(classes, s, info) {
        assert forall i :: 0 <= i < |info.fields| ==> s.properties[i] == (s.properties[i].0, s.properties[i].1);
        assert s.properties == ClassSchema(classes, info).properties;
      }
    }
  }

  /** The type names the class. */
  predicate Mentions(t: Type, id: Id) {
    match t
    case Array(item, _) => Mentions(item, id)
    case Tuple(items) => exists i :: 0 <= i < |items| && Mentions(items[i], id)
    case Mapping(value) => Mentions(value, id)
    case Union(options) => exists i :: 0 <= i < |options| && Mentions(options[i], id)
    case Class(other) => other == id
    case _ => false
  }

  predicate FieldMentions(classes: Classes, a: Id, b: Id) {
    a in classes && exists i :: 0 <= i < |classes[a].fields| && Mentions(classes[a].fields[i].fieldType, b)
  }

  /** A chain of classes, the first named by the type and each next one by a field of the one before. */
  predicate MeetsAlong(classes: Classes, t: Type, path: seq<Id>) {
    && path != [] && Mentions(t, path[0])
    && forall i :: 0 < i < |path| ==> FieldMentions(classes, path[i - 1], path[i])
  }

  /** Every class is met from the type. */
  ghost predicate AllMet(classes: Classes, t: Type) {
    forall id | id in classes :: exists path :: MeetsAlong(classes, t, path) && path[|path| - 1] == id
  }

  /** No two classes of one name have different schemas. */
  predicate Unambiguous(classes: Classes)
    requires Closed(classes)
  {
    forall a, b | a in classes && b in classes && classes[a].name == classes[b].name ::
      ClassSchema(classes, classes[a]) == ClassSchema(classes, classes[b])
  }

  /** The entry under a class's name is its own schema. */
  predicate ResolvesOwn(classes: Classes, schemas: map<string, Schema>, id: Id)
    requires Closed(classes) && id in classes
  {
    classes[id].name in schemas && schemas[classes[id].name] == ClassSchema(classes, classes[id])
  }

  lemma {:induction false} MentionedIsNamed(classes: Classes, t: Type, s: Schema, id: Id, names: set<string>)
    requires Means(classes, s, t) && RefersOnly(s, names) && Mentions(t, id)
    ensures id in classes && classes[id].name in names
    decreases t
  {
    match t
    case Array(item, _) => MentionedIsNamed(classes, item, s.item, id, names);
    case Mapping(value) => MentionedIsNamed(classes, value, s.value, id, names);
    case Tuple(items) =>
      var i :| 0 <= i < |items| && Mentions(items[i], id);
      MentionedIsNamed(classes, items[i], s.items[i], id, names);
    case Union(options) =>
      var i :| 0 <= i < |options| && Mentions(options[i], id);
      MentionedIsNamed(classes, options[i], s.options[i], id, names);
    case _ =>
  }

  /** An entry is the schema of some class of its name, so of every one if names are unambiguous. */
  lemma EntryIsOwn(classes: Classes, schemas: map<string, Schema>, id: Id)
    requires Closed(classes) && Unambiguous(classes) && Grows(classes, map[], schemas)
    requires id in classes && classes[id].name in schemas
    ensures ResolvesOwn(classes, schemas, id)
  {
    hide Describes, ClassSchema;
    var name := classes[id].name;
    var other :| other in classes && classes[other].name == name && Describes(classes, schemas[name], classes[other]);
    DescribesIs(classes, schemas[name], classes[other]);
  }

  lemma FieldIsNamed(classes: Classes, schemas: map<string, Schema>, parent: Id, id: Id)
    requires Closed(classes) && Defined(schemas)
    requires FieldMentions(classes, parent, id) && ResolvesOwn(classes, schemas, parent)
    ensures id in classes && classes[id].name in schemas
  {
    hide Means, Mentions, SchemaOf;
    var info, entry := classes[parent], schemas[classes[parent].name];
    var i :| 0 <= i < |info.fields| && Mentions(info.fields[i].fieldType, id);
    DescribesIs(classes, entry, info);
    assert RefersOnly(entry, schemas.Keys);
    MentionedIsNamed(classes, info.fields[i].fieldType, entry.properties[i].1, id, schemas.Keys);
  }

  lemma {:induction false} MetIsOwn(classes: Classes, t: Type, s: Schema, schemas: map<string, Schema>, path: seq<Id>)
    requires Closed(classes) && Unambiguous(classes) && Grows(classes, map[], schemas)
    requires Means(classes, s, t) && RefersOnly(s, schemas.Keys) && MeetsAlong(classes, t, path)
    ensures path[|path| - 1] in classes && ResolvesOwn(classes, schemas, path[|path| - 1])
    decreases |path|
  {
    hide Means, RefersOnly, Mentions, ClassSchema, Unambiguous, Describes;
    var last := path[|path| - 1];
    if |path| == 1 {
      MentionedIsNamed(classes, t, s, last, schemas.Keys);
    } else {
      var front := path[..|path| - 1];
      var parent := front[|front| - 1];
      MetIsOwn(classes, t, s, schemas, front);
      assert FieldMentions(classes, parent, last);
      FieldIsNamed(classes, schemas, parent, last);
    }
    EntryIsOwn(classes, schemas, last);
  }

  /**
   * Once the schema of a type is built, every class met from it is described by the entry its
   * references name exactly when no two of them share a name and have different schemas.
   */
  lemma {:induction false} ReferencesResolve(classes: Classes, t: Type, s: Schema, schemas: map<string, Schema>)
    requires Closed(classes) && AllMet(classes, t) && Grows(classes, map[], schemas)
    requires Means(classes, s, t) && RefersOnly(s, schemas.Keys)
    ensures (forall id | id in classes :: ResolvesOwn(classes, schemas, id)) <==> Unambiguous(classes)
  {
    hide Means, RefersOnly, Mentions, FieldMentions, ClassSchema, Grows;
    if Unambiguous(classes) {
      forall id | id in classes ensures ResolvesOwn(classes, schemas, id) {
        var path :| MeetsAlong(classes, t, path) && path[|path| - 1] == id;
        MetIsOwn(classes, t, s, schemas, path);
      }
    }
  }

  predicate IsRequired(fields: seq<Field>, name: string) {
    exists i :: 0 <= i < |fields| && fields[i].required && fields[i].name == name
  }

  lemma {:induction false} RequiredAre(fields: seq<Field>)
    ensures forall n :: n in RequiredNames(fields) <==> IsRequired(fields, n)
  {
    if fields != [] {
      var rest := fields[1..];
      RequiredAre(rest);
      forall n ensures n in RequiredNames(fields) <==> IsRequired(fields, n) {
        if IsRequired(fields, n) {
          var i :| 0 <= i < |fields| && fields[i].required && fields[i].name == n;
          assert i > 0 ==> rest[i - 1] == fields[i];
        }
        if IsRequired(rest, n) {
          var i :| 0 <= i < |rest| && rest[i].required && rest[i].name == n;
          assert fields[i + 1] == rest[i];
        }
      }
    }
  }

  /** An object schema with the fields of a class, in order and by name, and the required ones listed. */
  ghost predicate ListsFields(classes: Classes, s: Schema, info: ClassInfo) {
    && s.Object? && |s.properties| == |info.fields|
    && (forall i :: 0 <= i < |info.fields| ==>
          s.properties[i].0 == info.fields[i].name && Means(classes, s.properties[i].1, info.fields[i].fieldType))
    && forall n :: n in s.required <==> IsRequired(info.fields, n)
  }

  lemma DescribedListsFields(classes: Classes, s: Schema, info: ClassInfo)
    requires Describes(classes, s, info)
    ensures ListsFields(classes, s, info)
  {
    hide Means, IsRequired;
    RequiredAre(info.fields);
  }

  lemma EntriesListFields(classes: Classes, schemas: map<string, Schema>)
    requires Grows(classes, map[], schemas)
    ensures forall n :: n in schemas ==>
      exists id :: id in classes && classes[id].name == n && ListsFields(classes, schemas[n], classes[id])
  {
    hide Describes, ListsFields, Defined, NamesOf;
    forall n | n in schemas
      ensures exists id :: id in classes && classes[id].name == n && ListsFields(classes, schemas[n], classes[id])
    {
      var id :| id in classes && classes[id].name == n && Describes(classes, schemas[n], classes[id]);
      DescribedListsFields(classes, schemas[n], classes[id]);
    }
  }

  /** The schema of one type, in components of its own. */
  method Describe(classes: Classes, t: Type) returns (s: Schema, schemas: map<string, Schema>)
    requires Closed(classes) && Known(classes, t) && AllMet(classes, t)
    ensures Means(classes, s, t) && RefersOnly(s, schemas.Keys) && Defined(schemas)
    ensures (forall id | id in classes :: ResolvesOwn(classes, schemas, id)) <==> Unambiguous(classes)
    ensures forall n :: n in schemas ==>
      exists id :: id in classes && classes[id].name == n && ListsFields(classes, schemas[n], classes[id])
  {
    hide Means, RefersOnly, AllMet, ResolvesOwn, Unambiguous, ListsFields;
    var components := new Components(classes);
    s := components.SchemaFor(t);
    schemas := components.schemas;
    ReferencesResolve(classes, t, s, schemas);
    EntriesListFields(classes, schemas);
  }

  const FIRST := ClassInfo("A", [Field("x", Primitive(0), true)])
  const SECOND := ClassInfo("A", [Field("y", Primitive(1), true)])

  /** Two classes of one name: both references say "A", and one of the classes is not what it stands for. */
  lemma {:induction false} SameNameMisdescribes(s: Schema, schemas: map<string, Schema>)
    requires var classes: Classes, t := map[0 := FIRST, 1 := SECOND], Tuple([Class(0), Class(1)]);
      Means(classes, s, t) && RefersOnly(s, schemas.Keys) && Grows(classes, map[], schemas)
    ensures var classes: Classes, t := map[0 := FIRST, 1 := SECOND], Tuple([Class(0), Class(1)]);
      && Closed(classes) && Known(classes, t)
      && s == TupleOf([Ref("A"), Ref("A")])
      && !(ResolvesOwn(classes, schemas, 0) && ResolvesOwn(classes, schemas, 1))
  {
    var classes: Classes, t := map[0 := FIRST, 1 := SECOND], Tuple([Class(0), Class(1)]);
    assert s.items == [s.items[0], s.items[1]];
    assert ClassSchema(classes, FIRST).properties[0].0 == "x";
    assert ClassSchema(classes, SECOND).properties[0].0 == "y";
    assert "x"[0] != "y"[0];
  }
}
