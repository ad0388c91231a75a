/**
 Definitions as the shared objects they are, and the cycle check of packages/ai/src/schema.ts.

 A definition refers to others by identity, so a schema may be shared or cyclic. Translation carries the set
 of definitions it is inside of. It succeeds exactly when no walk through the definitions comes back to
 one it has passed and none meets a definition that has no JSON form, and then it is `Translate` of the tree
 the graph unfolds to.
 */
module SchemaGraph {
  import opened JsonSchema
  import opened Wrappers

  type Id = nat

  datatype Type = TString | TNumber | TBoolean | TDate | TArray | TObject | TFile

  datatype Def = Def(
    typ: Type,
    required: bool,
    nullable: bool,
    sometimes: bool,
    rules: seq<Rule>,
    children: Option<Id>,
    shape: Option<seq<(string, Id)>>)

  type Defs = map<Id, Def>

  /** Every reference leads to a definition. */
  ghost predicate Closed(defs: Defs) {
    forall id :: id in defs ==>
                   && (defs[id].children.Some? ==> defs[id].children.value in defs)
                   && (defs[id].shape.Some? ==> Within(defs, defs[id].shape.value))
  }

  ghost predicate Within(defs: Defs, shape: seq<(string, Id)>) {
    forall i :: 0 <= i < |shape| ==> shape[i].1 in defs
  }

  datatype SchemaError = Recursive(field: string) | NoItemType(field: string) | NoShape(field: string) | FileField(field: string)

  datatype Result<+T> = Ok(value: T) | Err(error: SchemaError)

  // ---------------------------------------------------------------- translation over the graph

  function FieldSchema(defs: Defs, id: Id, name: string, path: set<Id>): Result<Schema>
    requires Closed(defs) && id in defs
    decreases defs.Keys - path, 0
  {
    if id in path then Err(Recursive(name))
    else
      var d := defs[id];
      var base := BaseOf(defs, id, name, path + {id});
      if base.Ok? && (d.nullable || !d.required || d.sometimes) then Ok(SOrNull(base.value)) else base
  }

  function BaseOf(defs: Defs, id: Id, name: string, path: set<Id>): Result<Schema>
    requires Closed(defs) && id in defs
    decreases defs.Keys - path, 2
  {
    var d := defs[id];
    match d.typ
    case TString => Ok(StringKeywords(d.rules, None))
    case TNumber => Ok(if Integer in d.rules then SInteger else SNumber)
    case TBoolean => Ok(SBoolean)
    case TDate => Ok(SString(Some("date-time")))
    case TArray =>
      if d.children.None? then Err(NoItemType(name))
      else
        var items := FieldSchema(defs, d.children.value, name + "[]", path);
        if items.Ok? then Ok(SArray(items.value)) else items
    case TObject =>
      if d.shape.None? then Err(NoShape(name))
      else
        var props := ShapeSchema(defs, d.shape.value, name + ".", path);
        if props.Ok? then Ok(SObject(props.value, Keys(d.shape.value), false)) else Err(props.error)
    case TFile => Err(FileField(name))
  }

  function Keys(shape: seq<(string, Id)>): seq<string> {
    if shape == [] then [] else [shape[0].0] + Keys(shape[1..])
  }

  function ShapeSchema(defs: Defs, shape: seq<(string, Id)>, prefix: string, path: set<Id>): Result<Props>
    requires Closed(defs) && Within(defs, shape)
    decreases defs.Keys - path, 1, |shape|
  {
    if shape == [] then Ok(PNil)
    else
      var field := FieldSchema(defs, shape[0].1, prefix + shape[0].0, path);
      if field.Err? then Err(field.error)
      else
        var rest := ShapeSchema(defs, shape[1..], prefix, path);
        if rest.Err? then rest else Ok(PCons(shape[0].0, field.value, rest.value))
  }

  function TranslateSchema(defs: Defs, shape: seq<(string, Id)>): Result<Schema>
    requires Closed(defs) && Within(defs, shape)
  {
    var props := ShapeSchema(defs, shape, "", {});
    if props.Ok? then Ok(SObject(props.value, Keys(shape), false)) else Err(props.error)
  }

  function Append(ps: Props, qs: Props): Props {
    match ps
    case PNil => qs
    case PCons(n, s, rest) => PCons(n, s, Append(rest, qs))
  }

  lemma {:induction false} AppendAssociative(a: Props, b: Props, c: Props)
    ensures Append(Append(a, b), c) == Append(a, Append(b, c))
  {
    if a.PCons? {
      AppendAssociative(a.rest, b, c);
    }
  }

  lemma {:induction false} AppendNil(a: Props)
    ensures Append(a, PNil) == a
  {
    if a.PCons? {
      AppendNil(a.rest);
    }
  }

  /** `translateSchema` with `objectSchema`'s loop: properties and `required` grow together, the first error ends it. */
  method ObjectSchema(defs: Defs, shape: seq<(string, Id)>) returns (r: Result<Schema>)
    requires Closed(defs) && Within(defs, shape)
    ensures r == TranslateSchema(defs, shape)
  {
    var properties := PNil;
    var required: seq<string> := [];
    for i := 0 to |shape|
      invariant required + Keys(shape[i..]) == Keys(shape)
      invariant var rest := ShapeSchema(defs, shape[i..], "", {});
                var whole := ShapeSchema(defs, shape, "", {});
                if rest.Ok? then whole == Ok(Append(properties, rest.value)) else whole == rest
    {
      var (name, def) := shape[i];
      assert shape[i..][1..] == shape[i + 1..];
      assert "" + name == name;
      var field := FieldSchema(defs, def, name, {});
      if field.Err? {
        return Err(field.error);
      }
      ghost var rest := ShapeSchema(defs, shape[i + 1..], "", {});
      if rest.Ok? {
        AppendAssociative(properties, PCons(name, field.value, PNil), rest.value);
      }
      properties := Append(properties, PCons(name, field.value, PNil));
      required := required + [name];
    }
    assert shape[|shape|..] == [] && required + [] == required;
    AppendNil(properties);
    r := Ok(SObject(properties, required, false));
  }

  // ---------------------------------------------------------------- the tree a graph unfolds to

  function Unfold(defs: Defs, id: Id, path: set<Id>): Option<Field>
    requires Closed(defs) && id in defs
    decreases defs.Keys - path, 0
  {
    if id in path then None
    else
      var d := defs[id];
      var kind := UnfoldKind(defs, id, path + {id});
      if kind.None? then None else Some(Field(kind.value, d.required, d.nullable, d.sometimes, d.rules))
  }

  function UnfoldKind(defs: Defs, id: Id, path: set<Id>): Option<Kind>
    requires Closed(defs) && id in defs
    decreases defs.Keys - path, 2
  {
    var d := defs[id];
    match d.typ
    case TString => Some(KString)
    case TNumber => Some(KNumber)
    case TBoolean => Some(KBoolean)
    case TDate => Some(KDate)
    case TArray =>
      if d.children.None? then None
      else
        var item := Unfold(defs, d.children.value, path);
        if item.None? then None else Some(KArray(item.value))
    case TObject =>
      if d.shape.None? then None
      else
        var fields := UnfoldShape(defs, d.shape.value, path);
        if fields.None? then None else Some(KObject(fields.value))
    case TFile => None
  }

  function UnfoldShape(defs: Defs, shape: seq<(string, Id)>, path: set<Id>): Option<Fields>
    requires Closed(defs) && Within(defs, shape)
    decreases defs.Keys - path, 1, |shape|
  {
    if shape == [] then Some(Nil)
    else
      var field := Unfold(defs, shape[0].1, path);
      var rest := UnfoldShape(defs, shape[1..], path);
      if field.None? || rest.None? then None else Some(Cons(shape[0].0, field.value, rest.value))
  }

  lemma {:induction false} FieldUnfolds(defs: Defs, id: Id, name: string, path: set<Id>)
    requires Closed(defs) && id in defs
    ensures var r, t := FieldSchema(defs, id, name, path), Unfold(defs, id, path);
            (r.Ok? <==> t.Some?) && (r.Ok? ==> r.value == Translate(t.value))
    decreases defs.Keys - path, 0
  {
    if id !in path {
      KindUnfolds(defs, id, name, path + {id});
    }
  }

  /** What is emitted for a definition, leaving its null branch aside, is what is emitted for the tree below it. */
  ghost predicate KindAgrees(defs: Defs, id: Id, name: string, path: set<Id>)
    requires Closed(defs) && id in defs
  {
    var r, t, d := BaseOf(defs, id, name, path), UnfoldKind(defs, id, path), defs[id];
    && (r.Ok? <==> t.Some?)
    && (r.Ok? ==> r.value == BaseSchema(Field(t.value, d.required, d.nullable, d.sometimes, d.rules)))
  }

  lemma LeafUnfolds(defs: Defs, id: Id, name: string, path: set<Id>)
    requires Closed(defs) && id in defs && !defs[id].typ.TArray? && !defs[id].typ.TObject?
    ensures KindAgrees(defs, id, name, path)
  {
  }

  lemma {:induction false} ArrayUnfolds(defs: Defs, id: Id, name: string, path: set<Id>)
    requires Closed(defs) && id in defs && defs[id].typ.TArray?
    ensures KindAgrees(defs, id, name, path)
    decreases defs.Keys - path, 2
  {
    if defs[id].children.Some? {
      FieldUnfolds(defs, defs[id].children.value, name + "[]", path);
    }
  }

  lemma {:induction false} ObjectUnfolds(defs: Defs, id: Id, name: string, path: set<Id>)
    requires Closed(defs) && id in defs && defs[id].typ.TObject?
    ensures KindAgrees(defs, id, name, path)
    decreases defs.Keys - path, 2
  {
    if defs[id].shape.Some? {
      ShapeUnfolds(defs, defs[id].shape.value, name + ".", path);
    }
  }

  lemma {:induction false} KindUnfolds(defs: Defs, id: Id, name: string, path: set<Id>)
    requires Closed(defs) && id in defs
    ensures KindAgrees(defs, id, name, path)
    decreases defs.Keys - path, 3
  {
    hide KindAgrees;
    match defs[id].typ
    case TArray => ArrayUnfolds(defs, id, name, path);
    case TObject => ObjectUnfolds(defs, id, name, path);
    case _ => LeafUnfolds(defs, id, name, path);
  }

  lemma {:induction false} ShapeUnfolds(defs: Defs, shape: seq<(string, Id)>, prefix: string, path: set<Id>)
    requires Closed(defs) && Within(defs, shape)
    ensures var r, t := ShapeSchema(defs, shape, prefix, path), UnfoldShape(defs, shape, path);
            && (r.Ok? <==> t.Some?)
            && (r.Ok? ==> r.value == TranslateAll(t.value) && Keys(shape) == NameList(t.value))
    decreases defs.Keys - path, 1, |shape|
  {
    if shape != [] {
      FieldUnfolds(defs, shape[0].1, prefix + shape[0].0, path);
      ShapeUnfolds(defs, shape[1..], prefix, path);
    }
  }

  // ---------------------------------------------------------------- when translation succeeds

  ghost predicate Edge(defs: Defs, a: Id, b: Id) {
    && a in defs && b in defs
    && var d := defs[a];
       || (d.typ.TArray? && d.children == Some(b))
       || (d.typ.TObject? && d.shape.Some? && exists i :: 0 <= i < |d.shape.value| && d.shape.value[i].1 == b)
  }

  predicate Inexpressible(d: Def) {
    || d.typ.TFile?
    || (d.typ.TArray? && d.children.None?)
    || (d.typ.TObject? && d.shape.None?)
  }

  ghost predicate Walk(defs: Defs, p: seq<Id>) {
    && |p| > 0
    && (forall i :: 0 <= i < |p| ==> p[i] in defs)
    && forall i :: 0 < i < |p| ==> Edge(defs, p[i - 1], p[i])
  }

  /** A walk that repeats no definition, enters none of `path`, and ends where there is a JSON form. */
  ghost predicate Clean(defs: Defs, p: seq<Id>, path: set<Id>)
    requires Walk(defs, p)
  {
    && (forall i :: 0 <= i < |p| ==> p[i] !in path)
    && (forall i, j :: 0 <= i < j < |p| ==> p[i] != p[j])
    && !Inexpressible(defs[p[|p| - 1]])
  }

  lemma {:induction false} ShapeFieldOk(defs: Defs, shape: seq<(string, Id)>, path: set<Id>, i: nat)
    requires Closed(defs) && Within(defs, shape) && i < |shape|
    requires UnfoldShape(defs, shape, path).Some?
    ensures Unfold(defs, shape[i].1, path).Some?
    decreases |shape|
  {
    if i > 0 {
      ShapeFieldOk(defs, shape[1..], path, i - 1);
    }
  }

  lemma ChildOk(defs: Defs, a: Id, b: Id, path: set<Id>)
    requires Closed(defs) && Edge(defs, a, b) && Unfold(defs, a, path).Some?
    ensures Unfold(defs, b, path + {a}).Some?
  {
    var d := defs[a];
    if d.typ.TObject? {
      var i :| 0 <= i < |d.shape.value| && d.shape.value[i].1 == b;
      ShapeFieldOk(defs, d.shape.value, path + {a}, i);
    }
  }

  lemma {:induction false} WalksAreClean(defs: Defs, p: seq<Id>, path: set<Id>)
    requires Closed(defs) && Walk(defs, p) && Unfold(defs, p[0], path).Some?
    ensures Clean(defs, p, path)
    decreases |p|
  {
    if |p| > 1 {
      ChildOk(defs, p[0], p[1], path);
      assert forall i :: 0 < i < |p[1..]| ==> p[1..][i - 1] == p[i] && p[1..][i] == p[i + 1];
      WalksAreClean(defs, p[1..], path + {p[0]});
      assert forall i :: 0 < i < |p| ==> p[i] == p[1..][i - 1] && p[1..][i - 1] !in path + {p[0]};
      forall i, j | 0 <= i < j < |p| ensures p[i] != p[j] {
        if i > 0 {
          assert p[i] == p[1..][i - 1] && p[j] == p[1..][j - 1];
        }
      }
    }
  }

  lemma {:induction false} UncleanWalk(defs: Defs, id: Id, path: set<Id>) returns (p: seq<Id>)
    requires Closed(defs) && id in defs && Unfold(defs, id, path).None?
    ensures Walk(defs, p) && p[0] == id && !Clean(defs, p, path)
    decreases defs.Keys - path, 0
  {
    p := [id];
    if id !in path && !Inexpressible(defs[id]) {
      var d := defs[id];
      var next := id;
      var tail: seq<Id> := [];
      if d.typ.TArray? {
        next := d.children.value;
        tail := UncleanWalk(defs, next, path + {id});
      } else {
        var i := UncleanField(defs, d.shape.value, path + {id});
        next := d.shape.value[i].1;
        tail := UncleanWalk(defs, next, path + {id});
      }
      assert Edge(defs, id, next);
      p := [id] + tail;
      LongerWalk(defs, id, tail, path);
    }
  }

  lemma LongerWalk(defs: Defs, id: Id, tail: seq<Id>, path: set<Id>)
    requires Walk(defs, tail) && id in defs && Edge(defs, id, tail[0]) && !Clean(defs, tail, path + {id})
    ensures Walk(defs, [id] + tail) && !Clean(defs, [id] + tail, path)
  {
    var p := [id] + tail;
    assert forall i :: 0 <= i < |tail| ==> p[i + 1] == tail[i];
    assert Walk(defs, p) by {
      forall i | 0 < i < |p| ensures Edge(defs, p[i - 1], p[i]) {
        if i > 1 {
          assert Edge(defs, tail[i - 2], tail[i - 1]);
        }
      }
    }
    if Clean(defs, p, path) {
      CleanTail(defs, id, tail, path);
    }
  }

  lemma CleanTail(defs: Defs, id: Id, tail: seq<Id>, path: set<Id>)
    requires Walk(defs, tail) && Walk(defs, [id] + tail) && Clean(defs, [id] + tail, path)
    ensures Clean(defs, tail, path + {id})
  {
    var p := [id] + tail;
    assert forall i :: 0 <= i < |tail| ==> tail[i] == p[i + 1] && p[0] != p[i + 1];
    assert p[|p| - 1] == tail[|tail| - 1];
  }

  lemma {:induction false} UncleanField(defs: Defs, shape: seq<(string, Id)>, path: set<Id>) returns (i: nat)
    requires Closed(defs) && Within(defs, shape) && UnfoldShape(defs, shape, path).None?
    ensures i < |shape| && Unfold(defs, shape[i].1, path).None?
    decreases |shape|
  {
    if Unfold(defs, shape[0].1, path).None? {
      i := 0;
    } else {
      i := UncleanField(defs, shape[1..], path);
      i := i + 1;
    }
  }

  /** A field translates exactly when every walk from it is free of repeats and of inexpressible definitions. */
  lemma TranslatesIff(defs: Defs, id: Id, name: string)
    requires Closed(defs) && id in defs
    ensures FieldSchema(defs, id, name, {}).Ok?
            <==> forall p :: Walk(defs, p) && p[0] == id ==> Clean(defs, p, {})
  {
    FieldUnfolds(defs, id, name, {});
    if Unfold(defs, id, {}).Some? {
      forall p | Walk(defs, p) && p[0] == id ensures Clean(defs, p, {}) {
        WalksAreClean(defs, p, {});
      }
    } else {
      var p := UncleanWalk(defs, id, {});
    }
  }

  /** A schema that translates does so as the tree it unfolds to. */
  lemma TranslateIsTreeTranslate(defs: Defs, shape: seq<(string, Id)>)
    requires Closed(defs) && Within(defs, shape)
    ensures var r, t := TranslateSchema(defs, shape), UnfoldShape(defs, shape, {});
            && (r.Ok? <==> t.Some?)
            && (r.Ok? ==> r.value == SObject(TranslateAll(t.value), NameList(t.value), false))
  {
    ShapeUnfolds(defs, shape, "", {});
  }

  /** From the declared objects to the values: every value of a translatable schema is accepted once widened. */
  lemma TranslationAcceptsValues(defs: Defs, shape: seq<(string, Id)>, t: Fields, fmt: Formats, m: map<string, Json>)
    requires Closed(defs) && Within(defs, shape) && UnfoldShape(defs, shape, {}) == Some(t)
    requires DistinctAll(t) && m.Keys <= Names(t) && FitsAll(fmt, t, m, true)
    ensures var r := TranslateSchema(defs, shape);
            r.Ok? && Accepts(fmt, r.value, JObject(Over(Widen, t, m)))
  {
    TranslateIsTreeTranslate(defs, shape);
    WidenedFieldsAccepted(fmt, t, m);
    TranslatedNames(t);
  }

  /** And back: an accepted object, its stand-in nulls dropped, is a value of an array-safe schema. */
  lemma AcceptedComesBack(defs: Defs, shape: seq<(string, Id)>, t: Fields, fmt: Formats, w: map<string, Json>)
    requires Closed(defs) && Within(defs, shape) && UnfoldShape(defs, shape, {}) == Some(t)
    requires DistinctAll(t) && ArraySafeAll(t)
    requires var r := TranslateSchema(defs, shape); r.Ok? && Accepts(fmt, r.value, JObject(w))
    ensures var v := Over(DropNulls, t, w);
            v.Keys <= Names(t) && FitsAll(fmt, t, v, false) && Over(Widen, t, v) == w
  {
    TranslateIsTreeTranslate(defs, shape);
    TranslatedNames(t);
    AllPresent(t, w);
    DroppedFits(fmt, t, w);
  }
}
