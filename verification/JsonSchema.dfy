/**
 Validator schemas as trees, their JSON Schema translation and its inverse on values:
 packages/ai/src/schema.ts.

 `Fits` is what a value of a schema is, `Translate` the schema sent to the provider, `Accepts` the
 provider's reading of it, and the three passes rewrite values: `Widen` writes `null` for an absent
 optional field, `DropNulls` is `dropAbsentNulls`, `Normalise` names the values both agree on.
 */
module JsonSchema {
  import opened Text
  import opened Wrappers

  datatype Json =
    | JNull
    | JBoolean(b: bool)
    | JNumber(n: real)
    | JString(s: string)
    | JArray(items: seq<Json>)
    | JObject(fields: map<string, Json>)

  // ---------------------------------------------------------------- definitions

  /** `Other` is every rule the translation strips. */
  datatype Rule = In(values: seq<string>) | Email | Url | Ip | Integer | Other(name: string)

  datatype Field = Field(kind: Kind, required: bool, nullable: bool, sometimes: bool, rules: seq<Rule>)

  datatype Kind = KString | KNumber | KBoolean | KDate | KArray(item: Field) | KObject(shape: Fields)

  /** The entries of a shape, in declaration order. */
  datatype Fields = Nil | Cons(name: string, field: Field, rest: Fields)

  predicate Optional(f: Field) {
    !f.required || f.sometimes
  }

  predicate MayBeNull(f: Field) {
    f.nullable || !f.required || f.sometimes
  }

  function Names(fs: Fields): set<string> {
    match fs
    case Nil => {}
    case Cons(n, _, rest) => {n} + Names(rest)
  }

  /** Keys of one shape are distinct, as the keys of a record are. */
  predicate Distinct(f: Field) {
    match f.kind
    case KArray(item) => Distinct(item)
    case KObject(shape) => DistinctAll(shape)
    case _ => true
  }

  predicate DistinctAll(fs: Fields) {
    match fs
    case Nil => true
    case Cons(n, f, rest) => n !in Names(rest) && Distinct(f) && DistinctAll(rest)
  }

  // ---------------------------------------------------------------- translation

  datatype Schema =
    | SString(format: Option<string>)
    | SEnum(values: seq<string>)
    | SInteger
    | SNumber
    | SBoolean
    | SArray(items: Schema)
    | SObject(properties: Props, required: seq<string>, additionalProperties: bool)
    | SOrNull(base: Schema)

  datatype Props = PNil | PCons(name: string, schema: Schema, rest: Props)

  function FormatOf(r: Rule): Option<string> {
    match r
    case Email => Some("email")
    case Url => Some("uri")
    case Ip => Some("ipv4")
    case _ => None
  }

  /** An `in` rule wins outright; otherwise the last format rule is the one that stays. */
  function StringKeywords(rules: seq<Rule>, format: Option<string>): Schema {
    if rules == [] then SString(format)
    else if rules[0].In? then SEnum(rules[0].values)
    else StringKeywords(rules[1..], if FormatOf(rules[0]).Some? then FormatOf(rules[0]) else format)
  }

  function Translate(f: Field): Schema
    decreases f, 1
  {
    if MayBeNull(f) then SOrNull(BaseSchema(f)) else BaseSchema(f)
  }

  function BaseSchema(f: Field): Schema
    decreases f, 0
  {
    match f.kind
    case KString => StringKeywords(f.rules, None)
    case KNumber => if Integer in f.rules then SInteger else SNumber
    case KBoolean => SBoolean
    case KDate => SString(Some("date-time"))
    case KArray(item) => SArray(Translate(item))
    case KObject(shape) => SObject(TranslateAll(shape), NameList(shape), false)
  }

  function TranslateAll(fs: Fields): Props {
    match fs
    case Nil => PNil
    case Cons(n, f, rest) => PCons(n, Translate(f), TranslateAll(rest))
  }

  function NameList(fs: Fields): seq<string> {
    match fs
    case Nil => []
    case Cons(n, _, rest) => [n] + NameList(rest)
  }

  // ---------------------------------------------------------------- what values mean

  /** Which strings a format keyword or rule admits is a parameter: the validator and the provider agree on it. */
  type Formats = (string, string) -> bool

  ghost predicate StringFits(fmt: Formats, rules: seq<Rule>, s: string) {
    forall i :: 0 <= i < |rules| ==>
                  && (rules[i].In? ==> s in rules[i].values)
                  && (FormatOf(rules[i]).Some? ==> fmt(FormatOf(rules[i]).value, s))
  }

  predicate Integral(n: real) {
    n.Floor as real == n
  }

  /** `v` is a value of the field. `strict` also asks for the string rules, which translation may strip. */
  ghost predicate Fits(fmt: Formats, f: Field, v: Json, strict: bool)
    decreases f
  {
    if v == JNull then f.nullable
    else
      match f.kind
      case KString => v.JString? && (strict ==> StringFits(fmt, f.rules, v.s))
      case KNumber => v.JNumber? && (Integer in f.rules ==> Integral(v.n))
      case KBoolean => v.JBoolean?
      case KDate => v.JString? && fmt("date-time", v.s)
      case KArray(item) => v.JArray? && forall i :: 0 <= i < |v.items| ==> Fits(fmt, item, v.items[i], strict)
      case KObject(shape) => v.JObject? && v.fields.Keys <= Names(shape) && FitsAll(fmt, shape, v.fields, strict)
  }

  ghost predicate FitsAll(fmt: Formats, fs: Fields, m: map<string, Json>, strict: bool)
    decreases fs
  {
    match fs
    case Nil => true
    case Cons(n, f, rest) =>
      && (if n in m then Fits(fmt, f, m[n], strict) else Optional(f))
      && FitsAll(fmt, rest, m, strict)
  }

  ghost predicate Accepts(fmt: Formats, s: Schema, v: Json)
    decreases s
  {
    match s
    case SString(format) => v.JString? && (format.Some? ==> fmt(format.value, v.s))
    case SEnum(values) => v.JString? && v.s in values
    case SInteger => v.JNumber? && Integral(v.n)
    case SNumber => v.JNumber?
    case SBoolean => v.JBoolean?
    case SArray(items) => v.JArray? && forall i :: 0 <= i < |v.items| ==> Accepts(fmt, items, v.items[i])
    case SObject(properties, required, additional) =>
      && v.JObject?
      && AcceptsProps(fmt, properties, v.fields)
      && (forall i :: 0 <= i < |required| ==> required[i] in v.fields)
      && (!additional ==> v.fields.Keys <= PropNames(properties))
    case SOrNull(base) => v == JNull || Accepts(fmt, base, v)
  }

  ghost predicate AcceptsProps(fmt: Formats, ps: Props, m: map<string, Json>)
    decreases ps
  {
    match ps
    case PNil => true
    case PCons(n, s, rest) => (n in m ==> Accepts(fmt, s, m[n])) && AcceptsProps(fmt, rest, m)
  }

  function PropNames(ps: Props): set<string> {
    match ps
    case PNil => {}
    case PCons(n, _, rest) => {n} + PropNames(rest)
  }

  // ---------------------------------------------------------------- the passes over values

  datatype Pass = Widen | DropNulls | Normalise

  function Get(m: map<string, Json>, n: string): Option<Json> {
    if n in m then Some(m[n]) else None
  }

  function Put(m: map<string, Json>, n: string, v: Option<Json>): map<string, Json> {
    if v.Some? then m[n := v.value] else m - {n}
  }

  /** What a pass leaves under a field's key, from what is there. */
  function Slot(pass: Pass, f: Field, v: Option<Json>): Option<Json>
    decreases f, 1
  {
    match pass
    case Widen =>
      if v.None? then (if Optional(f) then Some(JNull) else None) else Some(Inside(pass, f, v.value))
    case DropNulls =>
      if v.None? || (v.value == JNull && !f.nullable) then None else Some(Inside(pass, f, v.value))
    case Normalise =>
      if v.None? then (if Optional(f) && f.nullable then Some(JNull) else None) else Some(Inside(pass, f, v.value))
  }

  /** `{ ...value }`: an array spreads into its index keys. */
  function Spread(items: seq<Json>): map<string, Json> {
    assert forall i: nat, j: nat :: Decimal(i) == Decimal(j) ==> i == j by {
      forall i: nat, j: nat | Decimal(i) == Decimal(j) ensures i == j {
        DecimalInjective(i, j);
      }
    }
    map i: nat | i < |items| :: Decimal(i) := items[i]
  }

  /** The pass below a field. `dropAbsentNulls` goes into shapes only, never into array items. */
  function Inside(pass: Pass, f: Field, v: Json): Json
    decreases f, 0
  {
    match f.kind
    case KArray(item) =>
      if pass.DropNulls? || !v.JArray? then v
      else JArray(seq(|v.items|, i requires 0 <= i < |v.items| => Inside(pass, item, v.items[i])))
    case KObject(shape) =>
      if v.JObject? then JObject(Over(pass, shape, v.fields))
      else if v.JArray? && pass.DropNulls? then JObject(Over(pass, shape, Spread(v.items)))
      else v
    case _ => v
  }

  function Over(pass: Pass, fs: Fields, m: map<string, Json>): map<string, Json>
    decreases fs
  {
    match fs
    case Nil => m
    case Cons(n, f, rest) => Over(pass, rest, Put(m, n, Slot(pass, f, Get(m, n))))
  }

  /** `dropAbsentNulls`: one copy of the object, whose keys are deleted or replaced as the schema is read. */
  method DropAbsentNulls(schema: Fields, value: map<string, Json>) returns (out: map<string, Json>)
    ensures out == Over(DropNulls, schema, value)
    decreases schema
  {
    out := value;
    var remaining := schema;
    while remaining.Cons?
      invariant Over(DropNulls, remaining, out) == Over(DropNulls, schema, value)
      invariant remaining == schema || remaining < schema
      decreases remaining
    {
      var name, def := remaining.name, remaining.field;
      ghost var before := out;
      if name in out && out[name] == JNull && !def.nullable {
        out := out - {name};
      } else if def.kind.KObject? && name in out && out[name].JObject? {
        var inner := DropAbsentNulls(def.kind.shape, out[name].fields);
        out := out[name := JObject(inner)];
      } else if def.kind.KObject? && name in out && out[name].JArray? {
        var inner := DropAbsentNulls(def.kind.shape, Spread(out[name].items));
        out := out[name := JObject(inner)];
      }
      assert out == Put(before, name, Slot(DropNulls, def, Get(before, name)));
      remaining := remaining.rest;
    }
  }

  // ---------------------------------------------------------------- a pass works key by key

  lemma {:induction false} OverOutside(pass: Pass, fs: Fields, m: map<string, Json>, k: string)
    requires k !in Names(fs)
    ensures Get(Over(pass, fs, m), k) == Get(m, k)
  {
    match fs
    case Nil =>
    case Cons(n, f, rest) => OverOutside(pass, rest, Put(m, n, Slot(pass, f, Get(m, n))), k);
  }

  lemma {:induction false} OverCommutes(pass: Pass, fs: Fields, m: map<string, Json>, k: string, v: Option<Json>)
    requires k !in Names(fs)
    ensures Over(pass, fs, Put(m, k, v)) == Put(Over(pass, fs, m), k, v)
  {
    match fs
    case Nil =>
    case Cons(n, f, rest) =>
      var s := Slot(pass, f, Get(m, n));
      assert Get(Put(m, k, v), n) == Get(m, n);
      assert Put(Put(m, k, v), n, s) == Put(Put(m, n, s), k, v);
      OverCommutes(pass, rest, Put(m, n, s), k, v);
  }

  lemma {:induction false} FitsAllIgnores(fmt: Formats, fs: Fields, m: map<string, Json>, k: string, v: Option<Json>, strict: bool)
    requires k !in Names(fs)
    ensures FitsAll(fmt, fs, Put(m, k, v), strict) == FitsAll(fmt, fs, m, strict)
  {
    if fs.Cons? {
      FitsAllIgnores(fmt, fs.rest, m, k, v, strict);
    }
  }

  lemma {:induction false} TranslatedNames(fs: Fields)
    ensures PropNames(TranslateAll(fs)) == Names(fs)
    ensures forall k :: k in NameList(fs) <==> k in Names(fs)
  {
    if fs.Cons? {
      TranslatedNames(fs.rest);
    }
  }

  // ---------------------------------------------------------------- widened values are accepted

  lemma {:induction false} KeywordsAccept(fmt: Formats, rules: seq<Rule>, format: Option<string>, s: string)
    requires StringFits(fmt, rules, s) && (format.Some? ==> fmt(format.value, s))
    ensures Accepts(fmt, StringKeywords(rules, format), JString(s))
  {
    if rules != [] && !rules[0].In? {
      assert forall i :: 0 <= i < |rules[1..]| ==> rules[1..][i] == rules[i + 1];
      KeywordsAccept(fmt, rules[1..], if FormatOf(rules[0]).Some? then FormatOf(rules[0]) else format, s);
    }
  }

  lemma OrNullAccepts(fmt: Formats, f: Field, w: Json)
    requires Accepts(fmt, BaseSchema(f), w)
    ensures Accepts(fmt, Translate(f), w)
  {
    hide BaseSchema;
  }

  lemma NullIsAccepted(fmt: Formats, f: Field)
    requires f.nullable
    ensures Accepts(fmt, Translate(f), Inside(Widen, f, JNull))
  {
    assert Inside(Widen, f, JNull) == JNull;
    hide BaseSchema, Inside;
  }

  /** Numbers, booleans and dates stay as they are. */
  lemma PlainIsAccepted(fmt: Formats, f: Field, v: Json)
    requires f.kind.KNumber? || f.kind.KBoolean? || f.kind.KDate?
    requires v != JNull && Fits(fmt, f, v, true)
    ensures Accepts(fmt, BaseSchema(f), Inside(Widen, f, v))
  {
    assert Inside(Widen, f, v) == v;
  }

  /** Every value of a schema, with `null` written for its absent optional fields, is accepted. */
  lemma {:induction false} WidenedIsAccepted(fmt: Formats, f: Field, v: Json)
    requires Distinct(f) && Fits(fmt, f, v, true)
    ensures Accepts(fmt, Translate(f), Inside(Widen, f, v))
    decreases f, 0
  {
    if v == JNull {
      NullIsAccepted(fmt, f);
    } else {
      match f.kind {
        case KString =>
          KeywordsAccept(fmt, f.rules, None, v.s);
          assert Accepts(fmt, BaseSchema(f), Inside(Widen, f, v));
        case KArray(item) =>
          forall i | 0 <= i < |v.items| ensures Accepts(fmt, Translate(item), Inside(Widen, item, v.items[i])) {
            WidenedIsAccepted(fmt, item, v.items[i]);
          }
          assert Accepts(fmt, BaseSchema(f), Inside(Widen, f, v));
        case KObject(shape) =>
          WidenedFieldsAccepted(fmt, shape, v.fields);
          TranslatedNames(shape);
          assert Accepts(fmt, BaseSchema(f), Inside(Widen, f, v));
        case _ =>
          PlainIsAccepted(fmt, f, v);
      }
      OrNullAccepts(fmt, f, Inside(Widen, f, v));
    }
  }

  lemma {:induction false} WidenedFieldsAccepted(fmt: Formats, fs: Fields, m: map<string, Json>)
    requires DistinctAll(fs) && FitsAll(fmt, fs, m, true)
    ensures var w := Over(Widen, fs, m);
            AcceptsProps(fmt, TranslateAll(fs), w) && w.Keys == m.Keys + Names(fs)
    decreases fs, 1
  {
    match fs
    case Nil =>
    case Cons(n, f, rest) =>
      var slot := Slot(Widen, f, Get(m, n));
      var m' := Put(m, n, slot);
      FitsAllIgnores(fmt, rest, m, n, slot, true);
      WidenedFieldsAccepted(fmt, rest, m');
      OverOutside(Widen, rest, m', n);
      assert Get(Over(Widen, fs, m), n) == slot;
      if n in m {
        WidenedIsAccepted(fmt, f, m[n]);
      }
  }

  // ---------------------------------------------------------------- and come back

  /** No optional, non-nullable field is left out of `v`, at any depth. */
  predicate Complete(f: Field, v: Json)
    decreases f
  {
    match f.kind
    case KArray(item) => v.JArray? ==> forall i :: 0 <= i < |v.items| ==> Complete(item, v.items[i])
    case KObject(shape) => v.JObject? ==> CompleteAll(shape, v.fields)
    case _ => true
  }

  predicate CompleteAll(fs: Fields, m: map<string, Json>)
    decreases fs
  {
    match fs
    case Nil => true
    case Cons(n, f, rest) => (if n in m then Complete(f, m[n]) else !Optional(f) || f.nullable) && CompleteAll(rest, m)
  }

  /** Array items are complete; outside arrays anything optional may be left out. */
  predicate ItemsComplete(f: Field, v: Json)
    decreases f
  {
    match f.kind
    case KArray(item) => v.JArray? ==> forall i :: 0 <= i < |v.items| ==> Complete(item, v.items[i])
    case KObject(shape) => v.JObject? ==> ItemsCompleteAll(shape, v.fields)
    case _ => true
  }

  predicate ItemsCompleteAll(fs: Fields, m: map<string, Json>)
    decreases fs
  {
    match fs
    case Nil => true
    case Cons(n, f, rest) => (n in m ==> ItemsComplete(f, m[n])) && ItemsCompleteAll(rest, m)
  }

  lemma {:induction false} CompleteIgnores(fs: Fields, m: map<string, Json>, k: string, v: Option<Json>)
    requires k !in Names(fs)
    ensures CompleteAll(fs, Put(m, k, v)) == CompleteAll(fs, m)
    ensures ItemsCompleteAll(fs, Put(m, k, v)) == ItemsCompleteAll(fs, m)
  {
    if fs.Cons? {
      CompleteIgnores(fs.rest, m, k, v);
    }
  }

  /** Two ways to fill one key, followed by passes over the other keys, agree exactly when both parts do. */
  lemma SameAtKey(pass: Pass, pass': Pass, rest: Fields, m: map<string, Json>, n: string, a: Option<Json>, b: Option<Json>)
    requires n !in Names(rest)
    ensures Over(pass, rest, Put(m, n, a)) == Over(pass', rest, Put(m, n, b)) ==> a == b
  {
    OverOutside(pass, rest, Put(m, n, a), n);
    OverOutside(pass', rest, Put(m, n, b), n);
    assert Get(Put(m, n, a), n) == a && Get(Put(m, n, b), n) == b;
  }

  lemma {:induction false} WidenIsNormalIff(f: Field, v: Json)
    requires Distinct(f)
    ensures Inside(Widen, f, v) == Inside(Normalise, f, v) <==> Complete(f, v)
    decreases f, 0
  {
    match f.kind
    case KArray(item) =>
      if v.JArray? {
        forall i | 0 <= i < |v.items|
          ensures Inside(Widen, item, v.items[i]) == Inside(Normalise, item, v.items[i]) <==> Complete(item, v.items[i])
        {
          WidenIsNormalIff(item, v.items[i]);
        }
        var a, b := Inside(Widen, f, v).items, Inside(Normalise, f, v).items;
        if forall i :: 0 <= i < |v.items| ==> a[i] == b[i] {
          assert a == b;
          forall i | 0 <= i < |v.items| ensures Complete(item, v.items[i]) {
            assert a[i] == b[i];
          }
        } else {
          var i :| 0 <= i < |v.items| && a[i] != b[i];
          assert !Complete(item, v.items[i]);
        }
      }
    case KObject(shape) =>
      if v.JObject? {
        WidenAllIsNormalIff(shape, v.fields);
      }
    case _ =>
  }

  lemma {:induction false} WidenAllIsNormalIff(fs: Fields, m: map<string, Json>)
    requires DistinctAll(fs)
    ensures Over(Widen, fs, m) == Over(Normalise, fs, m) <==> CompleteAll(fs, m)
    decreases fs, 1
  {
    match fs
    case Nil =>
    case Cons(n, f, rest) =>
      var a, b := Slot(Widen, f, Get(m, n)), Slot(Normalise, f, Get(m, n));
      if n in m {
        WidenIsNormalIff(f, m[n]);
      }
      SameAtKey(Widen, Normalise, rest, m, n, a, b);
      WidenAllIsNormalIff(rest, Put(m, n, a));
      CompleteIgnores(rest, m, n, a);
  }

  lemma {:induction false} RoundTripInsideIff(fmt: Formats, f: Field, v: Json, strict: bool)
    requires Distinct(f) && Fits(fmt, f, v, strict)
    ensures Inside(DropNulls, f, Inside(Widen, f, v)) == Inside(Normalise, f, v) <==> ItemsComplete(f, v)
    decreases f, 0
  {
    match f.kind
    case KArray(item) => WidenIsNormalIff(f, v);
    case KObject(shape) =>
      if v.JObject? {
        RoundTripIff(fmt, shape, v.fields, strict);
      }
    case _ =>
  }

  /**
   `dropAbsentNulls` undoes the widening exactly when no item of an array leaves out an optional,
   non-nullable field. `Normalise` identifies absent with null on optional nullable fields and nothing else.
   */
  lemma {:induction false} RoundTripIff(fmt: Formats, fs: Fields, m: map<string, Json>, strict: bool)
    requires DistinctAll(fs) && FitsAll(fmt, fs, m, strict)
    ensures Over(DropNulls, fs, Over(Widen, fs, m)) == Over(Normalise, fs, m) <==> ItemsCompleteAll(fs, m)
    decreases fs, 1
  {
    match fs
    case Nil =>
    case Cons(n, f, rest) =>
      var wide := Slot(Widen, f, Get(m, n));
      var back, normal := Slot(DropNulls, f, wide), Slot(Normalise, f, Get(m, n));
      BackAndForth(n, f, rest, m);
      if n in m {
        RoundTripInsideIff(fmt, f, m[n], strict);
        NullStaysNull(f, m[n]);
      }
      FitsAllIgnores(fmt, rest, m, n, back, strict);
      RoundTripIff(fmt, rest, Put(m, n, back), strict);
      CompleteIgnores(rest, m, n, back);
      OverOutside(Widen, rest, Put(m, n, back), n);
      OverOutside(DropNulls, rest, Over(Widen, rest, Put(m, n, back)), n);
      OverOutside(Normalise, rest, Put(m, n, normal), n);
      assert Get(Put(m, n, back), n) == back && Get(Put(m, n, normal), n) == normal;
  }

  lemma NullStaysNull(f: Field, v: Json)
    ensures Inside(Widen, f, v) == JNull <==> v == JNull
  {
  }

  lemma OverStep(pass: Pass, fs: Fields, m: map<string, Json>)
    requires fs.Cons?
    ensures Over(pass, fs, m) == Over(pass, fs.rest, Put(m, fs.name, Slot(pass, fs.field, Get(m, fs.name))))
  {
  }

  lemma WidenedElsewhere(rest: Fields, m: map<string, Json>, n: string, wide: Option<Json>, back: Option<Json>)
    requires n !in Names(rest)
    ensures Get(Over(Widen, rest, Put(m, n, wide)), n) == wide
    ensures Put(Over(Widen, rest, Put(m, n, wide)), n, back) == Over(Widen, rest, Put(m, n, back))
  {
    PutTwice(m, n, wide, back);
    hide *;
    OverOutside(Widen, rest, Put(m, n, wide), n);
    OverCommutes(Widen, rest, Put(m, n, wide), n, back);
  }

  lemma PutTwice(m: map<string, Json>, n: string, v: Option<Json>, w: Option<Json>)
    ensures Get(Put(m, n, v), n) == v && Put(Put(m, n, v), n, w) == Put(m, n, w)
  {
  }

  /** Widening then dropping, first on the head's key and then on the others. */
  lemma BackAndForth(n: string, f: Field, rest: Fields, m: map<string, Json>)
    requires n !in Names(rest)
    ensures var back := Slot(DropNulls, f, Slot(Widen, f, Get(m, n)));
            var fs := Cons(n, f, rest);
            Over(DropNulls, fs, Over(Widen, fs, m)) == Over(DropNulls, rest, Over(Widen, rest, Put(m, n, back)))
  {
    var wide := Slot(Widen, f, Get(m, n));
    var fs := Cons(n, f, rest);
    OverStep(Widen, fs, m);
    OverStep(DropNulls, fs, Over(Widen, fs, m));
    hide *;
    WidenedElsewhere(rest, m, n, wide, Slot(DropNulls, f, wide));
  }

  // ---------------------------------------------------------------- accepted values come back too

  /** Nothing optional in or below the field is non-nullable. */
  predicate NullableThroughout(f: Field) {
    && (Optional(f) ==> f.nullable)
    && match f.kind
       case KArray(item) => NullableThroughout(item)
       case KObject(shape) => NullableThroughoutAll(shape)
       case _ => true
  }

  predicate NullableThroughoutAll(fs: Fields) {
    match fs
    case Nil => true
    case Cons(_, f, rest) => NullableThroughout(f) && NullableThroughoutAll(rest)
  }

  predicate ArraySafe(f: Field) {
    match f.kind
    case KArray(item) => NullableThroughout(item)
    case KObject(shape) => ArraySafeAll(shape)
    case _ => true
  }

  predicate ArraySafeAll(fs: Fields) {
    match fs
    case Nil => true
    case Cons(_, f, rest) => ArraySafe(f) && ArraySafeAll(rest)
  }

  lemma {:induction false} KeywordsAreStrings(fmt: Formats, rules: seq<Rule>, format: Option<string>, v: Json)
    requires Accepts(fmt, StringKeywords(rules, format), v)
    ensures v.JString?
  {
    if rules != [] && !rules[0].In? {
      KeywordsAreStrings(fmt, rules[1..], if FormatOf(rules[0]).Some? then FormatOf(rules[0]) else format, v);
    }
  }

  /** Where nothing optional is non-nullable, an accepted value is a value of the schema, already widened. */
  lemma {:induction false} AcceptedFits(fmt: Formats, f: Field, v: Json)
    requires Distinct(f) && NullableThroughout(f) && Accepts(fmt, Translate(f), v)
    ensures Fits(fmt, f, v, false) && Inside(Widen, f, v) == v
    decreases f, 0
  {
    if v == JNull {
      NeverNull(fmt, f);
    } else {
      assert Accepts(fmt, BaseSchema(f), v);
      match f.kind
      case KString => KeywordsAreStrings(fmt, f.rules, None, v);
      case KArray(item) =>
        forall i | 0 <= i < |v.items|
          ensures Fits(fmt, item, v.items[i], false) && Inside(Widen, item, v.items[i]) == v.items[i]
        {
          AcceptedFits(fmt, item, v.items[i]);
        }
      case KObject(shape) =>
        TranslatedNames(shape);
        AllPresent(shape, v.fields);
        AcceptedFieldsFit(fmt, shape, v.fields);
      case _ =>
    }
  }

  lemma NeverNull(fmt: Formats, f: Field)
    ensures !Accepts(fmt, BaseSchema(f), JNull)
  {
    if f.kind.KString? && Accepts(fmt, BaseSchema(f), JNull) {
      KeywordsAreStrings(fmt, f.rules, None, JNull);
    }
  }

  ghost predicate Present(fs: Fields, m: map<string, Json>) {
    forall k :: k in Names(fs) ==> k in m
  }

  lemma AllPresent(fs: Fields, m: map<string, Json>)
    requires forall i :: 0 <= i < |NameList(fs)| ==> NameList(fs)[i] in m
    ensures Present(fs, m)
  {
    TranslatedNames(fs);
    forall k | k in Names(fs) ensures k in m {
      assert k in NameList(fs);
    }
  }

  lemma {:induction false} AcceptedFieldsFit(fmt: Formats, fs: Fields, m: map<string, Json>)
    requires DistinctAll(fs) && NullableThroughoutAll(fs) && Present(fs, m)
    requires AcceptsProps(fmt, TranslateAll(fs), m)
    ensures FitsAll(fmt, fs, m, false) && Over(Widen, fs, m) == m
    decreases fs, 1
  {
    match fs
    case Nil =>
    case Cons(n, f, rest) =>
      assert n in Names(fs);
      AcceptedFits(fmt, f, m[n]);
      assert Put(m, n, Slot(Widen, f, Get(m, n))) == m;
      assert forall k :: k in Names(rest) ==> k in Names(fs);
      AcceptedFieldsFit(fmt, rest, m);
  }

  lemma {:induction false} DroppedInsideFits(fmt: Formats, f: Field, v: Json)
    requires Distinct(f) && ArraySafe(f) && Accepts(fmt, BaseSchema(f), v)
    ensures var d := Inside(DropNulls, f, v);
            Fits(fmt, f, d, false) && Inside(Widen, f, d) == v
    decreases f, 0
  {
    NeverNull(fmt, f);
    match f.kind
    case KString => KeywordsAreStrings(fmt, f.rules, None, v);
    case KArray(item) =>
      forall i | 0 <= i < |v.items|
        ensures Fits(fmt, item, v.items[i], false) && Inside(Widen, item, v.items[i]) == v.items[i]
      {
        AcceptedFits(fmt, item, v.items[i]);
      }
    case KObject(shape) =>
      TranslatedNames(shape);
      AllPresent(shape, v.fields);
      DroppedFits(fmt, shape, v.fields);
    case _ =>
  }

  /**
   On a schema whose array items hold no optional, non-nullable field, every accepted object comes back as a
   value of the schema, and widening that value gives the accepted object again: the two passes are inverse.
   */
  lemma {:induction false} DroppedFits(fmt: Formats, fs: Fields, m: map<string, Json>)
    requires DistinctAll(fs) && ArraySafeAll(fs) && Present(fs, m)
    requires AcceptsProps(fmt, TranslateAll(fs), m)
    ensures var d := Over(DropNulls, fs, m);
            FitsAll(fmt, fs, d, false) && d.Keys <= m.Keys && Over(Widen, fs, d) == m
    decreases fs, 1
  {
    hide Slot, Fits, Accepts;
    match fs
    case Nil =>
    case Cons(n, f, rest) =>
      assert n in Names(fs);
      var slot := Slot(DropNulls, f, Get(m, n));
      var m' := Put(m, n, slot);
      assert forall k :: k in Names(rest) ==> k in Names(fs) && k != n;
      AcceptsIgnores(fmt, rest, m, n, slot);
      DroppedFits(fmt, rest, m');
      var d := Over(DropNulls, rest, m');
      assert d == Over(DropNulls, fs, m);
      OverOutside(DropNulls, rest, m', n);
      assert Get(d, n) == slot;
      SlotComesBack(fmt, f, m[n]);
      OverCommutes(Widen, rest, d, n, Some(m[n]));
      assert Over(Widen, fs, d) == Put(m', n, Some(m[n])) == m;
  }

  lemma SlotComesBack(fmt: Formats, f: Field, v: Json)
    requires Distinct(f) && ArraySafe(f) && Accepts(fmt, Translate(f), v)
    ensures var slot := Slot(DropNulls, f, Some(v));
            && Slot(Widen, f, slot) == Some(v)
            && (if slot.Some? then Fits(fmt, f, slot.value, false) else Optional(f))
    decreases f, 1
  {
    if v != JNull {
      DroppedInsideFits(fmt, f, v);
    } else {
      NeverNull(fmt, f);
    }
  }

  lemma {:induction false} AcceptsIgnores(fmt: Formats, fs: Fields, m: map<string, Json>, k: string, v: Option<Json>)
    requires k !in Names(fs)
    ensures AcceptsProps(fmt, TranslateAll(fs), Put(m, k, v)) == AcceptsProps(fmt, TranslateAll(fs), m)
  {
    if fs.Cons? {
      AcceptsIgnores(fmt, fs.rest, m, k, v);
    }
  }

  /** The array case: a list of objects with an optional name, one of which leaves it out. */
  lemma ArrayItemsKeepTheirNulls(fmt: Formats)
    ensures var name := Field(KString, false, false, false, []);
            var entry := Field(KObject(Cons("name", name, Nil)), true, false, false, []);
            var fs := Cons("list", Field(KArray(entry), true, false, false, []), Nil);
            var m := map["list" := JArray([JObject(map[])])];
            && DistinctAll(fs) && FitsAll(fmt, fs, m, true)
            && Over(DropNulls, fs, Over(Widen, fs, m)) != Over(Normalise, fs, m)
  {
    var name := Field(KString, false, false, false, []);
    var entry := Field(KObject(Cons("name", name, Nil)), true, false, false, []);
    var list := Field(KArray(entry), true, false, false, []);
    var fs := Cons("list", list, Nil);
    var item := JObject(map[]);
    var m := map["list" := JArray([item])];
    assert Fits(fmt, entry, item, true);
    assert Fits(fmt, list, JArray([item]), true);
    assert FitsAll(fmt, fs, m, true);
    assert !Complete(entry, item);
    assert m["list"].items[0] == item;
    assert !ItemsComplete(list, m["list"]);
    RoundTripIff(fmt, fs, m, true);
  }
}
