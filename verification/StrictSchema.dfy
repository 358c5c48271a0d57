/** The rewrite of a JSON Schema into the strict form asked for by the Responses
    API (app/gateways/llm.py), read against what the keywords of JSON Schema
    2020-12 mean. */
module StrictSchema {
  import opened Wrappers

  /** A JSON value. Objects keep their members in order, as Python dicts do. */
  datatype Value =
    | Null
    | Bool(b: bool)
    | Num(n: real)
    | Str(s: string)
    | Arr(items: Values)
    | Obj(fields: Fields)

  datatype Values = VNil | VCons(head: Value, tail: Values)

  datatype Fields = FNil | FCons(key: string, value: Value, rest: Fields)

  function Get(f: Fields, key: string): Option<Value> {
    match f
    case FNil => None
    case FCons(k, v, rest) => if k == key then Some(v) else Get(rest, key)
  }

  predicate Has(f: Fields, key: string) { Get(f, key).Some? }

  /** `d[key] = v`: replaces in place, or appends. */
  function Put(f: Fields, key: string, v: Value): Fields {
    match f
    case FNil => FCons(key, v, FNil)
    case FCons(k, w, rest) => if k == key then FCons(k, v, rest) else FCons(k, w, Put(rest, key, v))
  }

  function Keys(f: Fields): Values {
    match f
    case FNil => VNil
    case FCons(k, _, rest) => VCons(Str(k), Keys(rest))
  }

  // --------------------------------------------------------- the conversion

  predicate Dropped(key: string) { key == "default" || key == "format" }

  function StrictNode(v: Value): Value {
    match v
    case Arr(items) => Arr(StrictItems(items))
    case Obj(fields) => Obj(Close(StrictFields(fields)))
    case _ => v
  }

  function StrictItems(vs: Values): Values {
    match vs
    case VNil => VNil
    case VCons(h, t) => VCons(StrictNode(h), StrictItems(t))
  }

  function StrictFields(f: Fields): Fields {
    match f
    case FNil => FNil
    case FCons(k, v, rest) =>
      if Dropped(k) then StrictFields(rest) else FCons(k, StrictNode(v), StrictFields(rest))
  }

  /** Closes an object node that lists its properties. */
  function Close(f: Fields): Fields {
    match Get(f, "properties")
    case Some(Obj(p)) => Put(Put(f, "additionalProperties", Bool(false)), "required", Arr(Keys(p)))
    case _ => f
  }

  // ------------------------------------- fixed points of the conversion

  /** What the strict dialect demands of every node, at any depth: no `default`,
      no `format`, and every listed set of properties closed and required. */
  predicate IsStrict(v: Value) {
    match v
    case Arr(items) => AllStrict(items)
    case Obj(f) => FieldsStrict(f) && ClosedNode(f)
    case _ => true
  }

  predicate AllStrict(vs: Values) { vs.VCons? ==> IsStrict(vs.head) && AllStrict(vs.tail) }

  predicate FieldsStrict(f: Fields) {
    f.FCons? ==> !Dropped(f.key) && IsStrict(f.value) && FieldsStrict(f.rest)
  }

  predicate ClosedNode(f: Fields) {
    match Get(f, "properties")
    case Some(Obj(p)) =>
      Get(f, "additionalProperties") == Some(Bool(false)) && Get(f, "required") == Some(Arr(Keys(p)))
    case _ => true
  }

  lemma {:induction f} GetPut(f: Fields, key: string, v: Value, other: string)
    ensures Get(Put(f, key, v), other) == if other == key then Some(v) else Get(f, other)
  {
  }

  lemma {:induction f} PutSame(f: Fields, key: string, v: Value)
    requires Get(f, key) == Some(v)
    ensures Put(f, key, v) == f
  {
  }

  lemma {:induction f} PutStrict(f: Fields, key: string, v: Value)
    requires FieldsStrict(f) && !Dropped(key) && IsStrict(v)
    ensures FieldsStrict(Put(f, key, v))
  {
  }

  lemma {:induction f} KeysStrict(f: Fields)
    ensures AllStrict(Keys(f))
  {
  }

  /** The converted schema has the strict form everywhere, whatever the input. */
  lemma {:induction false} ConversionIsStrict(v: Value)
    ensures IsStrict(StrictNode(v))
    decreases v, 1
  {
    match v
    case Arr(items) => ItemsBecomeStrict(items);
    case Obj(f) =>
      FieldsBecomeStrict(f);
      CloseStrict(StrictFields(f));
    case _ =>
  }

  lemma {:induction false} ItemsBecomeStrict(vs: Values)
    ensures AllStrict(StrictItems(vs))
    decreases vs, 0
  {
    if vs.VCons? {
      ConversionIsStrict(vs.head);
      ItemsBecomeStrict(vs.tail);
    }
  }

  lemma {:induction false} FieldsBecomeStrict(f: Fields)
    ensures FieldsStrict(StrictFields(f))
    decreases f, 0
  {
    if f.FCons? {
      ConversionIsStrict(f.value);
      FieldsBecomeStrict(f.rest);
    }
  }

  lemma CloseStrict(f: Fields)
    requires FieldsStrict(f)
    ensures FieldsStrict(Close(f)) && ClosedNode(Close(f))
  {
    match Get(f, "properties")
    case Some(Obj(p)) =>
      var g := Put(f, "additionalProperties", Bool(false));
      PutStrict(f, "additionalProperties", Bool(false));
      KeysStrict(p);
      PutStrict(g, "required", Arr(Keys(p)));
      GetPut(f, "additionalProperties", Bool(false), "properties");
      GetPut(f, "additionalProperties", Bool(false), "additionalProperties");
      GetPut(g, "required", Arr(Keys(p)), "properties");
      GetPut(g, "required", Arr(Keys(p)), "additionalProperties");
      GetPut(g, "required", Arr(Keys(p)), "required");
    case _ =>
  }

  /** A schema is left alone exactly when it is strict already. */
  lemma {:induction false} FixedPointsAreStrict(v: Value)
    ensures StrictNode(v) == v <==> IsStrict(v)
    decreases v, 1
  {
    if IsStrict(v) {
      match v
      case Arr(items) => StrictItemsFixed(items);
      case Obj(f) =>
        StrictFieldsFixed(f);
        match Get(f, "properties") {
          case Some(Obj(p)) =>
            PutSame(f, "additionalProperties", Bool(false));
            PutSame(f, "required", Arr(Keys(p)));
          case _ =>
        }
      case _ =>
    } else {
      ConversionIsStrict(v);
    }
  }

  lemma {:induction false} StrictItemsFixed(vs: Values)
    requires AllStrict(vs)
    ensures StrictItems(vs) == vs
    decreases vs, 0
  {
    if vs.VCons? {
      FixedPointsAreStrict(vs.head);
      StrictItemsFixed(vs.tail);
    }
  }

  lemma {:induction false} StrictFieldsFixed(f: Fields)
    requires FieldsStrict(f)
    ensures StrictFields(f) == f
    decreases f, 0
  {
    if f.FCons? {
      FixedPointsAreStrict(f.value);
      StrictFieldsFixed(f.rest);
    }
  }

  lemma ConversionIdempotent(v: Value)
    ensures StrictNode(StrictNode(v)) == StrictNode(v)
  {
    ConversionIsStrict(v);
    FixedPointsAreStrict(StrictNode(v));
  }

  // ------------------------------------------------------ equality of values

  /** Equality of JSON values: the order of an object's members does not matter. */
  predicate JsonEq(a: Value, b: Value)
    decreases a, 1
  {
    match a
    case Arr(us) => b.Arr? && ItemsEq(us, b.items)
    case Obj(f) => b.Obj? && FieldsIn(f, b.fields) && KeysIn(b.fields, f)
    case _ => a == b
  }

  predicate ItemsEq(us: Values, vs: Values)
    decreases us, 0
  {
    match us
    case VNil => vs.VNil?
    case VCons(h, t) => vs.VCons? && JsonEq(h, vs.head) && ItemsEq(t, vs.tail)
  }

  predicate FieldsIn(f: Fields, g: Fields)
    decreases f, 0
  {
    f.FCons? ==> Has(g, f.key) && JsonEq(f.value, Get(g, f.key).value) && FieldsIn(f.rest, g)
  }

  predicate KeysIn(g: Fields, f: Fields) { g.FCons? ==> Has(f, g.key) && KeysIn(g.rest, f) }

  predicate Member(v: Value, vs: Values) { vs.VCons? && (JsonEq(v, vs.head) || Member(v, vs.tail)) }

  /** No object has a key twice, at any depth. */
  predicate Sound(v: Value)
    decreases v, 1
  {
    match v
    case Arr(items) => AllSound(items)
    case Obj(f) => Distinct(f) && FieldsSound(f)
    case _ => true
  }

  predicate AllSound(vs: Values)
    decreases vs, 0
  {
    vs.VCons? ==> Sound(vs.head) && AllSound(vs.tail)
  }

  predicate FieldsSound(f: Fields)
    decreases f, 0
  {
    f.FCons? ==> Sound(f.value) && FieldsSound(f.rest)
  }

  predicate Distinct(f: Fields) { f.FCons? ==> !Has(f.rest, f.key) && Distinct(f.rest) }

  lemma {:induction f} FieldOf(f: Fields, g: Fields, key: string)
    requires FieldsIn(f, g) && Has(f, key)
    ensures Has(g, key) && JsonEq(Get(f, key).value, Get(g, key).value)
  {
  }

  lemma {:induction g} KeyOf(g: Fields, f: Fields, key: string)
    requires KeysIn(g, f) && Has(g, key)
    ensures Has(f, key)
  {
  }

  lemma {:induction h} KeysInTrans(h: Fields, g: Fields, f: Fields)
    requires KeysIn(h, g) && KeysIn(g, f)
    ensures KeysIn(h, f)
  {
    if h.FCons? {
      KeyOf(g, f, h.key);
    }
  }

  lemma {:induction false} EqTrans(a: Value, b: Value, c: Value)
    requires JsonEq(a, b) && JsonEq(b, c)
    ensures JsonEq(a, c)
    decreases a, 1
  {
    if a.Arr? {
      ItemsEqTrans(a.items, b.items, c.items);
    } else if a.Obj? {
      FieldsInTrans(a.fields, b.fields, c.fields);
      KeysInTrans(c.fields, b.fields, a.fields);
    }
  }

  lemma {:induction false} ItemsEqTrans(us: Values, vs: Values, ws: Values)
    requires ItemsEq(us, vs) && ItemsEq(vs, ws)
    ensures ItemsEq(us, ws)
    decreases us, 0
  {
    if us.VCons? {
      EqTrans(us.head, vs.head, ws.head);
      ItemsEqTrans(us.tail, vs.tail, ws.tail);
    }
  }

  lemma {:induction false} FieldsInTrans(f: Fields, g: Fields, h: Fields)
    requires FieldsIn(f, g) && FieldsIn(g, h)
    ensures FieldsIn(f, h)
    decreases f, 0
  {
    if f.FCons? {
      FieldOf(g, h, f.key);
      EqTrans(f.value, Get(g, f.key).value, Get(h, f.key).value);
      FieldsInTrans(f.rest, g, h);
    }
  }

  lemma {:induction false} EqRefl(v: Value)
    requires Sound(v)
    ensures JsonEq(v, v)
    decreases v, 1
  {
    if v.Arr? {
      ItemsEqRefl(v.items);
    } else if v.Obj? {
      FieldsInSelf(v.fields, v.fields);
    }
  }

  lemma {:induction false} ItemsEqRefl(vs: Values)
    requires AllSound(vs)
    ensures ItemsEq(vs, vs)
    decreases vs, 0
  {
    if vs.VCons? {
      EqRefl(vs.head);
      ItemsEqRefl(vs.tail);
    }
  }

  /** `part` is part of `all`. */
  lemma {:induction false} FieldsInSelf(part: Fields, all: Fields)
    requires FieldsSound(part) && Distinct(part)
    requires forall k :: Has(part, k) ==> Get(part, k) == Get(all, k)
    ensures FieldsIn(part, all) && KeysIn(part, all)
    decreases part, 0
  {
    if part.FCons? {
      assert Get(part, part.key) == Some(part.value);
      EqRefl(part.value);
      forall k | Has(part.rest, k) ensures Get(part.rest, k) == Get(all, k) {
        assert Get(part, k) == Get(part.rest, k);
      }
      FieldsInSelf(part.rest, all);
    }
  }

  // ---------------------------------------- values that conversion leaves equal

  lemma {:induction f} StrictFieldsGet(f: Fields, key: string)
    requires !Dropped(key)
    ensures Get(StrictFields(f), key) ==
      match Get(f, key) case Some(v) => Some(StrictNode(v)) case None => None
  {
  }

  lemma {:induction p} DroppedGone(p: Fields, key: string)
    requires Dropped(key)
    ensures !Has(StrictFields(p), key)
  {
  }

  /** The node lists its properties. */
  predicate Listed(f: Fields) { Has(f, "properties") && Get(f, "properties").value.Obj? }

  /** What the converted node says under each keyword. */
  lemma ConvertedGet(f: Fields, key: string)
    ensures Get(Close(StrictFields(f)), key) ==
      if Dropped(key) then None
      else if Listed(f) && key == "additionalProperties" then Some(Bool(false))
      else if Listed(f) && key == "required" then
        Some(Arr(Keys(StrictNode(Get(f, "properties").value).fields)))
      else match Get(f, key) case Some(v) => Some(StrictNode(v)) case None => None
  {
    var c := StrictFields(f);
    if Dropped(key) { DroppedGone(f, key); } else { StrictFieldsGet(f, key); }
    StrictFieldsGet(f, "properties");
    if Listed(f) {
      var g := Put(c, "additionalProperties", Bool(false));
      GetPut(c, "additionalProperties", Bool(false), key);
      GetPut(g, "required", Arr(Keys(StrictNode(Get(f, "properties").value).fields)), key);
    } else if Has(f, "properties") {
      NoObject(Get(f, "properties").value);
    }
  }

  lemma NoObject(v: Value)
    ensures StrictNode(v).Obj? <==> v.Obj?
    ensures StrictNode(v).Arr? <==> v.Arr?
  {
  }

  lemma {:induction false} KeysEq(f: Fields, vs: Values)
    requires ItemsEq(Keys(f), vs)
    ensures vs == Keys(f)
    decreases f
  {
    if f.FCons? {
      KeysEq(f.rest, vs.tail);
    }
  }

  /** Conversion leaves a value equal only by leaving it alone. */
  lemma {:induction false} EqualIsStrict(v: Value)
    requires Sound(v) && JsonEq(StrictNode(v), v)
    ensures IsStrict(v)
    decreases v, 1
  {
    if v.Arr? {
      EqualItemsAreStrict(v.items);
    } else if v.Obj? {
      var f := v.fields;
      EqualFieldsAreStrict(f, f);
      if Listed(f) {
        StrictFieldsFixed(f);
        EqualIsClosed(f);
      }
    }
  }

  lemma {:induction false} EqualItemsAreStrict(vs: Values)
    requires AllSound(vs) && ItemsEq(StrictItems(vs), vs)
    ensures AllStrict(vs)
    decreases vs, 0
  {
    if vs.VCons? {
      EqualIsStrict(vs.head);
      EqualItemsAreStrict(vs.tail);
    }
  }

  lemma {:induction false} EqualFieldsAreStrict(part: Fields, all: Fields)
    requires FieldsSound(part) && Distinct(part)
    requires forall k :: Has(part, k) ==> Get(part, k) == Get(all, k)
    requires JsonEq(Obj(Close(StrictFields(all))), Obj(all))
    ensures FieldsStrict(part)
    decreases part, 0
  {
    if part.FCons? {
      var g := Close(StrictFields(all));
      assert Get(all, part.key) == Some(part.value);
      KeyOf(all, g, part.key);
      ConvertedGet(all, part.key);
      FieldOf(g, all, part.key);
      if Listed(all) && part.key == "additionalProperties" {
        assert part.value == Bool(false);
      } else if Listed(all) && part.key == "required" {
        KeysEq(StrictNode(Get(all, "properties").value).fields, part.value.items);
        KeysStrict(StrictNode(Get(all, "properties").value).fields);
      } else {
        EqualIsStrict(part.value);
      }
      forall k | Has(part.rest, k) ensures Get(part.rest, k) == Get(all, k) {
        assert Get(part, k) == Get(part.rest, k);
      }
      EqualFieldsAreStrict(part.rest, all);
    }
  }

  lemma EqualIsClosed(f: Fields)
    requires Listed(f) && FieldsStrict(f) && StrictFields(f) == f
    requires JsonEq(Obj(Close(f)), Obj(f))
    ensures ClosedNode(f)
  {
    var p := Get(f, "properties").value.fields;
    var g := Put(f, "additionalProperties", Bool(false));
    GetPut(f, "additionalProperties", Bool(false), "additionalProperties");
    GetPut(g, "required", Arr(Keys(p)), "additionalProperties");
    GetPut(g, "required", Arr(Keys(p)), "required");
    FieldOf(Close(f), f, "additionalProperties");
    FieldOf(Close(f), f, "required");
    KeysEq(p, Get(f, "required").value.items);
  }

  /** A sound value is sound after conversion. */
  lemma {:induction false} ConvertedIsSound(v: Value)
    requires Sound(v)
    ensures Sound(StrictNode(v))
    decreases v, 1
  {
    if v.Arr? {
      ConvertedItemsAreSound(v.items);
    } else if v.Obj? {
      var c := StrictFields(v.fields);
      ConvertedFieldsAreSound(v.fields);
      match Get(c, "properties") {
        case Some(Obj(p)) =>
          PutSound(c, "additionalProperties", Bool(false));
          KeysSound(p);
          PutSound(Put(c, "additionalProperties", Bool(false)), "required", Arr(Keys(p)));
        case _ =>
      }
    }
  }

  lemma {:induction false} ConvertedItemsAreSound(vs: Values)
    requires AllSound(vs)
    ensures AllSound(StrictItems(vs))
    decreases vs, 0
  {
    if vs.VCons? {
      ConvertedIsSound(vs.head);
      ConvertedItemsAreSound(vs.tail);
    }
  }

  lemma {:induction false} ConvertedFieldsAreSound(f: Fields)
    requires FieldsSound(f) && Distinct(f)
    ensures FieldsSound(StrictFields(f)) && Distinct(StrictFields(f))
    decreases f, 0
  {
    if f.FCons? {
      ConvertedIsSound(f.value);
      ConvertedFieldsAreSound(f.rest);
      if !Dropped(f.key) {
        StrictFieldsGet(f.rest, f.key);
      }
    }
  }

  lemma {:induction f} PutSound(f: Fields, key: string, v: Value)
    requires FieldsSound(f) && Distinct(f) && Sound(v)
    ensures FieldsSound(Put(f, key, v)) && Distinct(Put(f, key, v))
  {
    if f.FCons? && f.key != key {
      GetPut(f.rest, key, v, f.key);
    }
  }

  lemma {:induction f} KeysSound(f: Fields)
    ensures AllSound(Keys(f))
  {
  }

  // ------------------------------------------------- what a schema accepts

  /** How the keywords that are not modelled one by one judge an instance: any
      fixed reading of `type`, `minLength`, `pattern` and the like. */
  type Leaf = (string, Value, Value) -> bool

  /** The instance `x` is valid under the schema `s`. */
  predicate Valid(leaf: Leaf, s: Value, x: Value)
    decreases s, 1
  {
    match s
    case Bool(b) => b
    case Obj(f) => ValidKeywords(leaf, f, f, x)
    case _ => true
  }

  /** Every keyword of `f` accepts `x`; `all` is the whole schema object. */
  predicate ValidKeywords(leaf: Leaf, f: Fields, all: Fields, x: Value)
    decreases f, 0
  {
    f.FCons? ==> ValidKeyword(leaf, f.key, f.value, all, x) && ValidKeywords(leaf, f.rest, all, x)
  }

  predicate ValidKeyword(leaf: Leaf, key: string, arg: Value, all: Fields, x: Value)
    decreases arg, 2
  {
    if key == "properties" then
      arg.Obj? && x.Obj? ==> ValidProperties(leaf, arg.fields, x.fields)
    else if key == "required" then
      arg.Arr? && x.Obj? ==> HasAll(arg.items, x.fields)
    else if key == "additionalProperties" then
      x.Obj? ==> ValidOthers(leaf, arg, Declared(all), x.fields)
    else if key == "items" then
      x.Arr? ==> ValidEach(leaf, arg, x.items)
    else if key == "allOf" then
      arg.Arr? ==> ValidAll(leaf, arg.items, x)
    else if key == "anyOf" then
      arg.Arr? ==> ValidAny(leaf, arg.items, x)
    else if key == "enum" then
      arg.Arr? ==> Member(x, arg.items)
    else if key == "const" then
      JsonEq(x, arg)
    else
      Annotation(key) || leaf(key, arg, x)
  }

  /** Keywords that constrain no instance: `format` and `default` among them. */
  predicate Annotation(key: string) {
    key in {"default", "format", "title", "description", "examples", "deprecated",
            "$defs", "$schema", "$id", "$comment"}
  }

  function Declared(all: Fields): Fields {
    match Get(all, "properties")
    case Some(Obj(p)) => p
    case _ => FNil
  }

  predicate ValidProperties(leaf: Leaf, p: Fields, x: Fields)
    decreases p, 0
  {
    p.FCons? ==>
      (Has(x, p.key) ==> Valid(leaf, p.value, Get(x, p.key).value)) && ValidProperties(leaf, p.rest, x)
  }

  predicate HasAll(names: Values, x: Fields) {
    names.VCons? ==> (names.head.Str? ==> Has(x, names.head.s)) && HasAll(names.tail, x)
  }

  predicate ValidOthers(leaf: Leaf, s: Value, declared: Fields, x: Fields)
    decreases s, 2, x
  {
    x.FCons? ==>
      (!Has(declared, x.key) ==> Valid(leaf, s, x.value)) && ValidOthers(leaf, s, declared, x.rest)
  }

  predicate ValidEach(leaf: Leaf, s: Value, xs: Values)
    decreases s, 2, xs
  {
    xs.VCons? ==> Valid(leaf, s, xs.head) && ValidEach(leaf, s, xs.tail)
  }

  predicate ValidAll(leaf: Leaf, ss: Values, x: Value)
    decreases ss, 0
  {
    ss.VCons? ==> Valid(leaf, ss.head, x) && ValidAll(leaf, ss.tail, x)
  }

  predicate ValidAny(leaf: Leaf, ss: Values, x: Value)
    decreases ss, 0
  {
    ss.VCons? && (Valid(leaf, ss.head, x) || ValidAny(leaf, ss.tail, x))
  }

  // --------------------------------------------- the conversion only narrows

  /** Keywords whose meaning depends on other keywords or other places. */
  predicate Contextual(key: string) {
    key in {"if", "then", "else", "$ref", "$dynamicRef", "patternProperties", "contains", "minContains", "maxContains",
            "prefixItems", "unevaluatedProperties", "unevaluatedItems"}
  }

  /** A property map that is itself taken for a schema node that lists properties. */
  predicate Nested(p: Fields) { Listed(p) }

  /** Schemas the conversion is meant for. */
  predicate Convertible(s: Value)
    decreases s, 1
  {
    s.Obj? ==> Distinct(s.fields) && GoodKeywords(s.fields, s.fields)
  }

  predicate GoodKeywords(f: Fields, all: Fields)
    decreases f, 0
  {
    f.FCons? ==> GoodKeyword(f.key, f.value, all) && GoodKeywords(f.rest, all)
  }

  predicate GoodKeyword(key: string, arg: Value, all: Fields)
    decreases arg, 2
  {
    if key == "properties" then arg.Obj? && !Nested(arg.fields) ==> GoodProperties(arg.fields)
    else if key == "required" then
      arg.Arr? && Listed(all) && !Nested(Declared(all)) ==> AllDeclared(arg.items, Declared(all))
    else if key == "additionalProperties" then Listed(all) || Convertible(arg)
    else if key == "items" then Convertible(arg)
    else if key == "allOf" || key == "anyOf" then arg.Arr? ==> AllConvertible(arg.items)
    else if key == "enum" then arg.Arr? ==> ItemsKept(StrictItems(arg.items), arg.items)
    else if key == "const" then IsStrict(arg)
    else Annotation(key) || (!Contextual(key) && IsStrict(arg))
  }

  predicate GoodProperties(p: Fields)
    decreases p, 0
  {
    p.FCons? ==> Convertible(p.value) && GoodProperties(p.rest)
  }

  predicate AllConvertible(ss: Values)
    decreases ss, 0
  {
    ss.VCons? ==> Convertible(ss.head) && AllConvertible(ss.tail)
  }

  predicate AllDeclared(names: Values, p: Fields) {
    names.VCons? ==>
      (names.head.Str? ==> Has(p, names.head.s) && !Dropped(names.head.s)) && AllDeclared(names.tail, p)
  }

  /** Every value of `us` is among `vs`. */
  predicate ItemsKept(us: Values, vs: Values) { us.VCons? ==> Member(us.head, vs) && ItemsKept(us.tail, vs) }

  lemma {:induction vs} MemberEq(x: Value, v: Value, vs: Values)
    requires JsonEq(x, v) && Member(v, vs)
    ensures Member(x, vs)
  {
    if JsonEq(v, vs.head) {
      EqTrans(x, v, vs.head);
    }
  }

  lemma {:induction us} KeptMember(x: Value, us: Values, vs: Values)
    requires Member(x, us) && ItemsKept(us, vs)
    ensures Member(x, vs)
  {
    if JsonEq(x, us.head) {
      MemberEq(x, us.head, vs);
    }
  }

  /** A keyword of a valid node accepts the instance. */
  lemma {:induction f} KeywordOf(leaf: Leaf, f: Fields, all: Fields, key: string, x: Value)
    requires ValidKeywords(leaf, f, all, x) && Has(f, key)
    ensures ValidKeyword(leaf, key, Get(f, key).value, all, x)
  {
  }

  /** A property map that itself has a property called `properties` with an object
      schema is taken for a schema node and closed: no object is valid any more. */
  lemma NestedMapRejectsObjects(leaf: Leaf, p: Fields, x: Value)
    requires Nested(p)
    requires var q := StrictNode(Obj(p)).fields;
      x.Obj? ==> ValidProperties(leaf, q, x.fields) && HasAll(Keys(q), x.fields)
    ensures !x.Obj?
  {
    ConvertedGet(p, "additionalProperties");
    if x.Obj? {
      var q := StrictNode(Obj(p)).fields;
      NamePresent("additionalProperties", q, x.fields);
      PropertyOf(leaf, q, "additionalProperties", x.fields);
    }
  }

  lemma {:induction p} PropertyOf(leaf: Leaf, p: Fields, name: string, x: Fields)
    requires ValidProperties(leaf, p, x) && Has(p, name) && Has(x, name)
    ensures Valid(leaf, Get(p, name).value, Get(x, name).value)
  {
  }

  /** Any other property map is converted member by member. */
  lemma PlainMapConverted(p: Fields)
    requires !Nested(p)
    ensures StrictNode(Obj(p)) == Obj(StrictFields(p))
  {
    StrictFieldsGet(p, "properties");
    if Has(p, "properties") {
      NoObject(Get(p, "properties").value);
    }
  }

  /** Every instance the converted schema accepts, the original accepts. */
  lemma {:induction false} ConversionNarrows(leaf: Leaf, s: Value, x: Value)
    requires Convertible(s) && Valid(leaf, StrictNode(s), x)
    ensures Valid(leaf, s, x)
    decreases s, 1
  {
    if s.Obj? {
      NarrowKeywords(leaf, s.fields, s.fields, x);
    }
  }

  lemma {:induction false} NarrowKeywords(leaf: Leaf, f: Fields, all: Fields, x: Value)
    requires GoodKeywords(f, all) && GoodKeywords(all, all) && Distinct(f)
    requires forall k :: Has(f, k) ==> Get(f, k) == Get(all, k)
    requires ValidKeywords(leaf, Close(StrictFields(all)), Close(StrictFields(all)), x)
    ensures ValidKeywords(leaf, f, all, x)
    decreases f, 0
  {
    if f.FCons? {
      assert Get(f, f.key) == Some(f.value);
      NarrowKeyword(leaf, f.key, f.value, all, x);
      forall k | Has(f.rest, k) ensures Get(f.rest, k) == Get(all, k) {
        assert Get(f, k) == Get(f.rest, k);
      }
      NarrowKeywords(leaf, f.rest, all, x);
    }
  }

  lemma {:induction false} NarrowKeyword(leaf: Leaf, key: string, arg: Value, all: Fields, x: Value)
    requires GoodKeyword(key, arg, all) && Get(all, key) == Some(arg)
    requires var g := Close(StrictFields(all)); ValidKeywords(leaf, g, g, x)
    ensures ValidKeyword(leaf, key, arg, all, x)
    decreases arg, 4
  {
    var g := Close(StrictFields(all));
    NoObject(arg);
    if !Annotation(key) {
      ConvertedGet(all, key);
      KeywordOf(leaf, g, g, key, x);
    }
    if Listed(all) {
      ClosedNodeDemands(leaf, all, x);
    }
    if key == "properties" {
      if arg.Obj? && x.Obj? {
        NoDroppedMember(leaf, arg.fields, x.fields);
        NarrowProperties(leaf, arg.fields, x.fields);
      }
    } else if key == "required" {
      if arg.Arr? && x.Obj? {
        if Listed(all) {
          AllNamesPresent(arg.items, Declared(all), x.fields);
        } else {
          SameNames(arg.items, x.fields);
        }
      }
    } else if key == "additionalProperties" {
      if x.Obj? {
        NarrowAdditional(leaf, arg, all, x.fields);
      }
    } else if key == "items" {
      if x.Arr? { NarrowEach(leaf, arg, x.items); }
    } else if key == "allOf" {
      if arg.Arr? { NarrowAll(leaf, arg.items, x); }
    } else if key == "anyOf" {
      if arg.Arr? { NarrowAny(leaf, arg.items, x); }
    } else if key == "enum" {
      if arg.Arr? { KeptMember(x, StrictItems(arg.items), arg.items); }
    } else if !Annotation(key) {
      FixedPointsAreStrict(arg);
    }
  }

  lemma {:induction false} NarrowAdditional(leaf: Leaf, arg: Value, all: Fields, x: Fields)
    requires Listed(all) || Convertible(arg)
    requires Listed(all) ==> ValidOthers(leaf, Bool(false), StrictFields(Declared(all)), x)
    requires !Listed(all) ==> ValidOthers(leaf, StrictNode(arg), Declared(Close(StrictFields(all))), x)
    ensures ValidOthers(leaf, arg, Declared(all), x)
    decreases arg, 3
  {
    if Listed(all) {
      NoOthers(leaf, Declared(all), arg, x);
    } else {
      ConvertedGet(all, "properties");
      if Has(all, "properties") { NoObject(Get(all, "properties").value); }
      NarrowOthers(leaf, arg, FNil, x);
    }
  }

  /** What a closed node demands of an object: only listed members, and all of them. */
  lemma ClosedNodeDemands(leaf: Leaf, all: Fields, x: Value)
    requires Listed(all)
    requires var g := Close(StrictFields(all)); ValidKeywords(leaf, g, g, x)
    ensures var q := StrictFields(Declared(all));
      x.Obj? ==> !Nested(Declared(all)) && ValidProperties(leaf, q, x.fields) && HasAll(Keys(q), x.fields)
                 && ValidOthers(leaf, Bool(false), q, x.fields)
  {
    var g := Close(StrictFields(all));
    ConvertedGet(all, "properties");
    ConvertedGet(all, "required");
    ConvertedGet(all, "additionalProperties");
    KeywordOf(leaf, g, g, "properties", x);
    KeywordOf(leaf, g, g, "required", x);
    KeywordOf(leaf, g, g, "additionalProperties", x);
    var p := Declared(all);
    if Nested(p) {
      NestedMapRejectsObjects(leaf, p, x);
    } else {
      PlainMapConverted(p);
    }
  }

  lemma {:induction false} NarrowProperties(leaf: Leaf, p: Fields, x: Fields)
    requires GoodProperties(p) && ValidProperties(leaf, StrictFields(p), x)
    requires !Has(x, "default") && !Has(x, "format")
    ensures ValidProperties(leaf, p, x)
    decreases p, 0
  {
    if p.FCons? {
      if Has(x, p.key) {
        ConversionNarrows(leaf, p.value, Get(x, p.key).value);
      }
      NarrowProperties(leaf, p.rest, x);
    }
  }

  lemma NoDroppedMember(leaf: Leaf, p: Fields, x: Fields)
    requires ValidOthers(leaf, Bool(false), StrictFields(p), x)
    ensures !Has(x, "default") && !Has(x, "format")
  {
    DroppedGone(p, "default");
    DroppedGone(p, "format");
    UnlistedAbsent(leaf, StrictFields(p), x, "default");
    UnlistedAbsent(leaf, StrictFields(p), x, "format");
  }

  lemma {:induction x} UnlistedAbsent(leaf: Leaf, q: Fields, x: Fields, key: string)
    requires ValidOthers(leaf, Bool(false), q, x) && !Has(q, key)
    ensures !Has(x, key)
  {
  }

  lemma {:induction names} SameNames(names: Values, x: Fields)
    ensures HasAll(StrictItems(names), x) <==> HasAll(names, x)
  {
  }

  lemma {:induction names} AllNamesPresent(names: Values, p: Fields, x: Fields)
    requires AllDeclared(names, p) && HasAll(Keys(StrictFields(p)), x)
    ensures HasAll(names, x)
  {
    if names.VCons? && names.head.Str? {
      StrictFieldsGet(p, names.head.s);
      NamePresent(names.head.s, StrictFields(p), x);
    }
  }

  lemma {:induction false} NamePresent(name: string, p: Fields, x: Fields)
    requires Has(p, name) && HasAll(Keys(p), x)
    ensures Has(x, name)
  {
    if p.key == name {
      assert Keys(p) == VCons(Str(name), Keys(p.rest));
    } else {
      NamePresent(name, p.rest, x);
    }
  }

  /** A closed node leaves no undeclared member to judge. */
  lemma {:induction false} NoOthers(leaf: Leaf, p: Fields, s: Value, x: Fields)
    requires ValidOthers(leaf, Bool(false), StrictFields(p), x)
    ensures ValidOthers(leaf, s, p, x)
    decreases x
  {
    if x.FCons? {
      if Dropped(x.key) {
        DroppedGone(p, x.key);
      } else {
        StrictFieldsGet(p, x.key);
      }
      NoOthers(leaf, p, s, x.rest);
    }
  }

  lemma {:induction false} NarrowOthers(leaf: Leaf, s: Value, declared: Fields, x: Fields)
    requires Convertible(s) && ValidOthers(leaf, StrictNode(s), declared, x)
    ensures ValidOthers(leaf, s, declared, x)
    decreases s, 2, x
  {
    if x.FCons? {
      if !Has(declared, x.key) {
        ConversionNarrows(leaf, s, x.value);
      }
      NarrowOthers(leaf, s, declared, x.rest);
    }
  }

  lemma {:induction false} NarrowEach(leaf: Leaf, s: Value, xs: Values)
    requires Convertible(s) && ValidEach(leaf, StrictNode(s), xs)
    ensures ValidEach(leaf, s, xs)
    decreases s, 2, xs
  {
    if xs.VCons? {
      ConversionNarrows(leaf, s, xs.head);
      NarrowEach(leaf, s, xs.tail);
    }
  }

  lemma {:induction false} NarrowAll(leaf: Leaf, ss: Values, x: Value)
    requires AllConvertible(ss) && ValidAll(leaf, StrictItems(ss), x)
    ensures ValidAll(leaf, ss, x)
    decreases ss, 0
  {
    if ss.VCons? {
      ConversionNarrows(leaf, ss.head, x);
      NarrowAll(leaf, ss.tail, x);
    }
  }

  lemma {:induction false} NarrowAny(leaf: Leaf, ss: Values, x: Value)
    requires AllConvertible(ss) && ValidAny(leaf, StrictItems(ss), x)
    ensures ValidAny(leaf, ss, x)
    decreases ss, 0
  {
    if Valid(leaf, StrictItems(ss).head, x) {
      ConversionNarrows(leaf, ss.head, x);
    } else {
      NarrowAny(leaf, ss.tail, x);
    }
  }

  // -------------------------------------- exactly when it does not narrow

  ghost predicate Narrows(leaf: Leaf, s: Value) {
    forall x :: Valid(leaf, StrictNode(s), x) ==> Valid(leaf, s, x)
  }

  function OneKeyword(key: string, arg: Value): Value { Obj(FCons(key, arg, FNil)) }

  lemma OneKeywordValid(leaf: Leaf, key: string, arg: Value, x: Value)
    ensures Valid(leaf, OneKeyword(key, arg), x) <==> ValidKeyword(leaf, key, arg, FCons(key, arg, FNil), x)
  {
    assert ValidKeywords(leaf, FNil, FCons(key, arg, FNil), x);
  }

  lemma OneKeywordConverted(key: string, arg: Value)
    requires !Dropped(key) && key != "properties"
    ensures StrictNode(OneKeyword(key, arg)) == OneKeyword(key, StrictNode(arg))
  {
    var f := FCons(key, arg, FNil);
    assert StrictFields(f) == FCons(key, StrictNode(arg), FNil);
    assert Get(StrictFields(f), "properties") == None;
  }

  lemma {:induction vs} MemberOfSelf(vs: Values, us: Values)
    requires AllSound(us) && (forall x :: Member(x, us) ==> Member(x, vs))
    ensures ItemsKept(us, vs)
    decreases us
  {
    if us.VCons? {
      EqRefl(us.head);
      assert Member(us.head, us);
      forall x | Member(x, us.tail) ensures Member(x, vs) {
        assert Member(x, us);
      }
      MemberOfSelf(vs, us.tail);
    }
  }

  /** An enumeration narrows exactly when every converted item is still one of the items. */
  lemma EnumNarrowsIffKept(leaf: Leaf, vs: Values)
    requires AllSound(vs)
    ensures Narrows(leaf, OneKeyword("enum", Arr(vs))) <==> ItemsKept(StrictItems(vs), vs)
  {
    var s := OneKeyword("enum", Arr(vs));
    OneKeywordConverted("enum", Arr(vs));
    forall x
      ensures Valid(leaf, s, x) <==> Member(x, vs)
      ensures Valid(leaf, StrictNode(s), x) <==> Member(x, StrictItems(vs))
    {
      OneKeywordValid(leaf, "enum", Arr(vs), x);
      OneKeywordValid(leaf, "enum", Arr(StrictItems(vs)), x);
    }
    if Narrows(leaf, s) {
      forall x | Member(x, StrictItems(vs)) ensures Member(x, vs) {
        assert Valid(leaf, StrictNode(s), x);
      }
      ConvertedItemsAreSound(vs);
      MemberOfSelf(vs, StrictItems(vs));
    } else {
      var x :| Valid(leaf, StrictNode(s), x) && !Valid(leaf, s, x);
      if ItemsKept(StrictItems(vs), vs) {
        KeptMember(x, StrictItems(vs), vs);
      }
    }
  }

  /** A constant narrows exactly when it is strict already. */
  lemma ConstNarrowsIffStrict(leaf: Leaf, v: Value)
    requires Sound(v)
    ensures Narrows(leaf, OneKeyword("const", v)) <==> IsStrict(v)
  {
    var s := OneKeyword("const", v);
    OneKeywordConverted("const", v);
    if IsStrict(v) {
      FixedPointsAreStrict(v);
    } else if Narrows(leaf, s) {
      ConvertedIsSound(v);
      EqRefl(StrictNode(v));
      OneKeywordValid(leaf, "const", StrictNode(v), StrictNode(v));
      OneKeywordValid(leaf, "const", v, StrictNode(v));
      assert Valid(leaf, StrictNode(s), StrictNode(v));
      EqualIsStrict(v);
    }
  }

  predicate Requires(names: Values, name: string) {
    names.VCons? && (names.head == Str(name) || Requires(names.tail, name))
  }

  lemma {:induction names} RequiredPresent(names: Values, name: string, x: Fields)
    requires Requires(names, name) && HasAll(names, x)
    ensures Has(x, name)
  {
  }

  lemma {:induction names} SomeUndeclared(names: Values, p: Fields) returns (name: string)
    requires !AllDeclared(names, p)
    ensures Requires(names, name) && (!Has(p, name) || Dropped(name))
  {
    if names.head.Str? && (!Has(p, names.head.s) || Dropped(names.head.s)) {
      name := names.head.s;
    } else {
      name := SomeUndeclared(names.tail, p);
    }
  }

  /** A node that requires a name it does not declare, or declares as `default` or
      `format`: every object that the converted node accepts, the original rejects. */
  lemma UndeclaredRequiredIsLost(leaf: Leaf, f: Fields, x: Value)
    requires Listed(f) && Has(f, "required") && Get(f, "required").value.Arr? && x.Obj?
    requires !AllDeclared(Get(f, "required").value.items, Declared(f))
    ensures Valid(leaf, StrictNode(Obj(f)), x) ==> !Valid(leaf, Obj(f), x)
  {
    if Valid(leaf, StrictNode(Obj(f)), x) && Valid(leaf, Obj(f), x) {
      var names, p := Get(f, "required").value.items, Declared(f);
      var name := SomeUndeclared(names, p);
      ClosedNodeDemands(leaf, f, x);
      if Dropped(name) { DroppedGone(p, name); } else { StrictFieldsGet(p, name); }
      UnlistedAbsent(leaf, StrictFields(p), x.fields, name);
      KeywordOf(leaf, f, f, "required", x);
      RequiredPresent(names, name, x.fields);
    }
  }

  /** So, whatever the node says besides: it narrows on objects exactly when all that it
      requires is declared, or when the converted node accepts no object at all. */
  lemma RequiredNarrowsIffDeclared(leaf: Leaf, f: Fields)
    requires Listed(f) && Has(f, "required") && Get(f, "required").value.Arr?
    requires AllDeclared(Get(f, "required").value.items, Declared(f)) ==> Convertible(Obj(f))
    ensures (forall x: Value :: x.Obj? && Valid(leaf, StrictNode(Obj(f)), x) ==> Valid(leaf, Obj(f), x))
      <==> (AllDeclared(Get(f, "required").value.items, Declared(f))
            || forall x: Value :: x.Obj? ==> !Valid(leaf, StrictNode(Obj(f)), x))
  {
    forall x: Value | x.Obj? && Valid(leaf, StrictNode(Obj(f)), x)
      ensures Valid(leaf, Obj(f), x) <==> AllDeclared(Get(f, "required").value.items, Declared(f))
    {
      if AllDeclared(Get(f, "required").value.items, Declared(f)) {
        ConversionNarrows(leaf, Obj(f), x);
      } else {
        UndeclaredRequiredIsLost(leaf, f, x);
      }
    }
  }

  // -------------------------------------------- a keyword that turns it round

  ghost predicate Widens(leaf: Leaf, s: Value) {
    forall x :: Valid(leaf, s, x) ==> Valid(leaf, StrictNode(s), x)
  }

  /** `leaf` reads `not` as JSON Schema does, for `arg` and for its conversion. */
  ghost predicate ReadsNot(leaf: Leaf, arg: Value) {
    forall x ::
      && (leaf("not", arg, x) <==> !Valid(leaf, arg, x))
      && (leaf("not", StrictNode(arg), x) <==> !Valid(leaf, StrictNode(arg), x))
  }

  /** Under `not` the conversion narrows exactly when it does not narrow what is negated. */
  lemma NotNarrowsIffWidens(leaf: Leaf, arg: Value)
    requires ReadsNot(leaf, arg)
    ensures Narrows(leaf, OneKeyword("not", arg)) <==> Widens(leaf, arg)
  {
    var s := OneKeyword("not", arg);
    OneKeywordConverted("not", arg);
    forall x
      ensures Valid(leaf, s, x) <==> !Valid(leaf, arg, x)
      ensures Valid(leaf, StrictNode(s), x) <==> !Valid(leaf, StrictNode(arg), x)
    {
      OneKeywordValid(leaf, "not", arg, x);
      OneKeywordValid(leaf, "not", StrictNode(arg), x);
      assert leaf("not", arg, x) <==> !Valid(leaf, arg, x);
    }
  }

  lemma {:induction p} EmptyHasValidProperties(leaf: Leaf, p: Fields)
    ensures ValidProperties(leaf, p, FNil)
  {
  }

  /** So it widens every negated list of properties that has one to keep: the empty object
      was accepted by what is negated, and is no more. */
  lemma NegatedPropertiesAreLost(leaf: Leaf, p: Fields, name: string)
    requires Has(p, name) && !Dropped(name) && ReadsNot(leaf, OneKeyword("properties", Obj(p)))
    ensures !Narrows(leaf, OneKeyword("not", OneKeyword("properties", Obj(p))))
  {
    var f := FCons("properties", Obj(p), FNil);
    NotNarrowsIffWidens(leaf, Obj(f));
    OneKeywordValid(leaf, "properties", Obj(p), Obj(FNil));
    EmptyHasValidProperties(leaf, p);
    assert Valid(leaf, Obj(f), Obj(FNil));
    if Valid(leaf, StrictNode(Obj(f)), Obj(FNil)) {
      ClosedNodeDemands(leaf, f, Obj(FNil));
      StrictFieldsGet(p, name);
      NamePresent(name, StrictFields(p), FNil);
    }
  }
}
