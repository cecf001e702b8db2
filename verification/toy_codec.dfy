/** A toy reading of the generated codec expressions, just detailed enough to state
    the round trip the example record promises. A record is written as a string-keyed
    map with one entry per `fieldOf(key)` getter, and read back key by key before the
    constructor is applied. Built-in constants copy the value into a tree node of the
    matching kind, and `Codec.list` maps over the elements. Reads of another class's
    `CODEC` and `optionalFieldOf` have no toy meaning and always fail here. */
module ToyCodec {
  import opened Wrappers
  import opened IrModel
  import opened TypeResolver
  import opened RecordAssembler

  /** A value of a parameter type. Floating values are kept as reals and never
      computed with. */
  datatype Value =
    | IntV(i: int) | LongV(l: int) | FloatV(f: real) | DoubleV(d: real)
    | BoolV(b: bool) | StrV(s: string) | ListV(items: seq<Value>)

  /** The generic tree values are written into. */
  datatype Data =
    | DInt(i: int) | DLong(l: int) | DFloat(f: real) | DDouble(d: real)
    | DBool(b: bool) | DStr(s: string) | DList(items: seq<Data>) | DMap(entries: map<string, Data>)

  /** An instance of a record class: the class and its constructor arguments. */
  datatype RecordValue = RecordValue(cls: ClassId, args: seq<Value>)

  /** All present, or nothing. */
  function AllSome<T>(xs: seq<Option<T>>): (r: Option<seq<T>>)
    ensures r.Some? <==> forall i | 0 <= i < |xs| :: xs[i].Some?
    ensures r.Some? ==> |r.value| == |xs| && forall i | 0 <= i < |xs| :: xs[i] == Some(r.value[i])
  {
    if |xs| == 0 then Some([])
    else if xs[0].None? then None
    else
      match AllSome(xs[1..])
      case None => None
      case Some(rest) => Some([xs[0].value] + rest)
  }

  /** Writes `v` with codec `c`. */
  function Encode(c: CodecExpr, v: Value): Option<Data>
    decreases c
  {
    match c
    case Builtin(k) =>
      if k == "INT" && v.IntV? then Some(DInt(v.i))
      else if k == "LONG" && v.LongV? then Some(DLong(v.l))
      else if k == "FLOAT" && v.FloatV? then Some(DFloat(v.f))
      else if k == "DOUBLE" && v.DoubleV? then Some(DDouble(v.d))
      else if k == "BOOLEAN" && v.BoolV? then Some(DBool(v.b))
      else if k == "STRING" && v.StrV? then Some(DStr(v.s))
      else None
    case ListOf(e) =>
      if !v.ListV? then None
      else
        (match AllSome(seq(|v.items|, i requires 0 <= i < |v.items| => Encode(e, v.items[i])))
         case Some(ds) => Some(DList(ds))
         case None => None)
    case ReadCodec(_, _) => None
  }

  /** Reads a value with codec `c`. */
  function Decode(c: CodecExpr, d: Data): Option<Value>
    decreases c
  {
    match c
    case Builtin(k) =>
      if k == "INT" && d.DInt? then Some(IntV(d.i))
      else if k == "LONG" && d.DLong? then Some(LongV(d.l))
      else if k == "FLOAT" && d.DFloat? then Some(FloatV(d.f))
      else if k == "DOUBLE" && d.DDouble? then Some(DoubleV(d.d))
      else if k == "BOOLEAN" && d.DBool? then Some(BoolV(d.b))
      else if k == "STRING" && d.DStr? then Some(StrV(d.s))
      else None
    case ListOf(e) =>
      if !d.DList? then None
      else
        (match AllSome(seq(|d.items|, i requires 0 <= i < |d.items| => Decode(e, d.items[i])))
         case Some(vs) => Some(ListV(vs))
         case None => None)
    case ReadCodec(_, _) => None
  }

  /** Reading back what a codec wrote gives the value that was written. */
  lemma {:induction false} RoundTrip(c: CodecExpr, v: Value)
    ensures Encode(c, v).Some? ==> Decode(c, Encode(c, v).value) == Some(v)
    decreases c
  {
    if c.ListOf? && Encode(c, v).Some? {
      var e := c.element;
      var encoded := seq(|v.items|, i requires 0 <= i < |v.items| => Encode(e, v.items[i]));
      var ds := AllSome(encoded).value;
      assert Encode(c, v).value == DList(ds);
      var decoded := seq(|ds|, i requires 0 <= i < |ds| => Decode(e, ds[i]));
      forall i | 0 <= i < |ds| ensures decoded[i] == Some(v.items[i]) {
        RoundTrip(e, v.items[i]);
      }
      assert AllSome(decoded).value == v.items;
    }
  }

  /** The value `v` has the declared type `t`. */
  predicate HasType(v: Value, t: TypeDesc)
    decreases t
  {
    match t
    case Int => v.IntV?
    case Long => v.LongV?
    case Float => v.FloatV?
    case Double => v.DoubleV?
    case Boolean => v.BoolV?
    case String => v.StrV?
    case List(e) => v.ListV? && forall i | 0 <= i < |v.items| :: HasType(v.items[i], e)
    case _ => false
  }

  /** The type is built from primitives and lists only. */
  predicate ClassFree(t: TypeDesc) {
    match t
    case List(e) => ClassFree(e)
    case ClassRef(_) => false
    case TypeParameter(_) => false
    case _ => true
  }

  /** For primitive and list types, the resolved codec writes exactly the values of
      the type. */
  lemma {:induction false} EncodeExactlyTyped(classes: map<ClassId, ClassInfo>, t: TypeDesc, v: Value)
    requires ClassFree(t)
    ensures Resolve(classes, t).Success?
    ensures Encode(Resolve(classes, t).value, v).Some? <==> HasType(v, t)
    decreases t
  {
    if t.List? {
      var e := t.element;
      EncodeExactlyTyped(classes, e, ListV([]));
      var c := Resolve(classes, e).value;
      assert Resolve(classes, t).value == ListOf(c);
      if v.ListV? {
        var encoded := seq(|v.items|, i requires 0 <= i < |v.items| => Encode(c, v.items[i]));
        forall i | 0 <= i < |v.items| ensures encoded[i].Some? <==> HasType(v.items[i], e) {
          EncodeExactlyTyped(classes, e, v.items[i]);
        }
        assert Encode(ListOf(c), v).Some? <==> AllSome(encoded).Some?;
      }
    }
  }

  /** The map written for a record: one entry per field key, later keys overriding
      earlier equal ones as a map builder does. */
  function Entries(keys: seq<string>, ds: seq<Data>): (m: map<string, Data>)
    requires |keys| == |ds|
    ensures forall k :: k in m <==> k in keys
  {
    if |keys| == 0 then map[]
    else Entries(keys[..|keys| - 1], ds[..|ds| - 1])[keys[|keys| - 1] := ds[|ds| - 1]]
  }

  /** With distinct keys, each key holds the entry written for it. */
  lemma {:induction false} EntriesLookup(keys: seq<string>, ds: seq<Data>, i: int)
    requires |keys| == |ds| && 0 <= i < |keys|
    requires forall a, b | 0 <= a < b < |keys| :: keys[a] != keys[b]
    ensures keys[i] in Entries(keys, ds) && Entries(keys, ds)[keys[i]] == ds[i]
    decreases |keys|
  {
    var n := |keys| - 1;
    var ks, vs := keys[..n], ds[..n];
    assert Entries(keys, ds) == Entries(ks, vs)[keys[n] := ds[n]];
    if i < n {
      assert keys[i] != keys[n];
      assert ks[i] == keys[i] && vs[i] == ds[i];
      assert forall a, b | 0 <= a < b < |ks| :: ks[a] != ks[b] by {
        forall a, b | 0 <= a < b < |ks| ensures ks[a] != ks[b] {
          assert ks[a] == keys[a] && ks[b] == keys[b];
        }
      }
      EntriesLookup(ks, vs, i);
    }
  }

  /** The key each getter writes under. */
  function Keys(getters: seq<Getter>): (r: seq<string>)
    ensures |r| == |getters| && forall i | 0 <= i < |getters| :: r[i] == getters[i].field.key
  {
    seq(|getters|, i requires 0 <= i < |getters| => getters[i].field.key)
  }

  /** One getter writes its argument: `fieldOf` only. */
  function EncodeField(g: Getter, v: Value): Option<Data> {
    match g.field
    case FieldOf(c, _) => Encode(c, v)
    case OptionalFieldOf(_, _, _) => None
  }

  /** One getter reads its argument from the record's map. */
  function DecodeField(g: Getter, entries: map<string, Data>): Option<Value> {
    match g.field
    case FieldOf(c, key) => if key in entries then Decode(c, entries[key]) else None
    case OptionalFieldOf(_, _, _) => None
  }

  /** Each argument written by its getter. */
  function EncodeFields(getters: seq<Getter>, args: seq<Value>): (r: seq<Option<Data>>)
    requires |getters| == |args|
    ensures |r| == |args| && forall i | 0 <= i < |args| :: r[i] == EncodeField(getters[i], args[i])
  {
    seq(|args|, i requires 0 <= i < |args| => EncodeField(getters[i], args[i]))
  }

  /** Each argument read by its getter. */
  function DecodeFields(getters: seq<Getter>, entries: map<string, Data>): (r: seq<Option<Value>>)
    ensures |r| == |getters| && forall i | 0 <= i < |getters| :: r[i] == DecodeField(getters[i], entries)
  {
    seq(|getters|, i requires 0 <= i < |getters| => DecodeField(getters[i], entries))
  }

  /** Writes a record value with its initializer. */
  function EncodeRecord(init: Initializer, r: RecordValue): Option<Data> {
    if r.cls != init.record || |r.args| != |init.getters| then None
    else
      match AllSome(EncodeFields(init.getters, r.args))
      case Some(ds) => Some(DMap(Entries(Keys(init.getters), ds)))
      case None => None
  }

  /** Reads a record value with its initializer, then applies its constructor. */
  function DecodeRecord(init: Initializer, d: Data): Option<RecordValue> {
    if !d.DMap? then None
    else
      match AllSome(DecodeFields(init.getters, d.entries))
      case Some(args) => Some(RecordValue(init.constructorOf, args))
      case None => None
  }

  /** The fields written under distinct keys read back as the arguments written. */
  lemma FieldsReadBack(getters: seq<Getter>, args: seq<Value>, ds: seq<Data>)
    requires |getters| == |args|
    requires forall a, b | 0 <= a < b < |getters| :: getters[a].field.key != getters[b].field.key
    requires AllSome(EncodeFields(getters, args)) == Some(ds)
    ensures AllSome(DecodeFields(getters, Entries(Keys(getters), ds))) == Some(args)
  {
    var keys := Keys(getters);
    var decoded := DecodeFields(getters, Entries(keys, ds));
    forall i | 0 <= i < |args| ensures decoded[i] == Some(args[i]) {
      EntriesLookup(keys, ds, i);
      RoundTrip(getters[i].field.codec, args[i]);
    }
    assert AllSome(decoded).value == args;
  }

  /** A record written with an initializer whose keys are distinct and whose
      constructor builds the record's own class reads back as the same record. */
  lemma RecordRoundTrip(init: Initializer, r: RecordValue)
    requires init.constructorOf == init.record
    requires forall a, b | 0 <= a < b < |init.getters| :: init.getters[a].field.key != init.getters[b].field.key
    ensures EncodeRecord(init, r).Some? ==> DecodeRecord(init, EncodeRecord(init, r).value) == Some(r)
  {
    if EncodeRecord(init, r).Some? {
      FieldsReadBack(init.getters, r.args, AllSome(EncodeFields(init.getters, r.args)).value);
    }
  }

  /** Every initializer the assembler builds for a class whose constructor parameters
      have distinct names reads back every record it writes. */
  lemma GeneratedRoundTrip(classes: map<ClassId, ClassInfo>, lib: Library, id: ClassId, r: RecordValue)
    requires id in classes && Initialize(classes, lib, id).Success?
    requires forall a, b | 0 <= a < b < |classes[id].primaryConstructor.value| ::
      classes[id].primaryConstructor.value[a].name != classes[id].primaryConstructor.value[b].name
    ensures
      var init := Initialize(classes, lib, id).value;
      EncodeRecord(init, r).Some? ==> DecodeRecord(init, EncodeRecord(init, r).value) == Some(r)
  {
    var init := Initialize(classes, lib, id).value;
    var params := classes[id].primaryConstructor.value;
    assert forall i | 0 <= i < |params| :: init.getters[i].field.key == params[i].name;
    RecordRoundTrip(init, r);
  }
}
