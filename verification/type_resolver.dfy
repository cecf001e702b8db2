/** The type resolver (`getCodec`): maps the declared type of a constructor parameter
    to an expression that denotes its codec. */
module TypeResolver {
  import opened Wrappers
  import opened IrModel

  /** The fixed table of built-in codecs, keyed by exact type: `Codec.INT`, `Codec.LONG`,
      `Codec.FLOAT`, `Codec.DOUBLE`, `Codec.BOOLEAN` and `Codec.STRING`. */
  function PrimitiveConstant(t: TypeDesc): Option<string> {
    match t
    case Int => Some("INT")
    case Long => Some("LONG")
    case Float => Some("FLOAT")
    case Double => Some("DOUBLE")
    case Boolean => Some("BOOLEAN")
    case String => Some("STRING")
    case _ => None
  }

  /** Reads a codec expression back as the declared type it codes for. This is an
      independent reading of the table above, used to state that resolution loses
      nothing. */
  function CodedType(c: CodecExpr): Option<TypeDesc> {
    match c
    case Builtin(k) =>
      if k == "INT" then Some(Int)
      else if k == "LONG" then Some(Long)
      else if k == "FLOAT" then Some(Float)
      else if k == "DOUBLE" then Some(Double)
      else if k == "BOOLEAN" then Some(Boolean)
      else if k == "STRING" then Some(String)
      else None
    case ListOf(e) =>
      (match CodedType(e)
       case Some(t) => Some(List(t))
       case None => None)
    case ReadCodec(_, owner) => Some(ClassRef(owner))
  }

  /** How many `List` constructors wrap the type. */
  function ListDepth(t: TypeDesc): nat {
    if t.List? then 1 + ListDepth(t.element) else 0
  }

  /** How many `Codec.list` calls wrap the codec. */
  function CodecListDepth(c: CodecExpr): nat {
    if c.ListOf? then 1 + CodecListDepth(c.element) else 0
  }

  /** The type under all `List` wrappers. */
  function BaseType(t: TypeDesc): TypeDesc {
    if t.List? then BaseType(t.element) else t
  }

  /** `n` nested `Codec.list` calls around `c`. */
  function WrapLists(n: nat, c: CodecExpr): CodecExpr {
    if n == 0 then c else ListOf(WrapLists(n - 1, c))
  }

  /** Where the `CODEC` property is searched: the companion when there is one,
      otherwise the class itself. */
  function HolderProperties(info: ClassInfo): seq<Property> {
    if info.companion.Some? then info.companion.value.properties else info.properties
  }

  /** The object whose declarations hold the `CODEC` property, when that holder is a
      companion object: the class's companion, or the class itself when it has no
      companion and is a companion object. */
  function HolderObject(info: ClassInfo, id: ClassId): Receiver {
    if info.companion.Some? then CompanionObject(id)
    else if info.isCompanion then ObjectItself(id)
    else Static
  }

  /** The fallback branch: read the backing field of the `CODEC` property of the class.
      The holder is the companion when there is one, otherwise the class itself; the
      read goes through the holder's object exactly when the holder is a companion
      object, and is static otherwise. A class the table does not describe has no
      visible declarations. */
  function LookupCodec(classes: map<ClassId, ClassInfo>, id: ClassId): (r: Result<CodecExpr, Error>)
    ensures r.Success? <==>
      id in classes
      && FirstNamed(HolderProperties(classes[id]), CodecName).Some?
      && FirstNamed(HolderProperties(classes[id]), CodecName).value.hasBackingField
    ensures r.Success? ==> r.value.ReadCodec? && r.value.owner == id
    ensures r.Success? ==>
      && (r.value.receiver == CompanionObject(id) <==> classes[id].companion.Some?)
      && (r.value.receiver == ObjectItself(id) <==> classes[id].companion.None? && classes[id].isCompanion)
      && (r.value.receiver == Static <==> classes[id].companion.None? && !classes[id].isCompanion)
    ensures r.Failure? ==>
      r.error == (if id in classes && FirstNamed(HolderProperties(classes[id]), CodecName).Some?
                  then NoCodecBackingField(id) else NoCodecProperty(id))
  {
    if id !in classes then Failure(NoCodecProperty(id))
    else
      var info := classes[id];
      match FirstNamed(HolderProperties(info), CodecName)
      case None => Failure(NoCodecProperty(id))
      case Some(p) =>
        if !p.hasBackingField then Failure(NoCodecBackingField(id))
        else Success(ReadCodec(HolderObject(info, id), id))
  }

  /** `getCodec`: primitives first, by the fixed table; then `List<T>` by recursion on
      `T`; anything else by the `CODEC` lookup, which fails for a class-less type. */
  function Resolve(classes: map<ClassId, ClassInfo>, t: TypeDesc): (r: Result<CodecExpr, Error>)
    ensures r.Success? ==> CodedType(r.value) == Some(t)
    ensures r.Success? ==> CodecListDepth(r.value) == ListDepth(t)
  {
    match t
    case Int | Long | Float | Double | Boolean | String => Success(Builtin(PrimitiveConstant(t).value))
    case List(e) =>
      var c :- Resolve(classes, e);
      Success(ListOf(c))
    case ClassRef(id) => LookupCodec(classes, id)
    case TypeParameter(_) => Failure(TypeHasNoClass(t))
  }

  /** Only the six primitives resolve to a built-in constant, each to its own. */
  lemma BuiltinOnlyForPrimitives(classes: map<ClassId, ClassInfo>, t: TypeDesc, k: string)
    ensures Resolve(classes, t) == Success(Builtin(k)) <==> PrimitiveConstant(t) == Some(k)
  {
    match t
    case List(e) =>
      assert Resolve(classes, t).Success? ==> Resolve(classes, t).value.ListOf?;
    case ClassRef(id) =>
      assert Resolve(classes, t) == LookupCodec(classes, id);
    case TypeParameter(_) =>
    case _ =>
      assert Resolve(classes, t) == Success(Builtin(PrimitiveConstant(t).value));
  }

  /** The six primitives resolve to their own constants, and nothing else resolves to
      a built-in constant. */
  lemma PrimitiveTable(classes: map<ClassId, ClassInfo>, t: TypeDesc, k: string)
    ensures Resolve(classes, t) == Success(Builtin(k)) <==> PrimitiveConstant(t) == Some(k)
    ensures Resolve(classes, Int) == Success(Builtin("INT"))
    ensures Resolve(classes, Long) == Success(Builtin("LONG"))
    ensures Resolve(classes, Float) == Success(Builtin("FLOAT"))
    ensures Resolve(classes, Double) == Success(Builtin("DOUBLE"))
    ensures Resolve(classes, Boolean) == Success(Builtin("BOOLEAN"))
    ensures Resolve(classes, String) == Success(Builtin("STRING"))
  {
    BuiltinOnlyForPrimitives(classes, t, k);
  }

  /** Resolution depends on the base type only: a `List` nesting of depth `n` resolves
      to `n` nested `Codec.list` calls around the base type's codec, and fails exactly
      when, and with the error with which, the base type fails. */
  lemma {:induction false} ResolveThroughLists(classes: map<ClassId, ClassInfo>, t: TypeDesc)
    ensures Resolve(classes, t).Success? <==> Resolve(classes, BaseType(t)).Success?
    ensures Resolve(classes, t).Success? ==>
      Resolve(classes, t).value == WrapLists(ListDepth(t), Resolve(classes, BaseType(t)).value)
    ensures Resolve(classes, t).Failure? ==>
      Resolve(classes, t).error == Resolve(classes, BaseType(t)).error
  {
    if t.List? {
      ResolveThroughLists(classes, t.element);
    }
  }

  /** Two types that resolve to the same codec are the same type. */
  lemma ResolveInjective(classes: map<ClassId, ClassInfo>, t1: TypeDesc, t2: TypeDesc)
    requires Resolve(classes, t1).Success? && Resolve(classes, t2).Success?
    requires Resolve(classes, t1).value == Resolve(classes, t2).value
    ensures t1 == t2
  {
    assert CodedType(Resolve(classes, t1).value) == Some(t1);
  }

  /** A type without a class is an error, whatever the class table. */
  lemma ClasslessTypeFails(classes: map<ClassId, ClassInfo>, name: string)
    ensures Resolve(classes, TypeParameter(name)) == Failure(TypeHasNoClass(TypeParameter(name)))
    ensures Resolve(classes, List(TypeParameter(name))) == Failure(TypeHasNoClass(TypeParameter(name)))
  {
  }
}
