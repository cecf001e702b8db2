/** Immutable stand-ins for the parts of the Kotlin IR that the codec generator reads
    and writes: a table of classes, the declared types of constructor parameters,
    and the expression tree the generator builds as the `CODEC` initializer. */
module IrModel {
  import opened Wrappers

  /** A class identity: package and simple name. */
  datatype ClassId = ClassId(packageName: string, simpleName: string)

  /** The annotation that marks a data class for codec derivation. */
  const RecordAnnotation := ClassId("com.martmists.serialization", "Record")

  /** Name of the generated slot, of the property the resolver looks up, and of the
      field whose pre-existence is a conflict. */
  const CodecName := "CODEC"

  /** Name given to a companion object the generator has to create. */
  const CompanionName := "Companion"

  /** The declared type of a constructor parameter. The six built-in primitives are
      matched by exact type equality; `List` is `kotlin.collections.List<T>`; any
      other classifier is a `ClassRef`; a type without a class (a type parameter) is
      `TypeParameter`. */
  datatype TypeDesc =
    | Int | Long | Float | Double | Boolean | String
    | List(element: TypeDesc)
    | ClassRef(id: ClassId)
    | TypeParameter(name: string)

  /** A default-value expression, carried through to `optionalFieldOf` untouched. */
  type Expr = string

  /** A primary-constructor parameter. */
  datatype Param = Param(name: string, typ: TypeDesc, default: Option<Expr>)

  /** A property declaration (`IrProperty`), possibly with a backing field. */
  datatype Property = Property(name: string, hasBackingField: bool)

  /** A companion object: its property declarations and its bare field declarations
      (`IrField`), which are distinct kinds of member. */
  datatype Companion = Companion(name: string, properties: seq<Property>, fields: seq<string>)

  /** One class of the module. `isCompanion` marks a class that is itself a companion
      object (one a parameter type can name as `Outer.Companion`). `primaryConstructor`
      holds the constructor's value parameters in declaration order, or `None` when
      there is no primary constructor. */
  datatype ClassInfo = ClassInfo(
    isCompanion: bool,
    isData: bool,
    annotations: seq<ClassId>,
    companion: Option<Companion>,
    primaryConstructor: Option<seq<Param>>,
    properties: seq<Property>)

  /** The module fragment handed to the generator: the top-level classes of each file,
      in declaration order, and a table describing every class. */
  datatype ModuleFragment = ModuleFragment(files: seq<seq<ClassId>>, classes: map<ClassId, ClassInfo>)

  /** Every top-level class the files name is described by the table. */
  ghost predicate WellFormed(m: ModuleFragment) {
    forall i, id | 0 <= i < |m.files| && id in m.files[i] :: id in m.classes
  }

  /** The receiver of a read of another codec: none (a static read), the companion
      object of the named class, or the named class itself when it is a companion
      object. */
  datatype Receiver = Static | CompanionObject(owner: ClassId) | ObjectItself(obj: ClassId)

  /** A codec reference: a built-in constant `Codec.<constant>`, `Codec.list(element)`,
      or a read of the backing field of the `CODEC` property of class `owner` (in its
      companion when it has one, otherwise in the class itself), through `receiver`. */
  datatype CodecExpr =
    | Builtin(constant: string)
    | ListOf(element: CodecExpr)
    | ReadCodec(receiver: Receiver, owner: ClassId)

  /** `codec.fieldOf(key)` or `codec.optionalFieldOf(key, default)`. */
  datatype FieldCodec =
    | FieldOf(codec: CodecExpr, key: string)
    | OptionalFieldOf(codec: CodecExpr, key: string, default: Expr)

  /** `field.forGetter(Record::property)`. */
  datatype Getter = ForGetter(field: FieldCodec, record: ClassId, property: string)

  /** `RecordCodecBuilder.create<record> { it -> it.group<typeArgs>(getters).apply(it, ::constructorOf) }`,
      where the product `Products.P<arity>` and the `group` overload of that arity are used. */
  datatype Initializer = Create(
    record: ClassId,
    arity: nat,
    typeArgs: seq<TypeDesc>,
    getters: seq<Getter>,
    constructorOf: ClassId)

  /** The foreign codec library, reduced to which arities of `Products.P<n>` and of
      `RecordCodecBuilder.Instance.group` it provides. */
  datatype Library = Library(productArities: set<nat>, groupArities: set<nat>)

  /** Every condition under which the generator throws, aborting the whole run. */
  datatype Error =
    | NotDataClass(cls: ClassId)
    | CodecFieldExists(cls: ClassId)
    | NoPrimaryConstructor(cls: ClassId)
    | TypeHasNoClass(typ: TypeDesc)
    | NoCodecProperty(cls: ClassId)
    | NoCodecBackingField(cls: ClassId)
    | NoProductClass(arity: nat)
    | NoGroupOverload(arity: nat)
    | NoSuchProperty(cls: ClassId, name: string)

  predicate IsRecord(info: ClassInfo) {
    RecordAnnotation in info.annotations
  }

  /** The first property called `name`, as `firstOrNull { it.name == name }` finds it. */
  function FirstNamed(props: seq<Property>, name: string): (r: Option<Property>)
    ensures r.None? <==> forall i | 0 <= i < |props| :: props[i].name != name
    ensures r.Some? ==> r.value.name == name
    ensures r.Some? ==> exists i | 0 <= i < |props| ::
      props[i] == r.value && (forall j | 0 <= j < i :: props[j].name != name)
  {
    if |props| == 0 then None
    else if props[0].name == name then Some(props[0])
    else FirstNamed(props[1..], name)
  }
}
