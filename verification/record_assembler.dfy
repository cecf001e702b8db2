/** The record assembler (`initializeCodecField`): builds the `CODEC` initializer of one
    record from its primary constructor. */
module RecordAssembler {
  import opened Wrappers
  import opened IrModel
  import opened TypeResolver

  /** A parameter can become a field getter: its type resolves and the class has a
      property of the same name. */
  ghost predicate Buildable(classes: map<ClassId, ClassInfo>, props: seq<Property>, p: Param) {
    Resolve(classes, p.typ).Success? && FirstNamed(props, p.name).Some?
  }

  /** The getter built for parameter `p` of `record`: keyed by the parameter name
      verbatim, on the codec of its type, optional with the parameter's default exactly
      when it has one, bound to the property of the same name. */
  ghost predicate GetterFor(classes: map<ClassId, ClassInfo>, record: ClassId, p: Param, g: Getter) {
    && Resolve(classes, p.typ).Success?
    && g.record == record
    && g.property == p.name
    && g.field.key == p.name
    && g.field.codec == Resolve(classes, p.typ).value
    && (match p.default
        case None => g.field.FieldOf?
        case Some(d) => g.field.OptionalFieldOf? && g.field.default == d)
  }

  /** One element of the `group` arguments: resolve the codec, wrap it in `fieldOf` or
      `optionalFieldOf`, then in `forGetter` with the property of the same name. */
  function FieldGetter(classes: map<ClassId, ClassInfo>, record: ClassId, props: seq<Property>, p: Param)
    : (r: Result<Getter, Error>)
    ensures r.Success? <==> Buildable(classes, props, p)
    ensures r.Success? ==> GetterFor(classes, record, p, r.value)
    ensures r.Failure? ==>
      r.error == (if Resolve(classes, p.typ).Failure? then Resolve(classes, p.typ).error
                  else NoSuchProperty(record, p.name))
  {
    var codec :- Resolve(classes, p.typ);
    var field := match p.default
      case Some(d) => OptionalFieldOf(codec, p.name, d)
      case None => FieldOf(codec, p.name);
    if FirstNamed(props, p.name).None? then Failure(NoSuchProperty(record, p.name))
    else Success(ForGetter(field, record, p.name))
  }

  /** All `group` arguments, one per parameter, in constructor order; the first
      parameter that cannot be built aborts with its error. */
  function FieldGetters(classes: map<ClassId, ClassInfo>, record: ClassId, props: seq<Property>, params: seq<Param>)
    : (r: Result<seq<Getter>, Error>)
    ensures r.Success? <==> forall i | 0 <= i < |params| :: Buildable(classes, props, params[i])
    ensures r.Success? ==> |r.value| == |params|
    ensures r.Success? ==>
      forall i | 0 <= i < |params| :: GetterFor(classes, record, params[i], r.value[i])
    ensures r.Failure? ==> exists i | 0 <= i < |params| ::
      && !Buildable(classes, props, params[i])
      && (forall j | 0 <= j < i :: Buildable(classes, props, params[j]))
      && r.error == FieldGetter(classes, record, props, params[i]).error
  {
    if |params| == 0 then Success([])
    else
      var g :- FieldGetter(classes, record, props, params[0]);
      var gs :- FieldGetters(classes, record, props, params[1..]);
      Success([g] + gs)
  }

  /** Everything `initializeCodecField` needs to succeed for class `id`. */
  ghost predicate CanInitialize(classes: map<ClassId, ClassInfo>, lib: Library, id: ClassId)
    requires id in classes
  {
    var info := classes[id];
    && info.primaryConstructor.Some?
    && |info.primaryConstructor.value| in lib.productArities
    && |info.primaryConstructor.value| in lib.groupArities
    && forall i | 0 <= i < |info.primaryConstructor.value| ::
         Buildable(classes, info.properties, info.primaryConstructor.value[i])
  }

  /** The shape of the initializer of `id`: `create` typed at the record, a product and
      `group` overload of arity n (the constructor's parameter count), one getter per
      parameter in constructor order, type arguments equal to the parameter types, and
      `apply` bound to the record's own constructor. */
  ghost predicate InitializerFor(classes: map<ClassId, ClassInfo>, id: ClassId, init: Initializer)
    requires id in classes && classes[id].primaryConstructor.Some?
  {
    var params := classes[id].primaryConstructor.value;
    && init.record == id
    && init.constructorOf == id
    && init.arity == |params|
    && |init.typeArgs| == |params|
    && |init.getters| == |params|
    && forall i | 0 <= i < |params| ::
         init.typeArgs[i] == params[i].typ && GetterFor(classes, id, params[i], init.getters[i])
  }

  /** `initializeCodecField` for class `id`. */
  function Initialize(classes: map<ClassId, ClassInfo>, lib: Library, id: ClassId): (r: Result<Initializer, Error>)
    requires id in classes
    ensures r.Success? <==> CanInitialize(classes, lib, id)
    ensures r.Success? ==> InitializerFor(classes, id, r.value)
    ensures classes[id].primaryConstructor.None? ==> r == Failure(NoPrimaryConstructor(id))
    ensures classes[id].primaryConstructor.Some? ==>
      var n := |classes[id].primaryConstructor.value|;
      && (n !in lib.productArities ==> r == Failure(NoProductClass(n)))
      && (n in lib.productArities && n !in lib.groupArities ==> r == Failure(NoGroupOverload(n)))
    ensures classes[id].primaryConstructor.Some? && r.Failure? ==>
      var params := classes[id].primaryConstructor.value;
      |params| in lib.productArities && |params| in lib.groupArities ==>
        exists i | 0 <= i < |params| ::
          && !Buildable(classes, classes[id].properties, params[i])
          && (forall j | 0 <= j < i :: Buildable(classes, classes[id].properties, params[j]))
          && r.error == FieldGetter(classes, id, classes[id].properties, params[i]).error
  {
    var info := classes[id];
    if info.primaryConstructor.None? then Failure(NoPrimaryConstructor(id))
    else
      var params := info.primaryConstructor.value;
      var n := |params|;
      if n !in lib.productArities then Failure(NoProductClass(n))
      else if n !in lib.groupArities then Failure(NoGroupOverload(n))
      else
        var getters :- FieldGetters(classes, id, info.properties, params);
        Success(Create(id, n, seq(n, i requires 0 <= i < n => params[i].typ), getters, id))
  }
}
