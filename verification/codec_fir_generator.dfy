/** The front-end rules (`CodecFIRGenerator`): which synthetic names a class announces,
    and when a companion, its constructor and its `CODEC` property are generated. */
module CodecFirGenerator {
  import opened Wrappers
  import opened IrModel

  /** The special name of constructors. */
  const InitName := "<init>"

  /** How an annotation names its class: by a simple, not yet resolved name; by some
      other reference; or the annotation is not an annotation call at all. */
  datatype Callee = NotACall | SimpleName(name: string) | OtherReference

  /** An annotation: the class it resolves to, when it is resolved, and its callee. */
  datatype Annotation = Annotation(classId: Option<ClassId>, callee: Callee)

  /** A class symbol as the front end sees it. `declaresCompanion` says whether the
      class already declares a companion object. */
  datatype FirClass = FirClass(
    id: ClassId,
    isCompanion: bool,
    annotations: seq<Annotation>,
    containingClass: Option<ClassId>,
    declaresCompanion: bool)

  /** What symbol lookups can see: the class symbols by identity (a type alias or an
      unknown identity yields no class symbol), and whether
      `com.mojang.serialization.Codec` resolves. */
  datatype Session = Session(classes: map<ClassId, FirClass>, codecResolvable: bool)

  /** A generated companion object nested in `owner`. */
  datatype GeneratedCompanion = GeneratedCompanion(owner: ClassId, name: string)

  /** A generated default private constructor of the class `owner`. */
  datatype GeneratedConstructor = DefaultPrivateConstructor(owner: ClassId)

  /** A generated member property of `owner`, of type `Codec<codecOf>`. */
  datatype GeneratedProperty = GeneratedProperty(owner: ClassId, name: string, codecOf: ClassId)

  /** The containing class of `c`, looked up as a class symbol. */
  function Outer(session: Session, c: FirClass): Option<FirClass> {
    if c.containingClass.Some? && c.containingClass.value in session.classes
    then Some(session.classes[c.containingClass.value])
    else None
  }

  /** The class carries an annotation resolved to the `Record` class id. */
  predicate HasRecordClassId(c: FirClass) {
    exists i | 0 <= i < |c.annotations| :: c.annotations[i].classId == Some(RecordAnnotation)
  }

  /** The class carries an annotation call whose callee's simple name is `Record`,
      whatever package that name resolves to. */
  predicate HasRecordNamedCall(c: FirClass) {
    exists i | 0 <= i < |c.annotations| :: c.annotations[i].callee == SimpleName("Record")
  }

  /** The condition all member rules share: a companion whose containing class
      carries the `Record` class id. */
  ghost predicate IsRecordCompanion(session: Session, c: FirClass) {
    c.isCompanion && Outer(session, c).Some? && HasRecordClassId(Outer(session, c).value)
  }

  /** `getCallableNamesForClass`. */
  function CallableNamesForClass(session: Session, c: FirClass): (r: set<string>)
    ensures r == {CodecName, InitName} <==> IsRecordCompanion(session, c)
    ensures r == {} <==> !IsRecordCompanion(session, c)
  {
    var outer := Outer(session, c);
    if c.isCompanion && outer.Some? && HasRecordClassId(outer.value) then {CodecName, InitName}
    else {}
  }

  /** `getNestedClassifiersNames`. */
  function NestedClassifierNames(c: FirClass): (r: set<string>)
    ensures |c.annotations| == 0 ==> r == {}
    ensures r == {CompanionName} <==> HasRecordNamedCall(c)
    ensures r == {} <==> !HasRecordNamedCall(c)
  {
    if |c.annotations| == 0 then {}
    else if HasRecordNamedCall(c) then {CompanionName}
    else {}
  }

  /** `generateNestedClassLikeDeclaration`. */
  function GenerateNestedClass(owner: FirClass, name: string): (r: Option<GeneratedCompanion>)
    ensures r.Some? <==> HasRecordNamedCall(owner) && name == CompanionName && !owner.declaresCompanion
    ensures r.Some? ==> r.value == GeneratedCompanion(owner.id, CompanionName)
  {
    if !HasRecordNamedCall(owner) then None
    else if name != CompanionName then None
    else if owner.declaresCompanion then None
    else Some(GeneratedCompanion(owner.id, name))
  }

  /** `generateConstructors`. */
  function GenerateConstructors(session: Session, owner: FirClass): (r: seq<GeneratedConstructor>)
    ensures r == [DefaultPrivateConstructor(owner.id)] <==> IsRecordCompanion(session, owner)
    ensures r == [] <==> !IsRecordCompanion(session, owner)
  {
    var outer := Outer(session, owner);
    if !owner.isCompanion || outer.None? || !HasRecordClassId(outer.value) then []
    else [DefaultPrivateConstructor(owner.id)]
  }

  /** `generateProperties`; `context` is `None` when there is no generation context. */
  function GenerateProperties(session: Session, callableName: string, context: Option<FirClass>)
    : (r: seq<GeneratedProperty>)
    ensures |r| <= 1
    ensures r != [] <==>
      && context.Some?
      && callableName == CodecName
      && IsRecordCompanion(session, context.value)
      && session.codecResolvable
    ensures r != [] ==>
      r[0] == GeneratedProperty(context.value.id, CodecName, Outer(session, context.value).value.id)
  {
    if context.None? then []
    else if callableName != CodecName then []
    else
      var owner := context.value;
      match Outer(session, owner)
      case None => []
      case Some(outer) =>
        if !owner.isCompanion || !HasRecordClassId(outer) then []
        else if !session.codecResolvable then []
        else [GeneratedProperty(owner.id, CodecName, outer.id)]
  }

  /** A `CODEC` property is generated only for an owner that announced `CODEC`, and
      is generated for every such owner when the `Codec` class resolves. */
  lemma PropertyIffAnnounced(session: Session, callableName: string, owner: FirClass)
    ensures GenerateProperties(session, callableName, Some(owner)) != [] ==>
      callableName in CallableNamesForClass(session, owner)
    ensures callableName == CodecName && CodecName in CallableNamesForClass(session, owner) && session.codecResolvable ==>
      GenerateProperties(session, callableName, Some(owner)) != []
  {
  }

  /** A constructor is generated exactly for the owners that announced `<init>`. */
  lemma ConstructorIffAnnounced(session: Session, owner: FirClass)
    ensures GenerateConstructors(session, owner) != [] <==> InitName in CallableNamesForClass(session, owner)
  {
  }

  /** A companion is generated only under a name the owner announced. */
  lemma CompanionOnlyWhenAnnounced(owner: FirClass, name: string)
    ensures GenerateNestedClass(owner, name).Some? ==> name in NestedClassifierNames(owner)
  {
  }

  /** Once the owner declares a companion, no further companion is generated. */
  lemma NoSecondCompanion(owner: FirClass, name: string)
    ensures GenerateNestedClass(owner.(declaresCompanion := true), name) == None
  {
  }

  /** The companion rules match the callee's simple name, the member rules match the
      resolved class id: an annotation spelled `Record` from another package gets its
      class a companion but no constructor and no `CODEC` property. */
  lemma SimpleNameIsNotClassId()
    ensures
      var other := Annotation(Some(ClassId("org.example", "Record")), SimpleName("Record"));
      var outerId := ClassId("org.example", "Data");
      var outer := FirClass(outerId, false, [other], None, false);
      var companion := FirClass(ClassId("org.example", "Data.Companion"), true, [], Some(outerId), false);
      var session := Session(map[outerId := outer], true);
      && NestedClassifierNames(outer) == {CompanionName}
      && GenerateNestedClass(outer, CompanionName).Some?
      && CallableNamesForClass(session, companion) == {}
      && GenerateConstructors(session, companion) == []
      && GenerateProperties(session, CodecName, Some(companion)) == []
  {
    var other := Annotation(Some(ClassId("org.example", "Record")), SimpleName("Record"));
    var outerId := ClassId("org.example", "Data");
    var outer := FirClass(outerId, false, [other], None, false);
    assert outer.annotations[0].callee == SimpleName("Record");
    assert !HasRecordClassId(outer) by {
      assert ClassId("org.example", "Record") != RecordAnnotation;
    }
  }
}
