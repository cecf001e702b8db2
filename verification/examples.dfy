/** The two records of the sample module, `TestData(x: Int, y: String)` and
    `CollectionData(items: List<TestData>)`, run through the model. The class table is
    the one the back end receives after the front end gave each record a companion
    holding a `CODEC` property. */
module Examples {
  import opened Wrappers
  import opened IrModel
  import opened TypeResolver
  import opened RecordAssembler
  import opened CodecIrGenerator
  import opened ToyCodec

  const Pkg := "com.martmists.serialization"
  const TestDataId := ClassId(Pkg, "TestData")
  const CollectionDataId := ClassId(Pkg, "CollectionData")

  /** The companion the front end generates: a `CODEC` property with a backing field,
      and no bare field yet. */
  const FrontEndCompanion := Companion(CompanionName, [Property(CodecName, true)], [])

  const TestDataParams := [Param("x", Int, None), Param("y", String, None)]
  const CollectionDataParams := [Param("items", List(ClassRef(TestDataId)), None)]

  function TestDataInfo(companion: Option<Companion>): ClassInfo {
    ClassInfo(false, true, [RecordAnnotation], companion, Some(TestDataParams), [Property("x", true), Property("y", true)])
  }

  function CollectionDataInfo(companion: Option<Companion>): ClassInfo {
    ClassInfo(false, true, [RecordAnnotation], companion, Some(CollectionDataParams), [Property("items", true)])
  }

  /** One file declaring both records, each with the companion `companion`. */
  function SampleModule(companion: Option<Companion>): ModuleFragment {
    ModuleFragment(
      [[TestDataId, CollectionDataId]],
      map[TestDataId := TestDataInfo(companion), CollectionDataId := CollectionDataInfo(companion)])
  }

  /** The codec library's products and `group` overloads, arities 1 to 16. */
  const SampleLibrary := Library(set n: nat | 1 <= n <= 16, set n: nat | 1 <= n <= 16)

  /** The initializer expected for `TestData`. */
  const TestDataInit := Create(
    TestDataId, 2, [Int, String],
    [ ForGetter(FieldOf(Builtin("INT"), "x"), TestDataId, "x"),
      ForGetter(FieldOf(Builtin("STRING"), "y"), TestDataId, "y") ],
    TestDataId)

  /** The initializer expected for `CollectionData`: its list field reads the codec of
      `TestData` through that class's companion object. */
  const CollectionDataInit := Create(
    CollectionDataId, 1, [List(ClassRef(TestDataId))],
    [ ForGetter(FieldOf(ListOf(ReadCodec(CompanionObject(TestDataId), TestDataId)), "items"), CollectionDataId, "items") ],
    CollectionDataId)

  /** `TestData` assembles its expected initializer in any table that describes it as
      declared. */
  lemma TestDataAssembles(classes: map<ClassId, ClassInfo>)
    requires TestDataId in classes
    requires classes[TestDataId].primaryConstructor == Some(TestDataParams)
    requires classes[TestDataId].properties == [Property("x", true), Property("y", true)]
    ensures Initialize(classes, SampleLibrary, TestDataId) == Success(TestDataInit)
  {
    var props := classes[TestDataId].properties;
    var x := ForGetter(FieldOf(Builtin("INT"), "x"), TestDataId, "x");
    var y := ForGetter(FieldOf(Builtin("STRING"), "y"), TestDataId, "y");
    assert FirstNamed(props, "x") == Some(Property("x", true));
    assert FirstNamed(props, "y") == Some(Property("y", true));
    assert Resolve(classes, String) == Success(Builtin("STRING"));
    assert FieldGetter(classes, TestDataId, props, TestDataParams[0]) == Success(x);
    assert FieldGetter(classes, TestDataId, props, TestDataParams[1]) == Success(y);
    assert FieldGetters(classes, TestDataId, props, TestDataParams) == Success([x, y]) by {
      var rest := TestDataParams[1..];
      assert rest == [TestDataParams[1]] && rest[1..] == [];
      assert FieldGetters(classes, TestDataId, props, rest[1..]) == Success([]);
      assert rest[0] == TestDataParams[1] && [y] + [] == [y];
      assert FieldGetters(classes, TestDataId, props, rest) == Success([y]);
      assert [x] + [y] == [x, y];
    }
    assert 2 in SampleLibrary.productArities && 2 in SampleLibrary.groupArities;
    assert seq(2, i requires 0 <= i < 2 => TestDataParams[i].typ) == [Int, String];
  }

  /** `CollectionData` reads the codec of `TestData` through its companion object as
      long as that companion holds the `CODEC` property. */
  lemma CollectionDataAssembles(classes: map<ClassId, ClassInfo>)
    requires TestDataId in classes && CollectionDataId in classes
    requires classes[TestDataId].companion.Some?
    requires classes[TestDataId].companion.value.properties == [Property(CodecName, true)]
    requires classes[CollectionDataId].primaryConstructor == Some(CollectionDataParams)
    requires classes[CollectionDataId].properties == [Property("items", true)]
    ensures Initialize(classes, SampleLibrary, CollectionDataId) == Success(CollectionDataInit)
  {
    assert 1 in SampleLibrary.productArities && 1 in SampleLibrary.groupArities;
    assert FirstNamed(HolderProperties(classes[TestDataId]), CodecName) == Some(Property(CodecName, true));
    assert LookupCodec(classes, TestDataId) == Success(ReadCodec(CompanionObject(TestDataId), TestDataId));
    assert Resolve(classes, List(ClassRef(TestDataId))) ==
      Success(ListOf(ReadCodec(CompanionObject(TestDataId), TestDataId)));
    var props := classes[CollectionDataId].properties;
    assert FirstNamed(props, "items") == Some(Property("items", true));
    var init := Initialize(classes, SampleLibrary, CollectionDataId).value;
    assert init.getters == CollectionDataInit.getters by {
      assert GetterFor(classes, CollectionDataId, CollectionDataParams[0], init.getters[0]);
    }
    assert init.typeArgs == [List(ClassRef(TestDataId))];
  }

  /** Two distinct records that are data classes without a `CODEC` field are both
      declared, in order. */
  lemma TwoRecordsDeclared(classes: map<ClassId, ClassInfo>, a: ClassId, b: ClassId)
    requires a != b && a in classes && b in classes
    requires IsRecord(classes[a]) && classes[a].isData && !HasCodecField(classes[a])
    requires IsRecord(classes[b]) && classes[b].isData && !HasCodecField(classes[b])
    ensures DeclareAll(classes, [], [a, b]) == Success([a, b])
  {
    assert [] + [a] == [a] && [a] + [b] == [a, b];
    assert DeclareClass(classes, [], a) == Success([a]);
    assert DeclareClass(classes, [a], b) == Success([a, b]);
    assert [a, b][1..] == [b] && [b][1..] == [];
    assert DeclareAll(classes, [], [a, b]) == DeclareAll(classes, [a], [b]);
  }

  /** In the sample module, phase 1 declares both records, in declaration order, as
      long as their companions have no bare `CODEC` field. */
  lemma SampleDeclares(companion: Option<Companion>)
    requires companion.Some? ==> CodecName !in companion.value.fields
    ensures
      var m := SampleModule(companion);
      && WellFormed(m)
      && TopLevelClasses(m.files) == [TestDataId, CollectionDataId]
      && DeclareAll(m.classes, [], [TestDataId, CollectionDataId]) == Success([TestDataId, CollectionDataId])
  {
    var m := SampleModule(companion);
    var ids := [TestDataId, CollectionDataId];
    assert TopLevelClasses(m.files) == ids by {
      assert m.files[1..] == [];
    }
    assert TestDataId != CollectionDataId;
    assert m.classes[TestDataId] == TestDataInfo(companion);
    assert m.classes[CollectionDataId] == CollectionDataInfo(companion);
    TwoRecordsDeclared(m.classes, TestDataId, CollectionDataId);
  }

  /** Two successful steps in order collect both results. */
  lemma InOrderPair<K, V, E>(f: K --> Result<V, E>, a: K, b: K)
    requires a != b && f.requires(a) && f.requires(b) && f(a).Success? && f(b).Success?
    ensures InOrder(f, [a, b]) == Success(map[a := f(a).value, b := f(b).value])
  {
    assert [a, b][1..] == [b] && [b][1..] == [];
    assert map[b := f(b).value][a := f(a).value] == map[a := f(a).value, b := f(b).value];
  }

  /** Phase 2 over two distinct records that both initialize maps each to its own
      initializer. */
  lemma TwoRecordsInitialized(classes: map<ClassId, ClassInfo>, lib: Library, a: ClassId, b: ClassId, ia: Initializer, ib: Initializer)
    requires a != b && a in classes && b in classes
    requires Initialize(classes, lib, a) == Success(ia) && Initialize(classes, lib, b) == Success(ib)
    ensures InitializeAll(classes, lib, [a, b]) == Success(map[a := ia, b := ib])
  {
    InOrderPair(id requires id in classes => Initialize(classes, lib, id), a, b);
  }

  /** With front-end companions, both records get their expected initializers, in
      declaration order. */
  lemma SampleGenerates()
    ensures WellFormed(SampleModule(Some(FrontEndCompanion)))
    ensures
      var g := Generate(SampleModule(Some(FrontEndCompanion)), SampleLibrary);
      && g.Success?
      && g.value.order == [TestDataId, CollectionDataId]
      && g.value.initializers == map[TestDataId := TestDataInit, CollectionDataId := CollectionDataInit]
  {
    var m := SampleModule(Some(FrontEndCompanion));
    var ids := [TestDataId, CollectionDataId];
    SampleDeclares(Some(FrontEndCompanion));
    var declared := AfterDeclaration(m.classes, ids);
    TestDataAssembles(declared);
    CollectionDataAssembles(declared);
    var inits := map[TestDataId := TestDataInit, CollectionDataId := CollectionDataInit];
    TwoRecordsInitialized(declared, SampleLibrary, TestDataId, CollectionDataId, TestDataInit, CollectionDataInit);
    assert Generate(m, SampleLibrary) == Success(Generated(declared, ids, inits));
  }

  /** `TestData(1, "2")` survives a write and a read with its generated initializer. */
  lemma SampleRoundTrip()
    ensures
      var item := RecordValue(TestDataId, [IntV(1), StrV("2")]);
      && EncodeRecord(TestDataInit, item) == Some(DMap(map["x" := DInt(1), "y" := DStr("2")]))
      && DecodeRecord(TestDataInit, EncodeRecord(TestDataInit, item).value) == Some(item)
  {
    var item := RecordValue(TestDataId, [IntV(1), StrV("2")]);
    var encoded := EncodeFields(TestDataInit.getters, item.args);
    assert encoded == [Some(DInt(1)), Some(DStr("2"))];
    var ds := [DInt(1), DStr("2")];
    assert AllSome(encoded).Some?;
    assert AllSome(encoded).value == ds;
    var keys := Keys(TestDataInit.getters);
    assert keys == ["x", "y"];
    assert keys[..1] == ["x"] && ds[..1] == [DInt(1)];
    assert keys[..1][..0] == [] && ds[..1][..0] == [];
    assert Entries(keys, ds) == map["x" := DInt(1), "y" := DStr("2")];
    RecordRoundTrip(TestDataInit, item);
  }

  /** `CollectionData` cannot be initialized once `TestData` has no `CODEC` property
      to read. */
  lemma CollectionDataUnresolved(classes: map<ClassId, ClassInfo>)
    requires CollectionDataId in classes
    requires Resolve(classes, ClassRef(TestDataId)) == Failure(NoCodecProperty(TestDataId))
    requires classes[CollectionDataId].primaryConstructor == Some(CollectionDataParams)
    ensures Initialize(classes, SampleLibrary, CollectionDataId) == Failure(NoCodecProperty(TestDataId))
  {
    assert 1 in SampleLibrary.productArities && 1 in SampleLibrary.groupArities;
    assert Resolve(classes, List(ClassRef(TestDataId))) == Failure(NoCodecProperty(TestDataId));
    var props := classes[CollectionDataId].properties;
    assert FieldGetters(classes, CollectionDataId, props, CollectionDataParams) == Failure(NoCodecProperty(TestDataId)) by {
      assert FieldGetter(classes, CollectionDataId, props, CollectionDataParams[0]) == Failure(NoCodecProperty(TestDataId));
    }
  }

  /** A successful first step followed by a failing second one fails with the
      second step's error. */
  lemma InOrderSecondFails<K, V, E>(f: K --> Result<V, E>, a: K, b: K)
    requires f.requires(a) && f.requires(b) && f(a).Success? && f(b).Failure?
    ensures InOrder(f, [a, b]) == Failure(f(b).error)
  {
    assert [a, b][1..] == [b] && [b][1..] == [];
  }

  /** Phase 2 over the sample records stops at `CollectionData` once `TestData` has
      been initialized and `CollectionData` cannot be. */
  lemma SecondRecordFails(classes: map<ClassId, ClassInfo>)
    requires TestDataId in classes && CollectionDataId in classes
    requires classes[TestDataId].primaryConstructor == Some(TestDataParams)
    requires classes[TestDataId].properties == [Property("x", true), Property("y", true)]
    requires classes[CollectionDataId].primaryConstructor == Some(CollectionDataParams)
    requires Resolve(classes, ClassRef(TestDataId)) == Failure(NoCodecProperty(TestDataId))
    ensures InitializeAll(classes, SampleLibrary, [TestDataId, CollectionDataId]) == Failure(NoCodecProperty(TestDataId))
  {
    TestDataAssembles(classes);
    CollectionDataUnresolved(classes);
    InOrderSecondFails(id requires id in classes => Initialize(classes, SampleLibrary, id), TestDataId, CollectionDataId);
  }

  /** Without front-end companions, phase 1 creates an empty companion for `TestData`,
      and the reference from `CollectionData` finds no `CODEC` property there. */
  lemma SampleWithoutFrontEnd()
    ensures WellFormed(SampleModule(None))
    ensures Generate(SampleModule(None), SampleLibrary) == Failure(NoCodecProperty(TestDataId))
  {
    var m := SampleModule(None);
    var ids := [TestDataId, CollectionDataId];
    SampleDeclares(None);
    var declared := AfterDeclaration(m.classes, ids);
    ReferenceAfterDeclaration(m.classes, ids, TestDataId);
    SecondRecordFails(declared);
    assert Generate(m, SampleLibrary) == Failure(NoCodecProperty(TestDataId));
  }

  /** A `@Record` class that is not a data class stops the run in phase 1. */
  lemma PlainClassRejected()
    ensures
      var m := SampleModule(Some(FrontEndCompanion));
      var m' := m.(classes := m.classes[TestDataId := TestDataInfo(Some(FrontEndCompanion)).(isData := false)]);
      WellFormed(m') && Generate(m', SampleLibrary) == Failure(NotDataClass(TestDataId))
  {
    var m := SampleModule(Some(FrontEndCompanion));
    var m' := m.(classes := m.classes[TestDataId := TestDataInfo(Some(FrontEndCompanion)).(isData := false)]);
    var ids := [TestDataId, CollectionDataId];
    assert TopLevelClasses(m'.files) == ids by {
      assert m'.files[1..] == [];
    }
    assert DeclareClass(m'.classes, [], TestDataId) == Failure(NotDataClass(TestDataId));
    assert DeclareAll(m'.classes, [], ids) == Failure(NotDataClass(TestDataId));
  }

  /** A companion that already declares a bare `CODEC` field stops the run in phase 1. */
  lemma ExistingFieldRejected()
    ensures
      var c := FrontEndCompanion.(fields := [CodecName]);
      var m := SampleModule(Some(c));
      WellFormed(m) && Generate(m, SampleLibrary) == Failure(CodecFieldExists(TestDataId))
  {
    var c := FrontEndCompanion.(fields := [CodecName]);
    var m := SampleModule(Some(c));
    var ids := [TestDataId, CollectionDataId];
    assert TopLevelClasses(m.files) == ids by {
      assert m.files[1..] == [];
    }
    assert DeclareClass(m.classes, [], TestDataId) == Failure(CodecFieldExists(TestDataId));
    assert DeclareAll(m.classes, [], ids) == Failure(CodecFieldExists(TestDataId));
  }

  /** A parameter typed as a companion object, `Holder.Companion`, reads the `CODEC`
      property that object declares through the object itself; a plain class with
      the same declarations is read statically. */
  lemma CompanionTypedParameter()
    ensures
      var id := ClassId(Pkg, "Holder.Companion");
      var info := ClassInfo(true, false, [], None, None, [Property(CodecName, true)]);
      && Resolve(map[id := info], ClassRef(id)) == Success(ReadCodec(ObjectItself(id), id))
      && Resolve(map[id := info.(isCompanion := false)], ClassRef(id)) == Success(ReadCodec(Static, id))
  {
    var id := ClassId(Pkg, "Holder.Companion");
    var info := ClassInfo(true, false, [], None, None, [Property(CodecName, true)]);
    assert FirstNamed(info.properties, CodecName) == Some(Property(CodecName, true));
  }

  /** A parameter with a default becomes an `optionalFieldOf` carrying that default. */
  lemma DefaultBecomesOptional()
    ensures
      var info := TestDataInfo(Some(FrontEndCompanion)).(primaryConstructor := Some([Param("x", Int, Some("0"))]));
      var classes := map[TestDataId := info];
      Initialize(classes, SampleLibrary, TestDataId) ==
        Success(Create(TestDataId, 1, [Int], [ForGetter(OptionalFieldOf(Builtin("INT"), "x", "0"), TestDataId, "x")], TestDataId))
  {
    var info := TestDataInfo(Some(FrontEndCompanion)).(primaryConstructor := Some([Param("x", Int, Some("0"))]));
    var classes := map[TestDataId := info];
    assert 1 in SampleLibrary.productArities && 1 in SampleLibrary.groupArities;
    PrimitiveTable(classes, Int, "INT");
    assert FirstNamed(info.properties, "x") == Some(Property("x", true));
    var init := Initialize(classes, SampleLibrary, TestDataId).value;
    assert GetterFor(classes, TestDataId, Param("x", Int, Some("0")), init.getters[0]);
    assert init.getters == [ForGetter(OptionalFieldOf(Builtin("INT"), "x", "0"), TestDataId, "x")];
    assert init.typeArgs == [Int];
  }
}
