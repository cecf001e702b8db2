# Codec derivation for `@Record` data classes

This project models a Kotlin compiler plugin. The plugin derives a Mojang
DataFixerUpper codec for every top-level data class annotated with
`@com.martmists.serialization.Record`, and proves properties of that model in Dafny.

The plugin has two halves.

- **Front end (`CodecFIRGenerator`).** It works under three different conditions:
  - A class with an annotation call whose simple name is `Record` announces a nested
    `Companion`. The companion is generated only when the class has no companion yet;
    a hand-written companion is kept and no second one is made.
  - A companion whose containing class carries the `Record` class id gets a private
    default constructor.
  - The same companion also gets a member property `CODEC: Codec<Outer>` when the
    `Codec` class resolves.
- **Back end (`CodecIRGenerator`).** It runs in two phases.
  - Phase 1 scans the top-level classes of every file in order. Each `@Record` class
    must be a data class. It gets a companion (its own, or a newly built empty
    `Companion`), and that companion must not already have a bare `CODEC` field. The
    phase then appends an initializer-less `CODEC` field to the companion.
  - Phase 2 initializes each such field, in discovery order, with
    `RecordCodecBuilder.create { it.group(<getters>).apply(it, ::Record) }`.
  - Each getter is `codec.fieldOf(name)`, or `codec.optionalFieldOf(name, default)`
    for a parameter with a default, wrapped in `forGetter(Record::name)`.
  - The codec of a parameter type is one of:
    - a built-in constant, for `Int`, `Long`, `Float`, `Double`, `Boolean` and `String`;
    - `Codec.list(...)` of the element codec, for `List<T>`;
    - otherwise, a read of the backing field of the class's `CODEC` property. That
      read goes through the companion object when the property lives in a companion.
  - Every error throws, so the first error aborts the whole run.

Modules:

- `Wrappers`: `Option` and `Result`. `Result` supports `:-`, which models a throw.
- `IrModel`: the class table, parameter types, codec expressions, initializers and errors.
- `TypeResolver`: `getCodec`.
- `RecordAssembler`: `initializeCodecField` for one record.
- `CodecIrGenerator`: `generate`, with both phases, `createCompanionObject` and
  `addEmptyCodecField`.
- `CodecFirGenerator`: the five front-end callbacks.
- `ToyCodec`: a small reading of the generated codec expressions as a writer and a
  reader over a tree of values. It is used to state the round trip that
  `SerializationRecord.kt` checks at run time.
- `Examples`: the two sample records, `TestData` and `CollectionData`.

The foreign codec library is a parameter, `Library`. It records which arities of
`Products.P<n>` and of `RecordCodecBuilder.Instance.group` exist. The other library
members (`Codec.INT` and so on, `Codec.list`, `fieldOf`, `optionalFieldOf`,
`forGetter`, `create`) are assumed present.

The code throws on the first error: `reportError` throws
(CodecIRGenerator.kt:405) and `getCodec` calls `error`. The model therefore ends the
run at the first `Failure`.

## Model

| member | source | states |
|---|---|---|
| IrModel.FirstNamed | codec-plugin/src/main/kotlin/com/martmists/serialization/CodecIRGenerator.kt:205-207 | The lookup finds nothing exactly when no property has the name. Otherwise it returns a property with that name, and no earlier property has that name. |
| TypeResolver.LookupCodec | codec-plugin/src/main/kotlin/com/martmists/serialization/CodecIRGenerator.kt:203-221 | A class-typed reference succeeds exactly when the holder has a `CODEC` property with a backing field. The holder is the companion if there is one, else the class. The read goes through the holder's object exactly when the holder is a companion object: the class's companion, or the class itself when it is a companion. Otherwise the read is static. It fails with "no CODEC property" or "no backing field", as the source's two `error` calls do. |
| TypeResolver.Resolve | codec-plugin/src/main/kotlin/com/martmists/serialization/CodecIRGenerator.kt:143-223 | A resolved codec reads back as exactly the declared type. Its `Codec.list` nesting depth equals the type's `List` nesting depth. |
| TypeResolver.PrimitiveTable | codec-plugin/src/main/kotlin/com/martmists/serialization/CodecIRGenerator.kt:151-193 | Each of the six primitives resolves to its own constant. A type resolves to a built-in constant if and only if it is one of those primitives and the constant is its own. |
| TypeResolver.BuiltinOnlyForPrimitives | codec-plugin/src/main/kotlin/com/martmists/serialization/CodecIRGenerator.kt:151-201 | A type resolves to a built-in constant if and only if it is one of the six primitives and the constant is its own. A list, a class reference or a type without a class never does. |
| TypeResolver.ResolveThroughLists | codec-plugin/src/main/kotlin/com/martmists/serialization/CodecIRGenerator.kt:195-201 | A `List` nesting succeeds exactly when its base type succeeds. It then gives that many `Codec.list` wrappers around the base codec; on failure it gives the base type's error. |
| TypeResolver.ResolveInjective | codec-plugin/src/main/kotlin/com/martmists/serialization/CodecIRGenerator.kt:151-221 | Two types with the same resolved codec are equal, so no two parameter types share a codec. |
| TypeResolver.ClasslessTypeFails | codec-plugin/src/main/kotlin/com/martmists/serialization/CodecIRGenerator.kt:204 | A type without a class fails with "type has no class", also under a `List`. |
| RecordAssembler.FieldGetter | codec-plugin/src/main/kotlin/com/martmists/serialization/CodecIRGenerator.kt:323-371 | One getter is built exactly when the parameter's type resolves and the class has a property of the same name. The getter is keyed by the parameter name on the resolved codec. It is optional, carrying the default, exactly when the parameter has a default, and it is bound to that property. The error is the resolver's, or else the missing property. |
| RecordAssembler.FieldGetters | codec-plugin/src/main/kotlin/com/martmists/serialization/CodecIRGenerator.kt:319-373 | Getters are built for all parameters, in constructor order, exactly when each one can be built. Otherwise the error is that of the first parameter that cannot be built. |
| RecordAssembler.Initialize | codec-plugin/src/main/kotlin/com/martmists/serialization/CodecIRGenerator.kt:225-401 | Success holds exactly when there is a primary constructor, `P<n>` and `group` of arity n exist, and every parameter yields a getter. The result is then `create` at the record with arity n, the parameter types as type arguments, one getter per parameter and `apply` of the record's own constructor. Specific errors cover a missing constructor, product class or `group` overload. When those all exist, the error is that of the first parameter that cannot be built: the resolver's error, or else the missing property. |
| CodecIrGenerator.TopLevelClasses | codec-plugin/src/main/kotlin/com/martmists/serialization/CodecIRGenerator.kt:70-71 | The scan meets exactly the classes declared at top level in some file. |
| CodecIrGenerator.TopLevelClassesAppend | codec-plugin/src/main/kotlin/com/martmists/serialization/CodecIRGenerator.kt:70-71 | The scan goes file by file in order: two runs of files give the classes of the first, then those of the second, and one file gives its classes in declaration order. |
| CodecIrGenerator.RecordsAppend | codec-plugin/src/main/kotlin/com/martmists/serialization/CodecIRGenerator.kt:71-72 | The records are picked in scan order: two runs give the records of the first, then those of the second, and one class gives itself exactly when it carries `@Record`. |
| CodecIrGenerator.DeclareClass | codec-plugin/src/main/kotlin/com/martmists/serialization/CodecIRGenerator.kt:72-92 | One phase-1 step covers four cases: a non-record is skipped; a non-data record throws "not a data class"; a record whose companion already has a `CODEC` field throws, including one declared earlier in the scan; and any other record is declared. |
| CodecIrGenerator.DeclareAll | codec-plugin/src/main/kotlin/com/martmists/serialization/CodecIRGenerator.kt:70-94 | A successful scan only extends the records declared before it. |
| CodecIrGenerator.DeclarationPhase | codec-plugin/src/main/kotlin/com/martmists/serialization/CodecIRGenerator.kt:70-94 | Phase 1 succeeds if and only if no position of the scan is rejected. It then declares exactly the records of the scan, in scan order. |
| CodecIrGenerator.PhaseOneFailure | codec-plugin/src/main/kotlin/com/martmists/serialization/CodecIRGenerator.kt:74-89 | A failed phase 1 stops at the first rejected position, with that record's error. |
| CodecIrGenerator.DeclaredInTable | codec-plugin/src/main/kotlin/com/martmists/serialization/CodecIRGenerator.kt:72-92 | Only scanned classes are declared, and only records that are data classes and have no `CODEC` field of their own. |
| CodecIrGenerator.TopLevelInTable | codec-plugin/src/main/kotlin/com/martmists/serialization/CodecIRGenerator.kt:70-71 | Every class the scan meets is described by the class table. |
| CodecIrGenerator.FirstUninitializable | codec-plugin/src/main/kotlin/com/martmists/serialization/CodecIRGenerator.kt:96-98 | Gives the position of the first record in discovery order that cannot be initialized. Every earlier record can be. |
| CodecIrGenerator.InitializeAll | codec-plugin/src/main/kotlin/com/martmists/serialization/CodecIRGenerator.kt:96-98 | Phase 2 succeeds exactly when every record in the order initializes. It then maps every record, and only those, to its own initializer. |
| CodecIrGenerator.PhaseTwoError | codec-plugin/src/main/kotlin/com/martmists/serialization/CodecIRGenerator.kt:96-98 | A failed phase 2 fails with the error of the first record that cannot be initialized. |
| CodecIrGenerator.InitializeAllByMembership | codec-plugin/src/main/kotlin/com/martmists/serialization/CodecIRGenerator.kt:96-98 | Phase 2 succeeds if and only if every record in the order satisfies the conditions for initialization. Each record's entry is its own initializer. |
| CodecIrGenerator.Generate | codec-plugin/src/main/kotlin/com/martmists/serialization/CodecIRGenerator.kt:66-99 | A run keeps the set of classes. It produces an initializer for exactly the records it discovered. |
| CodecIrGenerator.GenerateSteps | codec-plugin/src/main/kotlin/com/martmists/serialization/CodecIRGenerator.kt:66-99 | A run either ends with phase 1's error, or phase 1 declares the scan's records and phase 2 over them, against the declared table, decides the outcome. |
| CodecIrGenerator.GenerateSucceeds | codec-plugin/src/main/kotlin/com/martmists/serialization/CodecIRGenerator.kt:66-99 | A run succeeds if and only if phase 1 rejects nothing and every discovered record initializes against the table phase 1 left behind. |
| CodecIrGenerator.GenerateResult | codec-plugin/src/main/kotlin/com/martmists/serialization/CodecIRGenerator.kt:66-99 | A successful run orders the records as the scan met them, leaves the declared table, and gives each record its own initializer. Every record was a data class without a `CODEC` field. |
| CodecIrGenerator.GenerateSpec | codec-plugin/src/main/kotlin/com/martmists/serialization/CodecIRGenerator.kt:66-99 | A run succeeds if and only if phase 1 rejects nothing and every discovered record initializes against the table phase 1 left behind. Then the order is the records in scan order, the final table is the declared one, and each initializer is that record's own. Every record was a data class without a `CODEC` field. |
| CodecIrGenerator.RejectedRunError | codec-plugin/src/main/kotlin/com/martmists/serialization/CodecIRGenerator.kt:70-94 | A run in which phase 1 rejects some position fails, with the error of the first rejected position. |
| CodecIrGenerator.UninitializableRunError | codec-plugin/src/main/kotlin/com/martmists/serialization/CodecIRGenerator.kt:96-98 | A run in which phase 1 rejects nothing and that still fails does so with the error of the first record that cannot be initialized. |
| CodecIrGenerator.GenerateErrors | codec-plugin/src/main/kotlin/com/martmists/serialization/CodecIRGenerator.kt:66-98 | A failed run either fails with the error of the first rejected scan position, or, when nothing was rejected, with the error of the first record that cannot be initialized. |
| CodecIrGenerator.CodecSlotShape | codec-plugin/src/main/kotlin/com/martmists/serialization/CodecIRGenerator.kt:101-141 | Declaring a slot changes only the companion. The existing companion keeps its name and properties, or a new empty `Companion` is created. The companion gains exactly one `CODEC` field. |
| CodecIrGenerator.DeclaredCompanions | codec-plugin/src/main/kotlin/com/martmists/serialization/CodecIRGenerator.kt:82-92 | After a successful run, every record has one companion holding exactly one `CODEC` field, and nothing else about it changed. Every other class is unchanged. |
| CodecIrGenerator.ReferenceAfterDeclaration | codec-plugin/src/main/kotlin/com/martmists/serialization/CodecIRGenerator.kt:205-208 | Phase 1 adds fields, not properties, so a reference to a class resolves as before. The exception is a record whose companion phase 1 created: the lookup then searches that empty companion and fails with "no CODEC property". |
| CodecIrGenerator.DeclarationOrderIrrelevant | codec-plugin/src/main/kotlin/com/martmists/serialization/CodecIRGenerator.kt:91-92 | The table after phase 1 depends only on which records were declared, not on their order. |
| CodecFirGenerator.CallableNamesForClass | codec-plugin/src/main/kotlin/com/martmists/serialization/CodecFIRGenerator.kt:37-47 | A class announces `{CODEC, <init>}` if and only if it is a companion whose containing class carries the `Record` class id. Otherwise it announces nothing. |
| CodecFirGenerator.NestedClassifierNames | codec-plugin/src/main/kotlin/com/martmists/serialization/CodecFIRGenerator.kt:50-61 | A class announces `{Companion}` if and only if it has an annotation call whose callee's simple name is `Record`. Otherwise it announces nothing, and a class without annotations never announces anything. |
| CodecFirGenerator.GenerateNestedClass | codec-plugin/src/main/kotlin/com/martmists/serialization/CodecFIRGenerator.kt:63-76 | A companion is generated if and only if the owner has a `Record`-named annotation call, the name is `Companion` and there is no existing companion. The result is that owner's `Companion`. |
| CodecFirGenerator.GenerateConstructors | codec-plugin/src/main/kotlin/com/martmists/serialization/CodecFIRGenerator.kt:78-88 | Exactly one private default constructor is generated if and only if the owner is a companion of a `Record`-annotated class. Otherwise none is generated. |
| CodecFirGenerator.GenerateProperties | codec-plugin/src/main/kotlin/com/martmists/serialization/CodecFIRGenerator.kt:90-116 | At most one property is generated. It is generated if and only if there is a context, the name is `CODEC`, the owner is a companion of a `Record`-annotated class and `Codec` resolves. It is `CODEC` on that companion, typed by the containing class. |
| CodecFirGenerator.PropertyIffAnnounced | codec-plugin/src/main/kotlin/com/martmists/serialization/CodecFIRGenerator.kt:90-116 | The `CODEC` property is generated only under a name the owner announced. When `Codec` resolves, it is generated for every owner that announced it. |
| CodecFirGenerator.ConstructorIffAnnounced | codec-plugin/src/main/kotlin/com/martmists/serialization/CodecFIRGenerator.kt:78-88 | A constructor is generated if and only if the owner announced `<init>`. |
| CodecFirGenerator.CompanionOnlyWhenAnnounced | codec-plugin/src/main/kotlin/com/martmists/serialization/CodecFIRGenerator.kt:63-76 | A companion is generated only under a name that was announced. |
| CodecFirGenerator.NoSecondCompanion | codec-plugin/src/main/kotlin/com/martmists/serialization/CodecFIRGenerator.kt:71-72 | An owner that already declares a companion never gets a second one. |
| CodecFirGenerator.SimpleNameIsNotClassId | codec-plugin/src/main/kotlin/com/martmists/serialization/CodecFIRGenerator.kt:56-68 | An annotation spelled `Record` from another package makes the class announce and get a companion. That companion gets no constructor and no `CODEC` property, because those rules match the class id. |
| ToyCodec.RoundTrip | codec-plugin/src/main/kotlin/com/martmists/serialization/CodecIRGenerator.kt:151-201 | Reading back what a built-in or list codec wrote gives the written value. |
| ToyCodec.EncodeExactlyTyped | codec-plugin/src/main/kotlin/com/martmists/serialization/CodecIRGenerator.kt:151-201 | For primitive and list types, resolution succeeds. The resolved codec writes a value if and only if the value has the declared type. |
| ToyCodec.RecordRoundTrip | codec-plugin/src/main/kotlin/com/martmists/serialization/CodecIRGenerator.kt:317-391 | A record written with distinct `fieldOf` keys, by an initializer that applies the record's own constructor, reads back as the same record. |
| ToyCodec.GeneratedRoundTrip | codec-plugin/src/main/kotlin/com/martmists/serialization/CodecIRGenerator.kt:285-397 | Take a record whose constructor parameters have distinct names. Every initializer the generator builds for it reads back every record value it writes. |
| Examples.TestDataAssembles | src/main/kotlin/com/martmists/serialization/TestRecord.kt:3-7 | `TestData(x: Int, y: String)` gets `create` of arity 2 with `fieldOf` getters for `x` on `Codec.INT` and `y` on `Codec.STRING`. |
| Examples.CollectionDataAssembles | src/main/kotlin/com/martmists/serialization/TestRecord.kt:9-12 | `CollectionData(items: List<TestData>)` reads `TestData`'s codec through its companion object, inside `Codec.list`. |
| Examples.SampleDeclares | src/main/kotlin/com/martmists/serialization/TestRecord.kt:3-12 | Phase 1 over the sample file declares both records, in order. |
| Examples.SampleGenerates | src/main/kotlin/com/martmists/serialization/TestRecord.kt:3-12 | With the front end's companions, the whole run succeeds with both expected initializers. |
| Examples.SampleRoundTrip | src/main/kotlin/com/martmists/serialization/SerializationRecord.kt:8-11 | `TestData(1, "2")` writes as the map `{x: 1, y: "2"}` and reads back as itself. |
| Examples.SampleWithoutFrontEnd | src/main/kotlin/com/martmists/serialization/TestRecord.kt:9-12 | Without front-end companions, `CollectionData` cannot read `TestData`'s codec, and the run fails with "no CODEC property". |
| Examples.PlainClassRejected | codec-plugin/src/main/kotlin/com/martmists/serialization/CodecIRGenerator.kt:74-80 | A `@Record` class that is not a data class aborts the run with "not a data class". |
| Examples.ExistingFieldRejected | codec-plugin/src/main/kotlin/com/martmists/serialization/CodecIRGenerator.kt:84-89 | A companion that already has a `CODEC` field aborts the run. |
| Examples.CompanionTypedParameter | codec-plugin/src/main/kotlin/com/martmists/serialization/CodecIRGenerator.kt:205-220 | A parameter typed as a companion object reads that object's own `CODEC` property through the object itself. A plain class with the same declarations is read statically. |
| Examples.DefaultBecomesOptional | codec-plugin/src/main/kotlin/com/martmists/serialization/CodecIRGenerator.kt:326-335 | A parameter with a default becomes `optionalFieldOf` carrying that default. |

## Left out

- Nullable types, star projections and collection classes other than `List` are not
  modelled. Type equality with the built-in primitives is taken to be exact.
- The lookups in the foreign library (`Codec`, `MapCodec`, `RecordCodecBuilder`,
  `RecordCodecBuilder.Instance`, `KProperty1`, `Codec.list`, `fieldOf`,
  `optionalFieldOf`, `forGetter`, `create`, `apply`) are assumed to succeed. Only the
  `Products.P<n>` class and the `group` overload of arity n can be missing.
- The generated IR is reduced to its shape: source offsets, parent links,
  `IrFunctionExpression` and lambda plumbing, the property-reference and
  function-reference types, and the companion's constructor body are not modelled.
- `group` is matched in the source by `ctor.parameters.size`, and `P<n>` by
  `ctor.nonDispatchParameters.size`. The two agree for the top-level classes that
  phase 1 scans, and the model uses one count n.
- Default-value expressions are carried through as opaque text.
- The `CODEC` field phase 1 adds is recorded by name only. Its declared type `Any`
  (CodecIRGenerator.kt:137) and its offsets are not recorded. That it has no
  initializer until phase 2 is implicit: phase 2's initializers are a separate map.
- A class's companion is described inline in the class's entry. A companion that a
  parameter type names directly is a separate entry of the table, with `isCompanion`
  set. The model does not keep the two descriptions of the same companion in step.
- The front end and the back end are modelled separately. The back end takes the
  class table as given. `Examples` uses a table in which each record's companion
  already holds a `CODEC` property with a backing field, as the front end generates
  it.
- The front end's `createCompanionObject`, `createDefaultPrivateConstructor` and
  `createMemberProperty` are compiler helpers. Their results are represented by the
  data they are given.
- A property `Record::name` found by `klass.properties.first` is treated as a
  throw when missing, like the other errors.
- ToyCodec.RecordRoundTrip: covers required (`fieldOf`) fields with built-in and list
  codecs only. `optionalFieldOf` and reads of another record's `CODEC` have no meaning
  in the toy reading, so a record using them is not covered.
- ToyCodec.GeneratedRoundTrip: inherits the same restriction.
- The DataFixerUpper codec semantics beyond that toy reading, `NbtOps`, and the
  Gradle and registrar glue are not modelled.
- The annotation declarations (`Record`, `MapCodec`, `RecordCodec`, `LazyCodec`,
  `CodecLocation`) are not part of this model. Only the `Record` class id is used.
