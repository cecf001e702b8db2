/** The two-phase driver (`generate`): phase 1 gives every `@Record` top-level class a
    companion and an initializer-less `CODEC` field; only then does phase 2 initialize
    every such field, in phase-1 discovery order. Any error aborts the whole run. */
module CodecIrGenerator {
  import opened Wrappers
  import opened IrModel
  import opened TypeResolver
  import opened RecordAssembler

  /** The top-level classes of all files, file by file, in declaration order. */
  function TopLevelClasses(files: seq<seq<ClassId>>): (r: seq<ClassId>)
    ensures forall id :: id in r <==> exists i | 0 <= i < |files| :: id in files[i]
  {
    if |files| == 0 then []
    else
      var rest := TopLevelClasses(files[1..]);
      assert forall i | 1 <= i < |files| :: files[1..][i - 1] == files[i];
      assert forall id | id in files[0] + rest :: id in files[0] || id in rest;
      files[0] + rest
  }

  /** The companion a record ends up with: its own, or a new empty `Companion`. */
  function CompanionOrNew(info: ClassInfo): Companion {
    if info.companion.Some? then info.companion.value else Companion(CompanionName, [], [])
  }

  /** A class whose companion already has a bare field named `CODEC`. */
  predicate HasCodecField(info: ClassInfo) {
    info.companion.Some? && CodecName in info.companion.value.fields
  }

  /** A class after phase 1 declared its slot: its companion (created if absent) has
      one more field, `CODEC`, appended; nothing else about the class changes. */
  function WithCodecSlot(info: ClassInfo): ClassInfo {
    var c := CompanionOrNew(info);
    info.(companion := Some(c.(fields := c.fields + [CodecName])))
  }

  /** Class `id` as phase 1 has left it once the records in `declared` have had their
      slots declared. */
  function Declared(classes: map<ClassId, ClassInfo>, declared: seq<ClassId>, id: ClassId): ClassInfo
    requires id in classes
  {
    if id in declared then WithCodecSlot(classes[id]) else classes[id]
  }

  /** The class table once the records in `declared` have had their slots declared. */
  function AfterDeclaration(classes: map<ClassId, ClassInfo>, declared: seq<ClassId>): (r: map<ClassId, ClassInfo>)
    ensures r.Keys == classes.Keys
    ensures forall id | id in classes :: r[id] == Declared(classes, declared, id)
  {
    map id | id in classes :: Declared(classes, declared, id)
  }

  /** Phase 1 for one top-level class, given the records declared so far (the table
      as phase 1 has left it is `AfterDeclaration(classes, declared)`): a class
      without `@Record` is skipped; a record must be a data class, and its companion
      (found, or created empty) must not have a `CODEC` field yet; the record is then
      declared. */
  function DeclareClass(classes: map<ClassId, ClassInfo>, declared: seq<ClassId>, id: ClassId)
    : (r: Result<seq<ClassId>, Error>)
    requires id in classes
    ensures !IsRecord(classes[id]) ==> r == Success(declared)
    ensures IsRecord(classes[id]) && !classes[id].isData ==> r == Failure(NotDataClass(id))
    ensures IsRecord(classes[id]) && classes[id].isData && (HasCodecField(classes[id]) || id in declared) ==>
      r == Failure(CodecFieldExists(id))
    ensures IsRecord(classes[id]) && classes[id].isData && !HasCodecField(classes[id]) && id !in declared ==>
      r == Success(declared + [id])
  {
    var info := Declared(classes, declared, id);
    if !IsRecord(info) then Success(declared)
    else if !info.isData then Failure(NotDataClass(id))
    else if CodecName in CompanionOrNew(info).fields then Failure(CodecFieldExists(id))
    else Success(declared + [id])
  }

  /** Phase 1 over a sequence of top-level classes; the first error aborts. */
  function DeclareAll(classes: map<ClassId, ClassInfo>, declared: seq<ClassId>, ids: seq<ClassId>)
    : (r: Result<seq<ClassId>, Error>)
    requires forall i | 0 <= i < |ids| :: ids[i] in classes
    ensures r.Success? ==> |declared| <= |r.value| && r.value[..|declared|] == declared
    decreases |ids|
  {
    if |ids| == 0 then Success(declared)
    else
      var declared' :- DeclareClass(classes, declared, ids[0]);
      DeclareAll(classes, declared', ids[1..])
  }

  /** The position of the first record, in discovery order, that cannot be
      initialized, or `|order|` when there is none. */
  function FirstUninitializable(classes: map<ClassId, ClassInfo>, lib: Library, order: seq<ClassId>): (k: nat)
    requires forall i | 0 <= i < |order| :: order[i] in classes
    ensures k <= |order|
    ensures forall j | 0 <= j < k :: Initialize(classes, lib, order[j]).Success?
    ensures k < |order| ==> Initialize(classes, lib, order[k]).Failure?
  {
    if |order| == 0 then 0
    else if Initialize(classes, lib, order[0]).Failure? then 0
    else 1 + FirstUninitializable(classes, lib, order[1..])
  }

  /** Applies `f` to every key in order and collects the results by key; the first
      failure aborts. */
  function InOrder<K, V, E>(f: K --> Result<V, E>, keys: seq<K>): (r: Result<map<K, V>, E>)
    requires forall i | 0 <= i < |keys| :: f.requires(keys[i])
    ensures r.Success? <==> forall i | 0 <= i < |keys| :: f(keys[i]).Success?
    ensures r.Success? ==> forall i | 0 <= i < |keys| :: keys[i] in r.value && r.value[keys[i]] == f(keys[i]).value
    ensures r.Success? ==> forall k | k in r.value :: k in keys
    decreases |keys|
  {
    if |keys| == 0 then Success(map[])
    else
      var first :- f(keys[0]);
      var rest :- InOrder(f, keys[1..]);
      assert forall i | 1 <= i < |keys| :: keys[i] == keys[1..][i - 1];
      Success(rest[keys[0] := first])
  }

  /** Phase 2 over the discovered records, in order, each initialized against the
      table phase 1 left behind; the first error aborts. */
  function InitializeAll(classes: map<ClassId, ClassInfo>, lib: Library, order: seq<ClassId>)
    : (r: Result<map<ClassId, Initializer>, Error>)
    requires forall i | 0 <= i < |order| :: order[i] in classes
    ensures r.Success? <==> forall i | 0 <= i < |order| :: Initialize(classes, lib, order[i]).Success?
    ensures r.Success? ==> forall i | 0 <= i < |order| ::
      order[i] in r.value && r.value[order[i]] == Initialize(classes, lib, order[i]).value
    ensures r.Success? ==> forall id | id in r.value :: id in order
  {
    InOrder(id requires id in classes => Initialize(classes, lib, id), order)
  }

  /** Phase 2 fails with the error of the first record that cannot be initialized. */
  lemma {:induction false} PhaseTwoError(classes: map<ClassId, ClassInfo>, lib: Library, order: seq<ClassId>)
    requires forall i | 0 <= i < |order| :: order[i] in classes
    ensures InitializeAll(classes, lib, order).Failure? ==>
      var k := FirstUninitializable(classes, lib, order);
      k < |order| && InitializeAll(classes, lib, order).error == Initialize(classes, lib, order[k]).error
    decreases |order|
  {
    if |order| > 0 && Initialize(classes, lib, order[0]).Success? {
      PhaseTwoError(classes, lib, order[1..]);
    }
  }

  /** The outcome of a successful run: the final class table, the records in
      discovery order, and the initializer of each record's `CODEC` field. */
  datatype Generated = Generated(classes: map<ClassId, ClassInfo>, order: seq<ClassId>, initializers: map<ClassId, Initializer>)

  /** `generate`: phase 1 over every top-level class of every file, then phase 2 over
      the records phase 1 found, against the table phase 1 left behind. */
  function Generate(m: ModuleFragment, lib: Library): (r: Result<Generated, Error>)
    requires WellFormed(m)
    ensures r.Success? ==> r.value.classes.Keys == m.classes.Keys
    ensures r.Success? ==> forall id :: id in r.value.initializers <==> id in r.value.order
  {
    var ids := TopLevelClasses(m.files);
    TopLevelInTable(m);
    var order :- DeclareAll(m.classes, [], ids);
    DeclaredInTable(m.classes, [], ids);
    var declared := AfterDeclaration(m.classes, order);
    var initializers :- InitializeAll(declared, lib, order);
    Success(Generated(declared, order, initializers))
  }

  /** The records among `ids`, in order. */
  function Records(classes: map<ClassId, ClassInfo>, ids: seq<ClassId>): (r: seq<ClassId>)
    requires forall i | 0 <= i < |ids| :: ids[i] in classes
    ensures forall id | id in r :: id in classes && IsRecord(classes[id])
  {
    if |ids| == 0 then []
    else (if IsRecord(classes[ids[0]]) then [ids[0]] else []) + Records(classes, ids[1..])
  }

  /** The scan reads the files in order: scanning two runs of files one after the
      other meets the classes of the first run, then those of the second, and one file
      gives its own classes in declaration order. */
  lemma {:induction false} TopLevelClassesAppend(a: seq<seq<ClassId>>, b: seq<seq<ClassId>>)
    ensures TopLevelClasses(a + b) == TopLevelClasses(a) + TopLevelClasses(b)
    ensures |a| == 1 ==> TopLevelClasses(a) == a[0]
    decreases |a|
  {
    if |a| == 0 {
      assert a + b == b;
    } else {
      assert (a + b)[1..] == a[1..] + b;
      TopLevelClassesAppend(a[1..], b);
      if |a| == 1 {
        assert a[1..] == [];
      }
    }
  }

  /** The records are picked in scan order: filtering two runs of classes one after
      the other gives the records of the first, then those of the second, and one
      class gives itself exactly when it is a record. */
  lemma {:induction false} RecordsAppend(classes: map<ClassId, ClassInfo>, a: seq<ClassId>, b: seq<ClassId>)
    requires forall i | 0 <= i < |a| :: a[i] in classes
    requires forall i | 0 <= i < |b| :: b[i] in classes
    ensures forall i | 0 <= i < |a + b| :: (a + b)[i] in classes
    ensures Records(classes, a + b) == Records(classes, a) + Records(classes, b)
    ensures |a| == 1 ==> Records(classes, a) == if IsRecord(classes[a[0]]) then [a[0]] else []
    decreases |a|
  {
    assert forall i | 0 <= i < |a + b| :: (a + b)[i] in classes by {
      forall i | 0 <= i < |a + b| ensures (a + b)[i] in classes {
        if i < |a| { assert (a + b)[i] == a[i]; } else { assert (a + b)[i] == b[i - |a|]; }
      }
    }
    if |a| == 0 {
      assert a + b == b;
    } else {
      assert (a + b)[1..] == a[1..] + b;
      RecordsAppend(classes, a[1..], b);
      if |a| == 1 {
        assert a[1..] == [];
      }
    }
  }

  /** Phase 1 throws at position `i` of the scan: the class is a record and is not a
      data class, or its companion already has a `CODEC` field (because the source gave
      it one, or because the class was already declared earlier in the scan). */
  ghost predicate RejectedAt(classes: map<ClassId, ClassInfo>, seen: seq<ClassId>, ids: seq<ClassId>, i: int)
    requires 0 <= i < |ids| && ids[i] in classes
  {
    var info := classes[ids[i]];
    IsRecord(info) && (!info.isData || HasCodecField(info) || ids[i] in seen + ids[..i])
  }

  /** The error phase 1 throws for a rejected record. */
  function RejectionError(info: ClassInfo, id: ClassId): Error {
    if !info.isData then NotDataClass(id) else CodecFieldExists(id)
  }

  /** Moving the first class of the scan into the seen prefix does not change which
      later positions are rejected. */
  lemma RejectedShift(classes: map<ClassId, ClassInfo>, seen: seq<ClassId>, ids: seq<ClassId>, i: int)
    requires 1 <= i < |ids| && forall k | 0 <= k < |ids| :: ids[k] in classes
    ensures RejectedAt(classes, seen, ids, i) == RejectedAt(classes, seen + [ids[0]], ids[1..], i - 1)
  {
    assert seen + ids[..i] == (seen + [ids[0]]) + ids[1..][..i - 1];
  }

  /** A first class that is not a record can be dropped from the seen prefix. */
  lemma RejectedSkip(classes: map<ClassId, ClassInfo>, seen: seq<ClassId>, ids: seq<ClassId>, i: int)
    requires 1 <= i < |ids| && forall k | 0 <= k < |ids| :: ids[k] in classes
    requires !IsRecord(classes[ids[0]])
    ensures RejectedAt(classes, seen, ids, i) == RejectedAt(classes, seen, ids[1..], i - 1)
  {
    RejectedShift(classes, seen, ids, i);
  }

  /** The rejections after the first class of the scan, seen from the rest of the scan
      with the declarations the first class made. */
  lemma RejectedRest(classes: map<ClassId, ClassInfo>, seen: seq<ClassId>, ids: seq<ClassId>)
    requires 1 <= |ids| && forall k | 0 <= k < |ids| :: ids[k] in classes
    requires DeclareClass(classes, seen, ids[0]).Success?
    ensures forall i | 1 <= i < |ids| ::
      RejectedAt(classes, seen, ids, i) == RejectedAt(classes, DeclareClass(classes, seen, ids[0]).value, ids[1..], i - 1)
  {
    forall i | 1 <= i < |ids|
      ensures RejectedAt(classes, seen, ids, i) == RejectedAt(classes, DeclareClass(classes, seen, ids[0]).value, ids[1..], i - 1)
    {
      if IsRecord(classes[ids[0]]) {
        RejectedShift(classes, seen, ids, i);
      } else {
        RejectedSkip(classes, seen, ids, i);
      }
    }
  }

  /** Phase 1 succeeds exactly when no position of the scan is rejected; it then
      declares exactly the records of the scan, in scan order. */
  lemma {:induction false} DeclarationPhase(classes: map<ClassId, ClassInfo>, seen: seq<ClassId>, ids: seq<ClassId>)
    requires forall i | 0 <= i < |ids| :: ids[i] in classes
    ensures DeclareAll(classes, seen, ids).Success? <==> forall i | 0 <= i < |ids| :: !RejectedAt(classes, seen, ids, i)
    ensures DeclareAll(classes, seen, ids).Success? ==> DeclareAll(classes, seen, ids).value == seen + Records(classes, ids)
    decreases |ids|
  {
    if |ids| > 0 {
      var first := DeclareClass(classes, seen, ids[0]);
      if first.Failure? {
        assert RejectedAt(classes, seen, ids, 0);
      } else {
        var rest := ids[1..];
        assert !RejectedAt(classes, seen, ids, 0);
        assert DeclareAll(classes, seen, ids) == DeclareAll(classes, first.value, rest);
        DeclarationPhase(classes, first.value, rest);
        RejectedRest(classes, seen, ids);
        if DeclareAll(classes, seen, ids).Failure? {
          var i :| 0 <= i < |rest| && RejectedAt(classes, first.value, rest, i);
          assert RejectedAt(classes, seen, ids, i + 1);
        }
      }
    }
  }

  /** When phase 1 fails, it fails at the first rejected position of the scan, with
      that record's error. */
  lemma {:induction false} PhaseOneFailure(classes: map<ClassId, ClassInfo>, seen: seq<ClassId>, ids: seq<ClassId>)
    requires forall i | 0 <= i < |ids| :: ids[i] in classes
    ensures DeclareAll(classes, seen, ids).Failure? ==> exists k | 0 <= k < |ids| ::
      && RejectedAt(classes, seen, ids, k)
      && (forall j | 0 <= j < k :: !RejectedAt(classes, seen, ids, j))
      && DeclareAll(classes, seen, ids).error == RejectionError(classes[ids[k]], ids[k])
    decreases |ids|
  {
    if |ids| > 0 && DeclareAll(classes, seen, ids).Failure? {
      var first := DeclareClass(classes, seen, ids[0]);
      if first.Failure? {
        assert RejectedAt(classes, seen, ids, 0);
      } else {
        var rest := ids[1..];
        assert !RejectedAt(classes, seen, ids, 0);
        assert DeclareAll(classes, seen, ids) == DeclareAll(classes, first.value, rest);
        PhaseOneFailure(classes, first.value, rest);
        RejectedRest(classes, seen, ids);
        var k :| 0 <= k < |rest|
          && RejectedAt(classes, first.value, rest, k)
          && (forall j | 0 <= j < k :: !RejectedAt(classes, first.value, rest, j))
          && DeclareAll(classes, first.value, rest).error == RejectionError(classes[rest[k]], rest[k]);
        assert RejectedAt(classes, seen, ids, k + 1);
        assert forall j | 1 <= j < k + 1 :: !RejectedAt(classes, seen, ids, j);
      }
    }
  }

  /** Phase 1 declares only classes of the table that are data classes without a
      `CODEC` field of their own. */
  lemma {:induction false} DeclaredInTable(classes: map<ClassId, ClassInfo>, seen: seq<ClassId>, ids: seq<ClassId>)
    requires forall i | 0 <= i < |ids| :: ids[i] in classes
    ensures DeclareAll(classes, seen, ids).Success? ==>
      forall id | id in DeclareAll(classes, seen, ids).value && id !in seen ::
        id in classes && IsRecord(classes[id]) && classes[id].isData && !HasCodecField(classes[id])
    ensures DeclareAll(classes, seen, ids).Success? ==>
      forall id | id in DeclareAll(classes, seen, ids).value :: id in seen || id in ids
    decreases |ids|
  {
    if |ids| > 0 && DeclareAll(classes, seen, ids).Success? {
      var next := DeclareClass(classes, seen, ids[0]).value;
      assert DeclareAll(classes, seen, ids) == DeclareAll(classes, next, ids[1..]);
      DeclaredInTable(classes, next, ids[1..]);
    }
  }

  /** Every class the top-level scan meets is described by the table. */
  lemma TopLevelInTable(m: ModuleFragment)
    requires WellFormed(m)
    ensures forall i | 0 <= i < |TopLevelClasses(m.files)| :: TopLevelClasses(m.files)[i] in m.classes
  {
    var ids := TopLevelClasses(m.files);
    forall i | 0 <= i < |ids| ensures ids[i] in m.classes {
      assert ids[i] in ids;
    }
  }

  /** Phase 2 read by membership: it succeeds exactly when every record in the order
      can be initialized, and then maps each record to its own initializer. */
  lemma InitializeAllByMembership(classes: map<ClassId, ClassInfo>, lib: Library, order: seq<ClassId>)
    requires forall i | 0 <= i < |order| :: order[i] in classes
    ensures forall id | id in order :: id in classes
    ensures InitializeAll(classes, lib, order).Success? <==> forall id | id in order :: CanInitialize(classes, lib, id)
    ensures InitializeAll(classes, lib, order).Success? ==>
      forall id | id in order :: InitializeAll(classes, lib, order).value[id] == Initialize(classes, lib, id).value
  {
    forall id | id in order ensures exists i | 0 <= i < |order| :: order[i] == id {
      var i :| 0 <= i < |order| && order[i] == id;
    }
  }

  /** The run unfolded: phase 1 either fails, ending the run with its error, or
      declares the records of the scan; phase 2 then runs over those records against
      the declared table and decides the outcome. */
  lemma GenerateSteps(m: ModuleFragment, lib: Library)
    requires WellFormed(m)
    ensures forall i | 0 <= i < |TopLevelClasses(m.files)| :: TopLevelClasses(m.files)[i] in m.classes
    ensures
      var d := DeclareAll(m.classes, [], TopLevelClasses(m.files));
      && (d.Failure? ==> Generate(m, lib) == Failure(d.error))
      && (d.Success? ==> d.value == Records(m.classes, TopLevelClasses(m.files)))
    ensures
      var records := Records(m.classes, TopLevelClasses(m.files));
      var declared := AfterDeclaration(m.classes, records);
      DeclareAll(m.classes, [], TopLevelClasses(m.files)).Success? ==>
        && (forall i | 0 <= i < |records| :: records[i] in declared)
        && (var init := InitializeAll(declared, lib, records);
            Generate(m, lib) == if init.Success? then Success(Generated(declared, records, init.value)) else Failure(init.error))
  {
    var ids := TopLevelClasses(m.files);
    TopLevelInTable(m);
    DeclarationPhase(m.classes, [], ids);
    DeclaredInTable(m.classes, [], ids);
    var records := Records(m.classes, ids);
    assert [] + records == records;
    assert forall i | 0 <= i < |records| :: records[i] in m.classes by {
      forall i | 0 <= i < |records| ensures records[i] in m.classes {
        assert records[i] in records;
      }
    }
  }

  /** A run succeeds exactly when phase 1 rejects no position of the scan and every
      record it found can be initialized against the table phase 1 left behind. */
  lemma GenerateSucceeds(m: ModuleFragment, lib: Library)
    requires WellFormed(m)
    ensures forall i | 0 <= i < |TopLevelClasses(m.files)| :: TopLevelClasses(m.files)[i] in m.classes
    ensures
      var ids := TopLevelClasses(m.files);
      var records := Records(m.classes, ids);
      Generate(m, lib).Success? <==>
        && (forall i | 0 <= i < |ids| :: !RejectedAt(m.classes, [], ids, i))
        && (forall id | id in records :: CanInitialize(AfterDeclaration(m.classes, records), lib, id))
  {
    var ids := TopLevelClasses(m.files);
    GenerateSteps(m, lib);
    DeclarationPhase(m.classes, [], ids);
    if DeclareAll(m.classes, [], ids).Success? {
      var records := Records(m.classes, ids);
      InitializeAllByMembership(AfterDeclaration(m.classes, records), lib, records);
    }
  }

  /** A successful run declares the records of the scan, in scan order, and gives each
      the initializer built against the fully declared table; every record was a data
      class without a `CODEC` field. */
  lemma GenerateResult(m: ModuleFragment, lib: Library)
    requires WellFormed(m)
    ensures forall i | 0 <= i < |TopLevelClasses(m.files)| :: TopLevelClasses(m.files)[i] in m.classes
    ensures Generate(m, lib).Success? ==>
      var g := Generate(m, lib).value;
      && g.order == Records(m.classes, TopLevelClasses(m.files))
      && g.classes == AfterDeclaration(m.classes, g.order)
      && (forall id | id in g.order :: id in g.classes && g.initializers[id] == Initialize(g.classes, lib, id).value)
      && (forall id | id in g.order :: id in m.classes && m.classes[id].isData && !HasCodecField(m.classes[id]))
  {
    var ids := TopLevelClasses(m.files);
    GenerateSteps(m, lib);
    if Generate(m, lib).Success? {
      DeclaredInTable(m.classes, [], ids);
      var records := Records(m.classes, ids);
      InitializeAllByMembership(AfterDeclaration(m.classes, records), lib, records);
    }
  }

  /** The whole run: its success condition and, on success, its result. The
      initializer of a record does not depend on where the record sits in the scan. */
  lemma GenerateSpec(m: ModuleFragment, lib: Library)
    requires WellFormed(m)
    ensures forall i | 0 <= i < |TopLevelClasses(m.files)| :: TopLevelClasses(m.files)[i] in m.classes
    ensures
      var ids := TopLevelClasses(m.files);
      var records := Records(m.classes, ids);
      Generate(m, lib).Success? <==>
        && (forall i | 0 <= i < |ids| :: !RejectedAt(m.classes, [], ids, i))
        && (forall id | id in records :: CanInitialize(AfterDeclaration(m.classes, records), lib, id))
    ensures Generate(m, lib).Success? ==>
      var g := Generate(m, lib).value;
      && g.order == Records(m.classes, TopLevelClasses(m.files))
      && g.classes == AfterDeclaration(m.classes, g.order)
      && (forall id | id in g.order :: id in g.classes && g.initializers[id] == Initialize(g.classes, lib, id).value)
      && (forall id | id in g.order :: id in m.classes && m.classes[id].isData && !HasCodecField(m.classes[id]))
  {
    GenerateSucceeds(m, lib);
    GenerateResult(m, lib);
  }

  /** A run in which phase 1 rejects some position fails with the error of the first
      rejected position. */
  lemma RejectedRunError(m: ModuleFragment, lib: Library)
    requires WellFormed(m)
    ensures forall i | 0 <= i < |TopLevelClasses(m.files)| :: TopLevelClasses(m.files)[i] in m.classes
    ensures
      var ids := TopLevelClasses(m.files);
      (exists i | 0 <= i < |ids| :: RejectedAt(m.classes, [], ids, i)) ==>
        && Generate(m, lib).Failure?
        && exists k | 0 <= k < |ids| ::
          && RejectedAt(m.classes, [], ids, k)
          && (forall j | 0 <= j < k :: !RejectedAt(m.classes, [], ids, j))
          && Generate(m, lib).error == RejectionError(m.classes[ids[k]], ids[k])
  {
    var ids := TopLevelClasses(m.files);
    GenerateSteps(m, lib);
    DeclarationPhase(m.classes, [], ids);
    PhaseOneFailure(m.classes, [], ids);
  }

  /** A run in which phase 1 rejects nothing and that still fails does so with the
      error of the first record, in scan order, that cannot be initialized against
      the declared table. */
  lemma UninitializableRunError(m: ModuleFragment, lib: Library)
    requires WellFormed(m)
    ensures forall i | 0 <= i < |TopLevelClasses(m.files)| :: TopLevelClasses(m.files)[i] in m.classes
    ensures
      var ids := TopLevelClasses(m.files);
      var records := Records(m.classes, ids);
      var declared := AfterDeclaration(m.classes, records);
      Generate(m, lib).Failure? && (forall i | 0 <= i < |ids| :: !RejectedAt(m.classes, [], ids, i)) ==>
        var k := FirstUninitializable(declared, lib, records);
        k < |records| && Generate(m, lib).error == Initialize(declared, lib, records[k]).error
  {
    var ids := TopLevelClasses(m.files);
    GenerateSteps(m, lib);
    DeclarationPhase(m.classes, [], ids);
    if DeclareAll(m.classes, [], ids).Success? {
      var records := Records(m.classes, ids);
      PhaseTwoError(AfterDeclaration(m.classes, records), lib, records);
    }
  }

  /** A run that fails does so with the error of the first rejected position of the
      scan when phase 1 rejects one, and otherwise with the error of the first record,
      in scan order, that cannot be initialized against the declared table. */
  lemma GenerateErrors(m: ModuleFragment, lib: Library)
    requires WellFormed(m)
    ensures forall i | 0 <= i < |TopLevelClasses(m.files)| :: TopLevelClasses(m.files)[i] in m.classes
    ensures
      var ids := TopLevelClasses(m.files);
      Generate(m, lib).Failure? && (exists i | 0 <= i < |ids| :: RejectedAt(m.classes, [], ids, i)) ==>
        exists k | 0 <= k < |ids| ::
          && RejectedAt(m.classes, [], ids, k)
          && (forall j | 0 <= j < k :: !RejectedAt(m.classes, [], ids, j))
          && Generate(m, lib).error == RejectionError(m.classes[ids[k]], ids[k])
    ensures
      var ids := TopLevelClasses(m.files);
      var records := Records(m.classes, ids);
      var declared := AfterDeclaration(m.classes, records);
      Generate(m, lib).Failure? && (forall i | 0 <= i < |ids| :: !RejectedAt(m.classes, [], ids, i)) ==>
        var k := FirstUninitializable(declared, lib, records);
        k < |records| && Generate(m, lib).error == Initialize(declared, lib, records[k]).error
  {
    RejectedRunError(m, lib);
    UninitializableRunError(m, lib);
  }

  /** Declaring the slot of a class whose companion has no `CODEC` field yet leaves it
      exactly one companion, keeping its name and properties, with exactly one `CODEC`
      field appended; nothing else about the class changes. */
  lemma CodecSlotShape(info: ClassInfo)
    requires !HasCodecField(info)
    ensures
      var after := WithCodecSlot(info);
      && after == info.(companion := after.companion)
      && after.companion.Some?
      && (info.companion.Some? ==>
            after.companion.value == info.companion.value.(fields := info.companion.value.fields + [CodecName]))
      && (info.companion.None? ==> after.companion.value == Companion(CompanionName, [], [CodecName]))
      && multiset(after.companion.value.fields)[CodecName] == 1
  {
    var fields := CompanionOrNew(info).fields;
    assert CodecName !in fields;
    assert multiset(fields + [CodecName]) == multiset(fields) + multiset{CodecName};
  }

  /** Every record of a successful run ends with exactly one companion: its own,
      or a new one named `Companion`. The companion keeps its name and properties
      and gains exactly one field, `CODEC`, which it did not have before. Every other
      class is untouched. */
  lemma DeclaredCompanions(m: ModuleFragment, lib: Library, id: ClassId)
    requires WellFormed(m) && Generate(m, lib).Success? && id in m.classes
    ensures
      var g := Generate(m, lib).value;
      var before := m.classes[id];
      var after := g.classes[id];
      if id in g.order then
        && after == before.(companion := after.companion)
        && after.companion.Some?
        && (before.companion.Some? ==>
              after.companion.value == before.companion.value.(fields := before.companion.value.fields + [CodecName]))
        && (before.companion.None? ==> after.companion.value == Companion(CompanionName, [], [CodecName]))
        && multiset(after.companion.value.fields)[CodecName] == 1
      else after == before
  {
    GenerateSpec(m, lib);
    var g := Generate(m, lib).value;
    if id in g.order {
      CodecSlotShape(m.classes[id]);
      assert g.classes[id] == WithCodecSlot(m.classes[id]);
    } else {
      assert g.classes[id] == m.classes[id];
    }
  }

  /** Phase 1 adds bare fields, never a `CODEC` property. A reference to a class
      therefore resolves against the declared table as it did before, except for a
      record whose companion phase 1 had to create: the lookup now searches that
      empty companion instead of the class, and finds nothing. */
  lemma ReferenceAfterDeclaration(classes: map<ClassId, ClassInfo>, declared: seq<ClassId>, id: ClassId)
    requires id in classes
    ensures id !in declared || classes[id].companion.Some? ==>
      Resolve(AfterDeclaration(classes, declared), ClassRef(id)) == Resolve(classes, ClassRef(id))
    ensures id in declared && classes[id].companion.None? ==>
      Resolve(AfterDeclaration(classes, declared), ClassRef(id)) == Failure(NoCodecProperty(id))
  {
    var after := AfterDeclaration(classes, declared);
    assert HolderProperties(after[id]) ==
      if id in declared && classes[id].companion.None? then [] else HolderProperties(classes[id]);
  }

  /** The declared table depends only on which records were declared, not on the
      order in which the scan met them. */
  lemma DeclarationOrderIrrelevant(classes: map<ClassId, ClassInfo>, d1: seq<ClassId>, d2: seq<ClassId>)
    requires forall id :: id in d1 <==> id in d2
    ensures AfterDeclaration(classes, d1) == AfterDeclaration(classes, d2)
  {
  }
}
