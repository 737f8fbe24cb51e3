/**
 * The field table of the SCA decoder: the closed set of logical fields, the
 * path of each relative to the SCA object (the same suffix is used under the
 * incoming object and under `/sca`), the declared kinds, and the validation
 * conditions `(field, kind, mandatory)`.
 */
module ScaFields {
  import opened Util
  import opened JsonModel

  /**
   * `sca::field::Name`: the enumerators, numbered from `A_BEGIN` (the first,
   * `ROOT`) up to but excluding `A_END`, which is the 42nd position.
   */
  newtype FieldName = x: int | 0 <= x < 42

  const Root: FieldName := 0
  const Id: FieldName := 1
  const ScanId: FieldName := 2
  const Description: FieldName := 3
  const References: FieldName := 4
  const StartTime: FieldName := 5
  const EndTime: FieldName := 6
  const Passed: FieldName := 7
  const Failed: FieldName := 8
  const Invalid: FieldName := 9
  const TotalChecks: FieldName := 10
  const Score: FieldName := 11
  const Hash: FieldName := 12
  const HashFile: FieldName := 13
  const File: FieldName := 14
  const Name: FieldName := 15
  const FirstScan: FieldName := 16
  const ForceAlert: FieldName := 17
  const Policy: FieldName := 18
  const PolicyId: FieldName := 19
  const Policies: FieldName := 20
  const Check: FieldName := 21
  const CheckId: FieldName := 22
  const CheckTitle: FieldName := 23
  const CheckDescription: FieldName := 24
  const CheckRationale: FieldName := 25
  const CheckRemediation: FieldName := 26
  const CheckReferences: FieldName := 27
  const CheckCompliance: FieldName := 28
  const CheckCondition: FieldName := 29
  const CheckDirectory: FieldName := 30
  const CheckProcess: FieldName := 31
  const CheckRegistry: FieldName := 32
  const CheckCommand: FieldName := 33
  const CheckRules: FieldName := 34
  const CheckStatus: FieldName := 35
  const CheckReason: FieldName := 36
  const CheckResult: FieldName := 37
  const CheckFile: FieldName := 38
  const ElementsSent: FieldName := 39
  const Type: FieldName := 40
  const CheckPreviousResult: FieldName := 41

  /** Every field, from `A_BEGIN` up to `A_END`, in enumerator order. */
  const ALL_FIELDS: seq<FieldName> := seq(42, i requires 0 <= i < 42 => i as FieldName)

  /** `getRealtivePath`: the path of a field relative to the SCA object. */
  function RelativePath(f: FieldName): string {
    if f == Root then ""
    else if f == Id then "/id"
    else if f == ScanId then "/scan_id"
    else if f == Description then "/description"
    else if f == References then "/references"
    else if f == StartTime then "/start_time"
    else if f == EndTime then "/end_time"
    else if f == Passed then "/passed"
    else if f == Failed then "/failed"
    else if f == Invalid then "/invalid"
    else if f == TotalChecks then "/total_checks"
    else if f == Score then "/score"
    else if f == Hash then "/hash"
    else if f == HashFile then "/hash_file"
    else if f == File then "/file"
    else if f == Name then "/name"
    else if f == FirstScan then "/first_scan"
    else if f == ForceAlert then "/force_alert"
    else if f == Policy then "/policy"
    else if f == PolicyId then "/policy_id"
    else if f == Policies then "/policies"
    else if f == Check then "/check"
    else if f == CheckId then "/check/id"
    else if f == CheckTitle then "/check/title"
    else if f == CheckDescription then "/check/description"
    else if f == CheckRationale then "/check/rationale"
    else if f == CheckRemediation then "/check/remediation"
    else if f == CheckReferences then "/check/references"
    else if f == CheckCompliance then "/check/compliance"
    else if f == CheckCondition then "/check/condition"
    else if f == CheckDirectory then "/check/directory"
    else if f == CheckProcess then "/check/process"
    else if f == CheckRegistry then "/check/registry"
    else if f == CheckCommand then "/check/command"
    else if f == CheckRules then "/check/rules"
    else if f == CheckStatus then "/check/status"
    else if f == CheckReason then "/check/reason"
    else if f == CheckResult then "/check/result"
    else if f == CheckFile then "/check/file"
    else if f == ElementsSent then "/elements_sent"
    else if f == Type then "/type"
    else "/check/previous_result"
  }

  lemma AllFieldsListed(f: FieldName)
    ensures f in ALL_FIELDS
  {
    assert ALL_FIELDS[f] == f;
  }

  /** No two fields share a relative path. */
  lemma RelativePathInjective(a: FieldName, b: FieldName)
    requires RelativePath(a) == RelativePath(b)
    ensures a == b
  {
    if a < 14 {
      RelativePathInjectiveLow(a, b);
    } else if a < 28 {
      RelativePathInjectiveMid(a, b);
    } else {
      RelativePathInjectiveHigh(a, b);
    }
  }

  lemma RelativePathInjectiveLow(a: FieldName, b: FieldName)
    requires a < 14 && RelativePath(a) == RelativePath(b)
    ensures a == b
  {
  }

  lemma RelativePathInjectiveMid(a: FieldName, b: FieldName)
    requires 14 <= a < 28 && RelativePath(a) == RelativePath(b)
    ensures a == b
  {
  }

  lemma RelativePathInjectiveHigh(a: FieldName, b: FieldName)
    requires 28 <= a && RelativePath(a) == RelativePath(b)
    ensures a == b
  {
  }

  /** A path table holds every field. */
  predicate Complete(m: map<FieldName, string>) {
    forall f: FieldName :: f in m
  }

  /** The table built for `prefix`: each field at `prefix` + its relative path. */
  predicate IsPathTable(m: map<FieldName, string>, prefix: string) {
    Complete(m) && forall f: FieldName {:trigger RelativePath(f)} :: m[f] == prefix + RelativePath(f)
  }

  predicate Injective(m: map<FieldName, string>)
    requires Complete(m)
  {
    forall a: FieldName, b: FieldName :: m[a] == m[b] ==> a == b
  }

  /** No source path is also a destination path. */
  predicate Disjoint(src: map<FieldName, string>, dst: map<FieldName, string>)
    requires Complete(src) && Complete(dst)
  {
    forall a: FieldName, b: FieldName :: src[a] != dst[b]
  }

  /** Every path table is injective, since relative paths are. */
  lemma {:induction false} PathTableInjective(m: map<FieldName, string>, prefix: string)
    requires IsPathTable(m, prefix)
    ensures Injective(m)
  {
    forall a: FieldName, b: FieldName | m[a] == m[b] ensures a == b {
      assert (prefix + RelativePath(a))[|prefix|..] == RelativePath(a);
      assert (prefix + RelativePath(b))[|prefix|..] == RelativePath(b);
      RelativePathInjective(a, b);
    }
  }

  /** `sca::field::Type`. */
  datatype FieldType = StringType | IntType | BoolType | ArrayType | ObjectType

  predicate HasType(v: Json, t: FieldType) {
    match t
    case StringType => v.JString?
    case IntType => v.JInt?
    case BoolType => v.JBool?
    case ArrayType => v.JArray?
    case ObjectType => v.JObject?
  }

  /** `conditionToCheck`: a field, its kind, and whether it is mandatory. */
  datatype Condition = Condition(field: FieldName, kind: FieldType, mandatory: bool)

  /**
   * The `isValidCondition` lambda: a present value must have exactly the
   * declared kind; an absent one passes unless it is mandatory.
   */
  predicate ConditionHolds(doc: Document, path: string, kind: FieldType, mandatory: bool) {
    if path in doc then HasType(doc[path], kind) else !mandatory
  }

  /** Every condition of the list holds of the event. */
  predicate AllConditionsHold(src: map<FieldName, string>, doc: Document, conds: seq<Condition>)
    requires Complete(src)
  {
    forall i :: 0 <= i < |conds| ==> ConditionHolds(doc, src[conds[i].field], conds[i].kind, conds[i].mandatory)
  }

  /**
   * The ways one condition decides validity: an absent mandatory field
   * fails, an absent optional field passes, a present field passes exactly
   * when its kind is the declared one.
   */
  lemma ConditionCases(doc: Document, path: string, kind: FieldType, mandatory: bool)
    ensures path !in doc && mandatory ==> !ConditionHolds(doc, path, kind, mandatory)
    ensures path !in doc && !mandatory ==> ConditionHolds(doc, path, kind, mandatory)
    ensures path in doc ==> (ConditionHolds(doc, path, kind, mandatory) <==> HasType(doc[path], kind))
  {
  }

  /**
   * One write of the normalisation, always at the destination path of
   * `field`: a literal string, a literal written only when not empty, a copy
   * of the source value of `from` when it exists, or a csv source string
   * turned into an array of strings.
   */
  datatype WriteStep =
    | Put(field: FieldName, value: string)
    | PutIfSet(field: FieldName, value: string)
    | CopyFrom(from: FieldName, field: FieldName)
    | CsvArray(field: FieldName)

  /** `copyIfExist(field)`: the source value copied to the same field under `/sca`. */
  function Copy(f: FieldName): WriteStep {
    CopyFrom(f, f)
  }

  /** The array `csvStr2ArrayIfExist` builds: one string per csv item, in order. */
  function CsvItems(csv: string): seq<Json> {
    var parts := Split(csv, ',');
    seq(|parts|, i requires 0 <= i < |parts| => JString(parts[i]))
  }

  /** The value a step writes at its destination path, if it writes one. */
  function Written(src: map<FieldName, string>, doc: Document, step: WriteStep): Option<Json>
    requires Complete(src)
  {
    match step
    case Put(_, v) => Some(JString(v))
    case PutIfSet(_, v) => if v != "" then Some(JString(v)) else None
    case CopyFrom(from, _) => if src[from] in doc then Some(doc[src[from]]) else None
    case CsvArray(f) =>
      match GetString(doc, src[f])
      case Some(csv) => Some(JArray(CsvItems(csv)))
      case None => None
  }

  function ApplyStep(src: map<FieldName, string>, dst: map<FieldName, string>,
                     doc: Document, step: WriteStep): Document
    requires Complete(src) && Complete(dst)
  {
    match Written(src, doc, step)
    case Some(v) => doc[dst[step.field] := v]
    case None => doc
  }

  /** The steps performed one after the other, first to last. */
  function ApplySteps(src: map<FieldName, string>, dst: map<FieldName, string>,
                      doc: Document, steps: seq<WriteStep>): Document
    requires Complete(src) && Complete(dst)
    decreases |steps|
  {
    if |steps| == 0 then doc
    else ApplySteps(src, dst, ApplyStep(src, dst, doc, steps[0]), steps[1..])
  }

  /** No two steps write the same field. */
  predicate DistinctTargets(steps: seq<WriteStep>) {
    forall i, j :: 0 <= i < j < |steps| ==> steps[i].field != steps[j].field
  }

  /**
   * Steps are distinct in their targets when some numbering of the fields
   * gives each step's target that step's own position.
   */
  lemma PositionsDistinct(steps: seq<WriteStep>, position: FieldName -> int)
    requires forall i :: 0 <= i < |steps| ==> position(steps[i].field) == i
    ensures DistinctTargets(steps)
  {
  }

  /** `k` holds what `w` says was written there, or is untouched. */
  predicate Agrees(r: Document, doc: Document, k: string, w: Option<Json>) {
    match w
    case Some(v) => k in r && r[k] == v
    case None => SameAt(r, doc, k)
  }

  /** What a step writes depends only on the source paths. */
  lemma WrittenReadsSources(src: map<FieldName, string>, d1: Document, d2: Document, step: WriteStep)
    requires Complete(src)
    requires forall f: FieldName :: SameAt(d1, d2, src[f])
    ensures Written(src, d1, step) == Written(src, d2, step)
  {
    match step
    case Put(_, _) =>
    case PutIfSet(_, _) =>
    case CopyFrom(from, _) => assert SameAt(d1, d2, src[from]);
    case CsvArray(f) => assert SameAt(d1, d2, src[f]);
  }

  /**
   * A run of writes to distinct fields, with destinations that are distinct
   * and apart from every source path: each step's destination ends up with
   * what that step writes from the original event (or is untouched when it
   * writes nothing), and every other path is untouched.
   */
  lemma {:induction false} ApplyStepsEffect(src: map<FieldName, string>, dst: map<FieldName, string>,
                                            doc: Document, steps: seq<WriteStep>)
    requires Complete(src) && Complete(dst) && Injective(dst) && Disjoint(src, dst)
    requires DistinctTargets(steps)
    ensures forall i :: 0 <= i < |steps| ==>
      Agrees(ApplySteps(src, dst, doc, steps), doc, dst[steps[i].field], Written(src, doc, steps[i]))
    ensures forall k :: (forall i :: 0 <= i < |steps| ==> k != dst[steps[i].field]) ==>
      SameAt(ApplySteps(src, dst, doc, steps), doc, k)
    decreases |steps|
  {
    if |steps| > 0 {
      var k0 := dst[steps[0].field];
      var d1 := ApplyStep(src, dst, doc, steps[0]);
      var tail := steps[1..];
      var r := ApplySteps(src, dst, d1, tail);
      assert r == ApplySteps(src, dst, doc, steps);
      DistinctTargetsTail(dst, steps);
      ApplyStepsEffect(src, dst, d1, tail);
      ApplyStepFrame(src, dst, doc, steps[0]);
      forall i | 0 <= i < |steps|
        ensures Agrees(r, doc, dst[steps[i].field], Written(src, doc, steps[i]))
      {
        if i == 0 {
          assert SameAt(r, d1, k0);
        } else {
          assert steps[i] == tail[i - 1];
          WrittenReadsSources(src, d1, doc, steps[i]);
        }
      }
      forall k | (forall i :: 0 <= i < |steps| ==> k != dst[steps[i].field])
        ensures SameAt(r, doc, k)
      {
        forall j | 0 <= j < |tail| ensures k != dst[tail[j].field] {
          assert tail[j] == steps[j + 1];
        }
        assert k != k0;
        assert SameAt(r, d1, k) && SameAt(d1, doc, k);
      }
    }
  }

  /** Dropping the first step keeps the targets distinct, and none of the rest writes its destination. */
  lemma DistinctTargetsTail(dst: map<FieldName, string>, steps: seq<WriteStep>)
    requires Complete(dst) && Injective(dst)
    requires DistinctTargets(steps) && |steps| > 0
    ensures DistinctTargets(steps[1..])
    ensures forall j :: 0 <= j < |steps[1..]| ==> dst[steps[0].field] != dst[steps[1..][j].field]
  {
    var tail := steps[1..];
    forall i, j | 0 <= i < j < |tail| ensures tail[i].field != tail[j].field {
      assert tail[i] == steps[i + 1] && tail[j] == steps[j + 1];
    }
    forall j | 0 <= j < |tail| ensures dst[steps[0].field] != dst[tail[j].field] {
      assert tail[j] == steps[j + 1];
    }
  }

  /** One step writes its own destination, no other path, and in particular no source path. */
  lemma ApplyStepFrame(src: map<FieldName, string>, dst: map<FieldName, string>, doc: Document, step: WriteStep)
    requires Complete(src) && Complete(dst) && Disjoint(src, dst)
    ensures forall k :: k != dst[step.field] ==> SameAt(ApplyStep(src, dst, doc, step), doc, k)
    ensures Agrees(ApplyStep(src, dst, doc, step), doc, dst[step.field], Written(src, doc, step))
    ensures forall f: FieldName :: SameAt(ApplyStep(src, dst, doc, step), doc, src[f])
  {
    forall f: FieldName ensures SameAt(ApplyStep(src, dst, doc, step), doc, src[f]) {
      assert src[f] != dst[step.field];
    }
  }

  /** Performing two runs of steps is performing the first and then the second. */
  lemma {:induction false} ApplyStepsAppend(src: map<FieldName, string>, dst: map<FieldName, string>,
                                            doc: Document, a: seq<WriteStep>, b: seq<WriteStep>)
    requires Complete(src) && Complete(dst)
    ensures ApplySteps(src, dst, doc, a + b) == ApplySteps(src, dst, ApplySteps(src, dst, doc, a), b)
    decreases |a|
  {
    if |a| == 0 {
      assert a + b == b;
    } else {
      assert (a + b)[0] == a[0] && (a + b)[1..] == a[1..] + b;
      ApplyStepsAppend(src, dst, ApplyStep(src, dst, doc, a[0]), a[1..], b);
    }
  }

  /** Paths no step writes keep their values. */
  lemma {:induction false} ApplyStepsFrame(src: map<FieldName, string>, dst: map<FieldName, string>,
                                           doc: Document, steps: seq<WriteStep>, k: string)
    requires Complete(src) && Complete(dst)
    requires forall i :: 0 <= i < |steps| ==> k != dst[steps[i].field]
    ensures SameAt(ApplySteps(src, dst, doc, steps), doc, k)
    decreases |steps|
  {
    if |steps| > 0 {
      forall i | 0 <= i < |steps| - 1 ensures k != dst[steps[1..][i].field] {
        assert steps[1..][i] == steps[i + 1];
      }
      ApplyStepsFrame(src, dst, ApplyStep(src, dst, doc, steps[0]), steps[1..], k);
    }
  }

  /**
   * `ApplyStepsEffect` for steps that write only fields of `fields`: every
   * path that is not the destination of one of them is untouched.
   */
  lemma StepsWrite(src: map<FieldName, string>, dst: map<FieldName, string>, doc: Document,
                   steps: seq<WriteStep>, fields: set<FieldName>)
    requires Complete(src) && Complete(dst) && Injective(dst) && Disjoint(src, dst)
    requires DistinctTargets(steps)
    requires forall i :: 0 <= i < |steps| ==> steps[i].field in fields
    ensures forall i :: 0 <= i < |steps| ==>
      Agrees(ApplySteps(src, dst, doc, steps), doc, dst[steps[i].field], Written(src, doc, steps[i]))
    ensures forall k :: (forall f :: f in fields ==> k != dst[f]) ==>
      SameAt(ApplySteps(src, dst, doc, steps), doc, k)
  {
    ApplyStepsEffect(src, dst, doc, steps);
    forall k | (forall f :: f in fields ==> k != dst[f])
      ensures SameAt(ApplySteps(src, dst, doc, steps), doc, k)
    {
      forall i | 0 <= i < |steps| ensures k != dst[steps[i].field] { }
    }
  }
}
