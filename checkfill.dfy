/**
 * `fillCheckEvent`: the normalised `/sca` fields written for a check event.
 */
module CheckFill {
  import opened JsonModel
  import opened ScaFields
  import opened DecodeContext

  /**
   * The writes done before the outcome: the type tag, the previous result
   * when there is one, the plain copies and the csv lists, in order.
   */
  function CheckSteps(previousResult: string): seq<WriteStep> {
    TagSteps(previousResult) + COPY_STEPS + LIST_STEPS
  }

  function TagSteps(previousResult: string): seq<WriteStep> {
    [Put(Type, "check"), PutIfSet(CheckPreviousResult, previousResult)]
  }

  const COPY_STEPS: seq<WriteStep> := [
    Copy(Id), Copy(Policy), Copy(PolicyId),
    Copy(CheckId), Copy(CheckTitle), Copy(CheckDescription), Copy(CheckRationale),
    Copy(CheckRemediation), Copy(CheckCompliance), Copy(CheckReferences)]

  const LIST_STEPS: seq<WriteStep> := [
    CsvArray(CheckFile), CsvArray(CheckDirectory), CsvArray(CheckRegistry),
    CsvArray(CheckProcess), CsvArray(CheckCommand)]

  /** The outcome: the result when the event has one, otherwise status and reason. */
  function OutcomeSteps(hasResult: bool): seq<WriteStep> {
    if hasResult then [Copy(CheckResult)] else [Copy(CheckStatus), Copy(CheckReason)]
  }

  /** The plain copies of `fillCheckEvent`, in its order. */
  function CheckCopies(ctx: DecodeCxt, doc: Document): Document
    requires ctx.Valid()
  {
    var src, dst := ctx.sourcePath, ctx.destinationPath;
    var d1 := ApplyStep(src, dst, doc, Copy(Id));
    var d2 := ApplyStep(src, dst, d1, Copy(Policy));
    var d3 := ApplyStep(src, dst, d2, Copy(PolicyId));
    var d4 := ApplyStep(src, dst, d3, Copy(CheckId));
    var d5 := ApplyStep(src, dst, d4, Copy(CheckTitle));
    var d6 := ApplyStep(src, dst, d5, Copy(CheckDescription));
    var d7 := ApplyStep(src, dst, d6, Copy(CheckRationale));
    var d8 := ApplyStep(src, dst, d7, Copy(CheckRemediation));
    var d9 := ApplyStep(src, dst, d8, Copy(CheckCompliance));
    var d10 := ApplyStep(src, dst, d9, Copy(CheckReferences));
    d10
  }

  /** The csv fields of `fillCheckEvent` turned into arrays, in its order. */
  function CheckLists(ctx: DecodeCxt, doc: Document): Document
    requires ctx.Valid()
  {
    var src, dst := ctx.sourcePath, ctx.destinationPath;
    var d1 := ApplyStep(src, dst, doc, CsvArray(CheckFile));
    var d2 := ApplyStep(src, dst, d1, CsvArray(CheckDirectory));
    var d3 := ApplyStep(src, dst, d2, CsvArray(CheckRegistry));
    var d4 := ApplyStep(src, dst, d3, CsvArray(CheckProcess));
    var d5 := ApplyStep(src, dst, d4, CsvArray(CheckCommand));
    d5
  }

  /**
   * The event after the writes of `fillCheckEvent` that come before the
   * outcome: the type tag, the previous result, the copies and the lists.
   */
  function FillCheckFields(ctx: DecodeCxt, doc: Document, previousResult: string): Document
    requires ctx.Valid()
  {
    var src, dst := ctx.sourcePath, ctx.destinationPath;
    var tagged := ApplyStep(src, dst, doc, Put(Type, "check"));
    var withPrevious := ApplyStep(src, dst, tagged, PutIfSet(CheckPreviousResult, previousResult));
    CheckLists(ctx, CheckCopies(ctx, withPrevious))
  }

  /**
   * The outcome of a check: the result when the event has one, otherwise
   * its status and reason.
   */
  function CheckOutcome(ctx: DecodeCxt, doc: Document): Document
    requires ctx.Valid()
  {
    var src, dst := ctx.sourcePath, ctx.destinationPath;
    if src[CheckResult] in doc then ApplyStep(src, dst, doc, Copy(CheckResult))
    else ApplyStep(src, dst, ApplyStep(src, dst, doc, Copy(CheckStatus)), Copy(CheckReason))
  }

  /** The event after `fillCheckEvent`: the outcome is written last. */
  function FillCheck(ctx: DecodeCxt, doc: Document, previousResult: string): Document
    requires ctx.Valid()
  {
    CheckOutcome(ctx, FillCheckFields(ctx, doc, previousResult))
  }

  /** Performing the step at `k` leaves the steps after it to be done. */
  lemma StepDone(src: map<FieldName, string>, dst: map<FieldName, string>,
                 before: Document, after: Document, steps: seq<WriteStep>, k: nat)
    requires Complete(src) && Complete(dst) && k < |steps|
    requires after == ApplyStep(src, dst, before, steps[k])
    ensures ApplySteps(src, dst, before, steps[k..]) == ApplySteps(src, dst, after, steps[k + 1..])
  {
    assert steps[k..][0] == steps[k];
    assert steps[k..][1..] == steps[k + 1..];
  }

  lemma CheckCopiesAsSteps(ctx: DecodeCxt, doc: Document)
    requires ctx.Valid()
    ensures CheckCopies(ctx, doc) == ApplySteps(ctx.sourcePath, ctx.destinationPath, doc, COPY_STEPS)
  {
    var src, dst := ctx.sourcePath, ctx.destinationPath;
    var steps := COPY_STEPS;
    assert steps[0..] == steps;
    var d0 := doc;
    var d1 := ApplyStep(src, dst, d0, steps[0]);
    StepDone(src, dst, d0, d1, steps, 0);
    var d2 := ApplyStep(src, dst, d1, steps[1]);
    StepDone(src, dst, d1, d2, steps, 1);
    var d3 := ApplyStep(src, dst, d2, steps[2]);
    StepDone(src, dst, d2, d3, steps, 2);
    var d4 := ApplyStep(src, dst, d3, steps[3]);
    StepDone(src, dst, d3, d4, steps, 3);
    var d5 := ApplyStep(src, dst, d4, steps[4]);
    StepDone(src, dst, d4, d5, steps, 4);
    var d6 := ApplyStep(src, dst, d5, steps[5]);
    StepDone(src, dst, d5, d6, steps, 5);
    var d7 := ApplyStep(src, dst, d6, steps[6]);
    StepDone(src, dst, d6, d7, steps, 6);
    var d8 := ApplyStep(src, dst, d7, steps[7]);
    StepDone(src, dst, d7, d8, steps, 7);
    var d9 := ApplyStep(src, dst, d8, steps[8]);
    StepDone(src, dst, d8, d9, steps, 8);
    var d10 := ApplyStep(src, dst, d9, steps[9]);
    StepDone(src, dst, d9, d10, steps, 9);
    assert steps[10..] == [];
  }

  lemma CheckListsAsSteps(ctx: DecodeCxt, doc: Document)
    requires ctx.Valid()
    ensures CheckLists(ctx, doc) == ApplySteps(ctx.sourcePath, ctx.destinationPath, doc, LIST_STEPS)
  {
    var src, dst := ctx.sourcePath, ctx.destinationPath;
    var steps := LIST_STEPS;
    assert steps[0..] == steps;
    var d0 := doc;
    var d1 := ApplyStep(src, dst, d0, steps[0]);
    StepDone(src, dst, d0, d1, steps, 0);
    var d2 := ApplyStep(src, dst, d1, steps[1]);
    StepDone(src, dst, d1, d2, steps, 1);
    var d3 := ApplyStep(src, dst, d2, steps[2]);
    StepDone(src, dst, d2, d3, steps, 2);
    var d4 := ApplyStep(src, dst, d3, steps[3]);
    StepDone(src, dst, d3, d4, steps, 3);
    var d5 := ApplyStep(src, dst, d4, steps[4]);
    StepDone(src, dst, d4, d5, steps, 4);
    assert steps[5..] == [];
  }

  /** The writes before the outcome are the steps of `CheckSteps`, in order. */
  lemma FillCheckFieldsAsSteps(ctx: DecodeCxt, doc: Document, previousResult: string)
    requires ctx.Valid()
    ensures FillCheckFields(ctx, doc, previousResult)
         == ApplySteps(ctx.sourcePath, ctx.destinationPath, doc, CheckSteps(previousResult))
  {
    var src, dst := ctx.sourcePath, ctx.destinationPath;
    var tag := TagSteps(previousResult);
    var tagged := ApplyStep(src, dst, doc, Put(Type, "check"));
    var withPrevious := ApplyStep(src, dst, tagged, PutIfSet(CheckPreviousResult, previousResult));
    assert tag[1..][1..] == [];
    assert ApplySteps(src, dst, doc, tag) == ApplySteps(src, dst, tagged, tag[1..]);
    assert ApplySteps(src, dst, tagged, tag[1..]) == ApplySteps(src, dst, withPrevious, tag[1..][1..]);
    CheckCopiesAsSteps(ctx, withPrevious);
    CheckListsAsSteps(ctx, CheckCopies(ctx, withPrevious));
    ApplyStepsAppend(src, dst, doc, tag, COPY_STEPS);
    ApplyStepsAppend(src, dst, doc, tag + COPY_STEPS, LIST_STEPS);
  }

  /** The outcome is the steps of `OutcomeSteps`. */
  lemma CheckOutcomeAsSteps(ctx: DecodeCxt, doc: Document)
    requires ctx.Valid()
    ensures CheckOutcome(ctx, doc)
         == ApplySteps(ctx.sourcePath, ctx.destinationPath, doc, OutcomeSteps(ctx.sourcePath[CheckResult] in doc))
  {
    var src, dst := ctx.sourcePath, ctx.destinationPath;
    var steps := OutcomeSteps(src[CheckResult] in doc);
    if src[CheckResult] in doc {
      assert steps[1..] == [];
      assert ApplySteps(src, dst, doc, steps) == ApplySteps(src, dst, ApplyStep(src, dst, doc, steps[0]), []);
    } else {
      var d1 := ApplyStep(src, dst, doc, steps[0]);
      assert steps[1..][1..] == [];
      assert ApplySteps(src, dst, doc, steps) == ApplySteps(src, dst, d1, steps[1..]);
      assert ApplySteps(src, dst, d1, steps[1..]) == ApplySteps(src, dst, ApplyStep(src, dst, d1, steps[1]), []);
    }
  }

  /** Every field whose `/sca` path `fillCheckEvent` may write. */
  const FILL_CHECK_FIELDS: set<FieldName> := {
    Type, CheckPreviousResult, Id, Policy, PolicyId, CheckId, CheckTitle,
    CheckDescription, CheckRationale, CheckRemediation, CheckCompliance,
    CheckReferences, CheckFile, CheckDirectory, CheckRegistry, CheckProcess,
    CheckCommand, CheckResult, CheckStatus, CheckReason}

  /** All the writes of `fillCheckEvent`, the outcome last. */
  function FillCheckSteps(previousResult: string, hasResult: bool): seq<WriteStep> {
    CheckSteps(previousResult) + OutcomeSteps(hasResult)
  }

  /**
   * The position of each written field among the steps of `fillCheckEvent`;
   * the result and the status share the place after the lists, since only
   * one of them is written.
   */
  function CheckPosition(f: FieldName): int {
    if f == Type then 0 else if f == CheckPreviousResult then 1 else if f == Id then 2
    else if f == Policy then 3 else if f == PolicyId then 4 else if f == CheckId then 5
    else if f == CheckTitle then 6 else if f == CheckDescription then 7 else if f == CheckRationale then 8
    else if f == CheckRemediation then 9 else if f == CheckCompliance then 10 else if f == CheckReferences then 11
    else if f == CheckFile then 12 else if f == CheckDirectory then 13 else if f == CheckRegistry then 14
    else if f == CheckProcess then 15 else if f == CheckCommand then 16
    else if f == CheckResult || f == CheckStatus then 17 else if f == CheckReason then 18 else -1
  }

  /** Every field with a position is one `fillCheckEvent` may write. */
  lemma CheckPositionFields(f: FieldName)
    requires CheckPosition(f) >= 0
    ensures f in FILL_CHECK_FIELDS
  {
  }

  lemma CopyStepsPositions()
    ensures |COPY_STEPS| == 10
    ensures forall i :: 0 <= i < 10 ==> CheckPosition(COPY_STEPS[i].field) == i + 2
  {
  }

  lemma ListStepsPositions()
    ensures |LIST_STEPS| == 5
    ensures forall i :: 0 <= i < 5 ==> CheckPosition(LIST_STEPS[i].field) == i + 12
  {
  }

  /** The writes before the outcome take the first seventeen positions. */
  lemma CheckStepsPositions(previousResult: string)
    ensures |CheckSteps(previousResult)| == 17
    ensures forall i :: 0 <= i < 17 ==> CheckPosition(CheckSteps(previousResult)[i].field) == i
  {
    var tag, steps := TagSteps(previousResult), CheckSteps(previousResult);
    CopyStepsPositions();
    ListStepsPositions();
    forall i | 0 <= i < 17 ensures CheckPosition(steps[i].field) == i {
      if i < 2 {
        assert steps[i] == tag[i];
      } else if i < 12 {
        assert steps[i] == COPY_STEPS[i - 2];
      } else {
        assert steps[i] == LIST_STEPS[i - 12];
      }
    }
  }

  lemma {:induction false} FillCheckStepsShape(previousResult: string, hasResult: bool)
    ensures DistinctTargets(FillCheckSteps(previousResult, hasResult))
    ensures forall i :: 0 <= i < |FillCheckSteps(previousResult, hasResult)| ==>
      FillCheckSteps(previousResult, hasResult)[i].field in FILL_CHECK_FIELDS
    ensures forall i :: 0 <= i < |FillCheckSteps(previousResult, hasResult)| ==>
      if hasResult then FillCheckSteps(previousResult, hasResult)[i].field !in {CheckStatus, CheckReason}
      else FillCheckSteps(previousResult, hasResult)[i].field != CheckResult
  {
    var head := CheckSteps(previousResult);
    var s := FillCheckSteps(previousResult, hasResult);
    CheckStepsPositions(previousResult);
    if hasResult {
      assert s == head + [Copy(CheckResult)];
    } else {
      assert s == head + [Copy(CheckStatus), Copy(CheckReason)];
    }
    forall i | 0 <= i < |s| ensures CheckPosition(s[i].field) == i {
      if i < 17 {
        assert s[i] == head[i];
      }
    }
    PositionsDistinct(s, CheckPosition);
    forall i | 0 <= i < |s|
      ensures s[i].field in FILL_CHECK_FIELDS
      ensures if hasResult then s[i].field !in {CheckStatus, CheckReason} else s[i].field != CheckResult
    {
      CheckPositionFields(s[i].field);
    }
  }

  /**
   * When the incoming SCA object lies apart from `/sca`, `fillCheckEvent`
   * performs the steps of `FillCheckSteps` on the incoming event, the
   * outcome chosen by whether the incoming event has a result.
   */
  lemma FillCheckAsSteps(ctx: DecodeCxt, doc: Document, previousResult: string)
    requires ctx.Valid() && Disjoint(ctx.sourcePath, ctx.destinationPath)
    ensures FillCheck(ctx, doc, previousResult)
         == ApplySteps(ctx.sourcePath, ctx.destinationPath, doc,
                       FillCheckSteps(previousResult, ctx.sourcePath[CheckResult] in doc))
  {
    var mid := FillCheckFields(ctx, doc, previousResult);
    FillCheckFieldsAsSteps(ctx, doc, previousResult);
    CheckOutcomeAsSteps(ctx, mid);
    OutcomeAfterCheckSteps(ctx.sourcePath, ctx.destinationPath, doc, mid, previousResult);
  }

  /** The outcome chosen after the other writes is the one the incoming event calls for. */
  lemma OutcomeAfterCheckSteps(src: map<FieldName, string>, dst: map<FieldName, string>,
                               doc: Document, mid: Document, previousResult: string)
    requires Complete(src) && Complete(dst) && Disjoint(src, dst)
    requires mid == ApplySteps(src, dst, doc, CheckSteps(previousResult))
    ensures ApplySteps(src, dst, mid, OutcomeSteps(src[CheckResult] in mid))
         == ApplySteps(src, dst, doc, FillCheckSteps(previousResult, src[CheckResult] in doc))
  {
    var steps := CheckSteps(previousResult);
    forall i | 0 <= i < |steps| ensures src[CheckResult] != dst[steps[i].field] { }
    ApplyStepsFrame(src, dst, doc, steps, src[CheckResult]);
    ApplyStepsAppend(src, dst, doc, steps, OutcomeSteps(src[CheckResult] in doc));
  }

  lemma FillCheckStepsWrite(src: map<FieldName, string>, dst: map<FieldName, string>,
                            doc: Document, previousResult: string, hasResult: bool)
    requires Complete(src) && Complete(dst) && Injective(dst) && Disjoint(src, dst)
    ensures var steps := FillCheckSteps(previousResult, hasResult);
      var r := ApplySteps(src, dst, doc, steps);
      && (forall i :: 0 <= i < |steps| ==> Agrees(r, doc, dst[steps[i].field], Written(src, doc, steps[i])))
      && dst[Type] in r && r[dst[Type]] == JString("check")
      && (previousResult != "" ==> dst[CheckPreviousResult] in r && r[dst[CheckPreviousResult]] == JString(previousResult))
      && (previousResult == "" ==> SameAt(r, doc, dst[CheckPreviousResult]))
      && (forall k :: (forall f :: f in FILL_CHECK_FIELDS ==> k != dst[f]) ==> SameAt(r, doc, k))
  {
    var steps := FillCheckSteps(previousResult, hasResult);
    FillCheckStepsShape(previousResult, hasResult);
    StepsWrite(src, dst, doc, steps, FILL_CHECK_FIELDS);
    assert steps[0] == Put(Type, "check") && steps[1] == PutIfSet(CheckPreviousResult, previousResult);
  }

  /**
   * What `fillCheckEvent` writes, when the incoming SCA object lies apart
   * from `/sca`: each step's `/sca` path ends up with what that step takes
   * from the incoming event, so "check" as the type and the previous result
   * exactly when it is not empty; no path outside the `/sca` paths of
   * `FILL_CHECK_FIELDS` changes.
   */
  lemma FillCheckWrites(ctx: DecodeCxt, doc: Document, previousResult: string)
    requires ctx.Valid() && Disjoint(ctx.sourcePath, ctx.destinationPath)
    ensures var r := FillCheck(ctx, doc, previousResult);
      var src, dst := ctx.sourcePath, ctx.destinationPath;
      var steps := FillCheckSteps(previousResult, src[CheckResult] in doc);
      && (forall i :: 0 <= i < |steps| ==> Agrees(r, doc, dst[steps[i].field], Written(src, doc, steps[i])))
      && dst[Type] in r && r[dst[Type]] == JString("check")
      && (previousResult != "" ==> dst[CheckPreviousResult] in r && r[dst[CheckPreviousResult]] == JString(previousResult))
      && (previousResult == "" ==> SameAt(r, doc, dst[CheckPreviousResult]))
      && (forall k :: (forall f :: f in FILL_CHECK_FIELDS ==> k != dst[f]) ==> SameAt(r, doc, k))
  {
    ValidInjective(ctx);
    FillCheckAsSteps(ctx, doc, previousResult);
    FillCheckStepsWrite(ctx.sourcePath, ctx.destinationPath, doc, previousResult, ctx.sourcePath[CheckResult] in doc);
  }

  lemma FillCheckStepsWithResult(src: map<FieldName, string>, dst: map<FieldName, string>,
                                 doc: Document, previousResult: string)
    requires Complete(src) && Complete(dst) && Injective(dst) && Disjoint(src, dst)
    requires src[CheckResult] in doc
    ensures var r := ApplySteps(src, dst, doc, FillCheckSteps(previousResult, true));
      && dst[CheckResult] in r && r[dst[CheckResult]] == doc[src[CheckResult]]
      && SameAt(r, doc, dst[CheckStatus]) && SameAt(r, doc, dst[CheckReason])
  {
    var steps := FillCheckSteps(previousResult, true);
    FillCheckStepsShape(previousResult, true);
    ApplyStepsEffect(src, dst, doc, steps);
    assert |CheckSteps(previousResult)| == 17 && steps[17] == Copy(CheckResult);
    ApplyStepsFrame(src, dst, doc, steps, dst[CheckStatus]);
    ApplyStepsFrame(src, dst, doc, steps, dst[CheckReason]);
  }

  lemma FillCheckStepsWithoutResult(src: map<FieldName, string>, dst: map<FieldName, string>,
                                    doc: Document, previousResult: string)
    requires Complete(src) && Complete(dst) && Injective(dst) && Disjoint(src, dst)
    ensures var r := ApplySteps(src, dst, doc, FillCheckSteps(previousResult, false));
      && Agrees(r, doc, dst[CheckStatus], Written(src, doc, Copy(CheckStatus)))
      && Agrees(r, doc, dst[CheckReason], Written(src, doc, Copy(CheckReason)))
      && SameAt(r, doc, dst[CheckResult])
  {
    var steps := FillCheckSteps(previousResult, false);
    FillCheckStepsShape(previousResult, false);
    ApplyStepsEffect(src, dst, doc, steps);
    assert |CheckSteps(previousResult)| == 17 && steps[17] == Copy(CheckStatus) && steps[18] == Copy(CheckReason);
    ApplyStepsFrame(src, dst, doc, steps, dst[CheckResult]);
  }

  /**
   * The outcome: with a result in the incoming event, the result is copied
   * and the `/sca` status and reason keep their values; without one, status
   * and reason are copied and the `/sca` result keeps its value.
   */
  lemma FillCheckOutcome(ctx: DecodeCxt, doc: Document, previousResult: string)
    requires ctx.Valid() && Disjoint(ctx.sourcePath, ctx.destinationPath)
    ensures var r := FillCheck(ctx, doc, previousResult);
      var src, dst := ctx.sourcePath, ctx.destinationPath;
      && (src[CheckResult] in doc ==>
            dst[CheckResult] in r && r[dst[CheckResult]] == doc[src[CheckResult]]
            && SameAt(r, doc, dst[CheckStatus]) && SameAt(r, doc, dst[CheckReason]))
      && (src[CheckResult] !in doc ==>
            Agrees(r, doc, dst[CheckStatus], Written(src, doc, Copy(CheckStatus)))
            && Agrees(r, doc, dst[CheckReason], Written(src, doc, Copy(CheckReason)))
            && SameAt(r, doc, dst[CheckResult]))
  {
    ValidInjective(ctx);
    FillCheckAsSteps(ctx, doc, previousResult);
    if ctx.sourcePath[CheckResult] in doc {
      FillCheckStepsWithResult(ctx.sourcePath, ctx.destinationPath, doc, previousResult);
    } else {
      FillCheckStepsWithoutResult(ctx.sourcePath, ctx.destinationPath, doc, previousResult);
    }
  }

  method CopyCheckFields(ctx: DecodeCxt)
    requires ctx.Valid()
    modifies ctx.event
    ensures ctx.event.fields == CheckCopies(ctx, old(ctx.event.fields))
  {
    CopyIfExist(ctx, Id);
    CopyIfExist(ctx, Policy);
    CopyIfExist(ctx, PolicyId);
    CopyIfExist(ctx, CheckId);
    CopyIfExist(ctx, CheckTitle);
    CopyIfExist(ctx, CheckDescription);
    CopyIfExist(ctx, CheckRationale);
    CopyIfExist(ctx, CheckRemediation);
    CopyIfExist(ctx, CheckCompliance);
    CopyIfExist(ctx, CheckReferences);
  }

  method CheckListsToArrays(ctx: DecodeCxt)
    requires ctx.Valid()
    modifies ctx.event
    ensures ctx.event.fields == CheckLists(ctx, old(ctx.event.fields))
  {
    CsvStr2ArrayIfExist(ctx, CheckFile);
    CsvStr2ArrayIfExist(ctx, CheckDirectory);
    CsvStr2ArrayIfExist(ctx, CheckRegistry);
    CsvStr2ArrayIfExist(ctx, CheckProcess);
    CsvStr2ArrayIfExist(ctx, CheckCommand);
  }

  method TagCheck(ctx: DecodeCxt, previousResult: string)
    requires ctx.Valid()
    modifies ctx.event
    ensures ctx.event.fields
         == ApplyStep(ctx.sourcePath, ctx.destinationPath,
                      ApplyStep(ctx.sourcePath, ctx.destinationPath, old(ctx.event.fields), Put(Type, "check")),
                      PutIfSet(CheckPreviousResult, previousResult))
  {
    ctx.event.SetString("check", ctx.destinationPath[Type]);
    if previousResult != "" {
      ctx.event.SetString(previousResult, ctx.destinationPath[CheckPreviousResult]);
    }
  }

  method CopyOutcome(ctx: DecodeCxt)
    requires ctx.Valid()
    modifies ctx.event
    ensures ctx.event.fields == CheckOutcome(ctx, old(ctx.event.fields))
  {
    var src, dst := ctx.sourcePath, ctx.destinationPath;
    if src[CheckResult] in ctx.event.fields {
      ctx.event.Set(dst[CheckResult], src[CheckResult]);
    } else {
      CopyIfExist(ctx, CheckStatus);
      CopyIfExist(ctx, CheckReason);
    }
  }

  /** `fillCheckEvent`. */
  method FillCheckEvent(ctx: DecodeCxt, previousResult: string)
    requires ctx.Valid()
    modifies ctx.event
    ensures ctx.event.fields == FillCheck(ctx, old(ctx.event.fields), previousResult)
  {
    TagCheck(ctx, previousResult);
    CopyCheckFields(ctx);
    CheckListsToArrays(ctx);
    CopyOutcome(ctx);
  }
}
