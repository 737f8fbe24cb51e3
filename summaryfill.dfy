/**
 * `FillScanInfo`: the normalised `/sca` fields written for a summary event.
 */
module SummaryFill {
  import opened JsonModel
  import opened ScaFields
  import opened DecodeContext
  import opened CheckFill

  /** The plain copies of `FillScanInfo`, in its order. */
  const SUMMARY_COPY_STEPS: seq<WriteStep> := [
    Copy(ScanId), Copy(Description), Copy(PolicyId), Copy(Passed), Copy(Failed),
    Copy(Invalid), Copy(TotalChecks), Copy(Score), Copy(File)]

  /** All the writes of `FillScanInfo`: the type tag and the name as the policy first. */
  const SUMMARY_STEPS: seq<WriteStep> := [Put(Type, "summary"), CopyFrom(Name, Policy)] + SUMMARY_COPY_STEPS

  /** Every field whose `/sca` path `FillScanInfo` writes. */
  const SUMMARY_FIELDS: set<FieldName> := {
    Type, Policy, ScanId, Description, PolicyId, Passed, Failed, Invalid, TotalChecks, Score, File}

  function SummaryCopies(ctx: DecodeCxt, doc: Document): Document
    requires ctx.Valid()
  {
    var src, dst := ctx.sourcePath, ctx.destinationPath;
    var d1 := ApplyStep(src, dst, doc, Copy(ScanId));
    var d2 := ApplyStep(src, dst, d1, Copy(Description));
    var d3 := ApplyStep(src, dst, d2, Copy(PolicyId));
    var d4 := ApplyStep(src, dst, d3, Copy(Passed));
    var d5 := ApplyStep(src, dst, d4, Copy(Failed));
    var d6 := ApplyStep(src, dst, d5, Copy(Invalid));
    var d7 := ApplyStep(src, dst, d6, Copy(TotalChecks));
    var d8 := ApplyStep(src, dst, d7, Copy(Score));
    var d9 := ApplyStep(src, dst, d8, Copy(File));
    d9
  }

  /** The event after `FillScanInfo`. */
  function FillScanInfo(ctx: DecodeCxt, doc: Document): Document
    requires ctx.Valid()
  {
    var src, dst := ctx.sourcePath, ctx.destinationPath;
    var tagged := ApplyStep(src, dst, doc, Put(Type, "summary"));
    var named := ApplyStep(src, dst, tagged, CopyFrom(Name, Policy));
    SummaryCopies(ctx, named)
  }

  lemma SummaryCopiesAsSteps(ctx: DecodeCxt, doc: Document)
    requires ctx.Valid()
    ensures SummaryCopies(ctx, doc) == ApplySteps(ctx.sourcePath, ctx.destinationPath, doc, SUMMARY_COPY_STEPS)
  {
    var src, dst := ctx.sourcePath, ctx.destinationPath;
    var steps := SUMMARY_COPY_STEPS;
    assert steps[0..] == steps;
    var d0 := doc;
    var d1 := ApplyStep(src, dst, d0, steps[0]);
    StepDone(src, dst, d0, d1, steps, 0);
    var d2 := ApplyStep(src, dst, d1, steps[1]);
    StepDone(src, dst, d1, d2, steps, 1);
    var d3 := ApplyStep(src, dst, d2, steps[2]);
    StepDone(src, dst, d2, d3, steps, 2);
    var d4 := ApplyStep(src, dst, d3, steps[3]);
    StepDone(src, dst, d3, d4, steps, 3);
    var d5 := ApplyStep(src, dst, d4, steps[4]);
    StepDone(src, dst, d4, d5, steps, 4);
    var d6 := ApplyStep(src, dst, d5, steps[5]);
    StepDone(src, dst, d5, d6, steps, 5);
    var d7 := ApplyStep(src, dst, d6, steps[6]);
    StepDone(src, dst, d6, d7, steps, 6);
    var d8 := ApplyStep(src, dst, d7, steps[7]);
    StepDone(src, dst, d7, d8, steps, 7);
    var d9 := ApplyStep(src, dst, d8, steps[8]);
    StepDone(src, dst, d8, d9, steps, 8);
    assert steps[9..] == [];
  }

  /** `FillScanInfo` performs the steps of `SUMMARY_STEPS`, in order. */
  lemma FillScanInfoAsSteps(ctx: DecodeCxt, doc: Document)
    requires ctx.Valid()
    ensures FillScanInfo(ctx, doc) == ApplySteps(ctx.sourcePath, ctx.destinationPath, doc, SUMMARY_STEPS)
  {
    var src, dst := ctx.sourcePath, ctx.destinationPath;
    var head: seq<WriteStep> := [Put(Type, "summary"), CopyFrom(Name, Policy)];
    var tagged := ApplyStep(src, dst, doc, head[0]);
    var named := ApplyStep(src, dst, tagged, head[1]);
    assert head[1..][1..] == [];
    assert ApplySteps(src, dst, doc, head) == ApplySteps(src, dst, tagged, head[1..]);
    assert ApplySteps(src, dst, tagged, head[1..]) == ApplySteps(src, dst, named, head[1..][1..]);
    SummaryCopiesAsSteps(ctx, named);
    ApplyStepsAppend(src, dst, doc, head, SUMMARY_COPY_STEPS);
  }

  /** The position of each written field among the steps of `FillScanInfo`. */
  function SummaryPosition(f: FieldName): int {
    if f == Type then 0 else if f == Policy then 1 else if f == ScanId then 2
    else if f == Description then 3 else if f == PolicyId then 4 else if f == Passed then 5
    else if f == Failed then 6 else if f == Invalid then 7 else if f == TotalChecks then 8
    else if f == Score then 9 else if f == File then 10 else -1
  }

  lemma {:induction false} SummaryStepsShape()
    ensures DistinctTargets(SUMMARY_STEPS)
    ensures forall i :: 0 <= i < |SUMMARY_STEPS| ==> SUMMARY_STEPS[i].field in SUMMARY_FIELDS
  {
    var s := SUMMARY_STEPS;
    assert s == [Put(Type, "summary"), CopyFrom(Name, Policy), Copy(ScanId), Copy(Description), Copy(PolicyId),
                 Copy(Passed), Copy(Failed), Copy(Invalid), Copy(TotalChecks), Copy(Score), Copy(File)];
    forall i | 0 <= i < |s| ensures SummaryPosition(s[i].field) == i && s[i].field in SUMMARY_FIELDS {
    }
    PositionsDistinct(s, SummaryPosition);
  }

  lemma SummaryStepsWrite(src: map<FieldName, string>, dst: map<FieldName, string>, doc: Document)
    requires Complete(src) && Complete(dst) && Injective(dst) && Disjoint(src, dst)
    ensures var r := ApplySteps(src, dst, doc, SUMMARY_STEPS);
      && (forall i :: 0 <= i < |SUMMARY_STEPS| ==>
            Agrees(r, doc, dst[SUMMARY_STEPS[i].field], Written(src, doc, SUMMARY_STEPS[i])))
      && dst[Type] in r && r[dst[Type]] == JString("summary")
      && (src[Name] in doc ==> dst[Policy] in r && r[dst[Policy]] == doc[src[Name]])
      && (forall k :: (forall f :: f in SUMMARY_FIELDS ==> k != dst[f]) ==> SameAt(r, doc, k))
  {
    SummaryStepsShape();
    StepsWrite(src, dst, doc, SUMMARY_STEPS, SUMMARY_FIELDS);
    assert SUMMARY_STEPS[0] == Put(Type, "summary") && SUMMARY_STEPS[1] == CopyFrom(Name, Policy);
  }

  /**
   * What `FillScanInfo` writes, when the incoming SCA object lies apart
   * from `/sca`: "summary" as the type, the policy name as the policy, each
   * copied field's source value when it exists; no path outside the `/sca`
   * paths of `SUMMARY_FIELDS` changes.
   */
  lemma FillScanInfoWrites(ctx: DecodeCxt, doc: Document)
    requires ctx.Valid() && Disjoint(ctx.sourcePath, ctx.destinationPath)
    ensures var r := FillScanInfo(ctx, doc);
      var src, dst := ctx.sourcePath, ctx.destinationPath;
      && (forall i :: 0 <= i < |SUMMARY_STEPS| ==>
            Agrees(r, doc, dst[SUMMARY_STEPS[i].field], Written(src, doc, SUMMARY_STEPS[i])))
      && dst[Type] in r && r[dst[Type]] == JString("summary")
      && (src[Name] in doc ==> dst[Policy] in r && r[dst[Policy]] == doc[src[Name]])
      && (forall k :: (forall f :: f in SUMMARY_FIELDS ==> k != dst[f]) ==> SameAt(r, doc, k))
  {
    ValidInjective(ctx);
    FillScanInfoAsSteps(ctx, doc);
    SummaryStepsWrite(ctx.sourcePath, ctx.destinationPath, doc);
  }

  /**
   * The source path of `hash_file` is never one `FillScanInfo` writes,
   * wherever the incoming SCA object lies: the fifth character from its end
   * is `_`, and it is not in any written `/sca` path.
   */
  lemma HashFileNotWritten(ctx: DecodeCxt, f: FieldName)
    requires ctx.Valid() && f in SUMMARY_FIELDS
    ensures ctx.sourcePath[HashFile] != ctx.destinationPath[f]
  {
    var s, t := ctx.sourcePath[HashFile], ctx.destinationPath[f];
    assert s == ctx.sourcePath[Root] + RelativePath(HashFile);
    assert t == "/sca" + RelativePath(f);
    assert s[|s| - 5] == '_';
    assert f == Type || f == Policy || f == ScanId || f == Description || f == PolicyId || f == Passed
      || f == Failed || f == Invalid || f == TotalChecks || f == Score || f == File;
    assert t[|t| - 5] != '_';
  }

  /** `FillScanInfo` keeps the incoming `hash_file` as it was. */
  lemma FillScanInfoKeepsHashFile(ctx: DecodeCxt, doc: Document)
    requires ctx.Valid()
    ensures SameAt(FillScanInfo(ctx, doc), doc, ctx.sourcePath[HashFile])
  {
    var src, dst := ctx.sourcePath, ctx.destinationPath;
    FillScanInfoAsSteps(ctx, doc);
    SummaryStepsShape();
    forall i | 0 <= i < |SUMMARY_STEPS| ensures src[HashFile] != dst[SUMMARY_STEPS[i].field] {
      HashFileNotWritten(ctx, SUMMARY_STEPS[i].field);
    }
    ApplyStepsFrame(src, dst, doc, SUMMARY_STEPS, src[HashFile]);
  }

  method CopySummaryFields(ctx: DecodeCxt)
    requires ctx.Valid()
    modifies ctx.event
    ensures ctx.event.fields == SummaryCopies(ctx, old(ctx.event.fields))
  {
    CopyIfExist(ctx, ScanId);
    CopyIfExist(ctx, Description);
    CopyIfExist(ctx, PolicyId);
    CopyIfExist(ctx, Passed);
    CopyIfExist(ctx, Failed);
    CopyIfExist(ctx, Invalid);
    CopyIfExist(ctx, TotalChecks);
    CopyIfExist(ctx, Score);
    CopyIfExist(ctx, File);
  }

  /** `FillScanInfo`; the policy name is mandatory in a summary, so it is there to copy. */
  method FillScanInfoIn(ctx: DecodeCxt)
    requires ctx.Valid() && ctx.sourcePath[Name] in ctx.event.fields
    modifies ctx.event
    ensures ctx.event.fields == FillScanInfo(ctx, old(ctx.event.fields))
  {
    ctx.event.SetString("summary", ctx.destinationPath[Type]);
    ctx.event.Set(ctx.destinationPath[Policy], ctx.sourcePath[Name]);
    CopySummaryFields(ctx);
  }
}
