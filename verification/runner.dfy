/**
 * What one call of `process_image`, and one pass of `run_once`, leaves in
 * the output directory, stated as functions of what the environment answers.
 */
module Runner {
  import opened Wrappers
  import opened Paths
  import opened Scanner
  import opened Results
  import opened Report

  /**
   * What the environment answers when an image is processed: the backend's
   * reply, the ISO-8601 time `analyze_image` stamps, and the
   * `YYYYMMDD_HHMMSS` time `save_analysis` names the files with.
   */
  datatype Observation = Observation(reply: Reply, analyzedAt: string, savedAt: string)

  /** Whether an operation returned normally or raised a KeyError for the named key. */
  datatype Status = Ok | Raised(missingKey: string)

  /** The report files written so far, by file name in the output directory. */
  datatype Outputs = Outputs(texts: map<string, string>, records: map<string, Record>)

  /** What `save_analysis` leaves behind, and whether it raised. */
  function Save(out: Outputs, result: AnalysisResult, savedAt: string): (Outputs, Status)
  {
    var textName := TextName(result.imageName, savedAt);
    match RenderAsWritten(result)
    case Complete(text) =>
      (Outputs(out.texts[textName := text], out.records[JsonName(result.imageName, savedAt) := ToRecord(result)]), Ok)
    case Interrupted(partial, key) =>
      (Outputs(out.texts[textName := partial], out.records), Raised(key))
  }

  /**
   * A successful result gets its intended report and its record; a failure
   * raises KeyError('model') with only the header in its text file and no
   * record written.
   */
  lemma SaveEffect(out: Outputs, result: AnalysisResult, savedAt: string)
    ensures var (out', status) := Save(out, result, savedAt);
      && (status == Ok <==> result.Success?)
      && (status == Ok ==>
            out' == Outputs(out.texts[TextName(result.imageName, savedAt) := Render(result)],
                            out.records[JsonName(result.imageName, savedAt) := ToRecord(result)]))
      && (status.Raised? ==>
            && status.missingKey == ModelKey
            && out' == Outputs(out.texts[TextName(result.imageName, savedAt) := Header(result)], out.records))
  {
    if result.Success? {
      AsWrittenAgreesOnSuccess(result);
    }
  }

  lemma SaveRecordNames(out: Outputs, result: AnalysisResult, savedAt: string)
    ensures Save(out, result, savedAt).0.records.Keys ==
      if result.Success? then out.records.Keys + {JsonName(result.imageName, savedAt)} else out.records.Keys
  {
    SaveEffect(out, result, savedAt);
  }

  /** The analysis and save of `process_image` for one image. */
  function Process(out: Outputs, model: string, imagePath: string, obs: Observation): (Outputs, Status)
  {
    Save(out, AnalyzeImage(imagePath, model, obs.reply, obs.analyzedAt), obs.savedAt)
  }

  /**
   * `process_image` returns normally exactly when the backend answered; a
   * backend error ends it with KeyError('model').
   */
  lemma ProcessStatus(out: Outputs, model: string, imagePath: string, obs: Observation)
    ensures Process(out, model, imagePath, obs).1 == Ok <==> obs.reply.Answer?
    ensures Process(out, model, imagePath, obs).1.Raised? ==> Process(out, model, imagePath, obs).1.missingKey == ModelKey
  {
    SaveEffect(out, AnalyzeImage(imagePath, model, obs.reply, obs.analyzedAt), obs.savedAt);
  }

  /** How many of the first `n` answers come before the first backend error. */
  function FirstError(answers: nat -> Observation, n: nat): (k: nat)
    ensures k <= n
    ensures forall i :: 0 <= i < k ==> answers(i).reply.Answer?
    ensures k < n ==> answers(k).reply.Error?
  {
    if n == 0 then 0
    else
      var k := FirstError(answers, n - 1);
      if k < n - 1 then k
      else if answers(n - 1).reply.Error? then n - 1
      else n
  }

  /** The contract of FirstError pins it down: it is the index of the first error, or n. */
  lemma FirstErrorUnique(answers: nat -> Observation, n: nat, k: nat)
    requires k <= n
    requires forall i :: 0 <= i < k ==> answers(i).reply.Answer?
    requires k < n ==> answers(k).reply.Error?
    ensures FirstError(answers, n) == k
  {
  }

  /** The number of `process_image` calls a pass makes: up to and including the first that raises. */
  function Calls(firstError: nat, n: nat): nat
  {
    if firstError < n then firstError + 1 else n
  }

  /** The outputs after the first `n` images of a pass have been processed. */
  function RunOutputs(out: Outputs, model: string, images: seq<Entry>, answers: nat -> Observation, n: nat): Outputs
    requires n <= |images|
    decreases n, 0
  {
    if n == 0 then out else OutputsAfter(out, model, images, answers, n - 1)
  }

  /**
   * The outputs once image `i` of a pass has been processed.  It only names
   * the step: with the extra level, the default two unfoldings of RunOutputs
   * stop short of the definition of Process.
   */
  function OutputsAfter(out: Outputs, model: string, images: seq<Entry>, answers: nat -> Observation, i: nat): Outputs
    requires i < |images|
    decreases i, 2
  {
    ProcessInPass(out, model, images, answers, i)
  }

  /** `process_image` on image `i`, given what the images before it left. */
  function ProcessInPass(out: Outputs, model: string, images: seq<Entry>, answers: nat -> Observation, i: nat): Outputs
    requires i < |images|
    decreases i, 1
  {
    Process(RunOutputs(out, model, images, answers, i), model, images[i].path, answers(i)).0
  }

  /** Processing one more image applies Process to what the earlier images left. */
  lemma RunOutputsNext(out: Outputs, model: string, images: seq<Entry>, answers: nat -> Observation, n: nat)
    requires 0 < n <= |images|
    ensures RunOutputs(out, model, images, answers, n)
         == Process(RunOutputs(out, model, images, answers, n - 1), model, images[n - 1].path, answers(n - 1)).0
  {
    assert OutputsAfter(out, model, images, answers, n - 1) == ProcessInPass(out, model, images, answers, n - 1);
  }

  /** The name of the JSON record `save_analysis` would write for each image of a pass. */
  function SavedNames(images: seq<Entry>, answers: nat -> Observation): (names: seq<string>)
    ensures |names| == |images|
  {
    seq(|images|, i requires 0 <= i < |images| => JsonName(Name(images[i].path), answers(i).savedAt))
  }

  /** Entry `i` of SavedNames is the JSON name for image `i` and its clock reading. */
  lemma SavedNameAt(images: seq<Entry>, answers: nat -> Observation, i: nat)
    requires i < |images|
    ensures SavedNames(images, answers)[i] == JsonName(Name(images[i].path), answers(i).savedAt)
  {
  }

  /** The record names present after the first `n` images: each answered image adds its own. */
  function RecordKeys(base: set<string>, names: seq<string>, answers: nat -> Observation, n: nat): set<string>
    requires n <= |names|
  {
    if n == 0 then base
    else
      var before := RecordKeys(base, names, answers, n - 1);
      if answers(n - 1).reply.Answer? then before + {names[n - 1]} else before
  }

  lemma RunOutputsRecordKeys(out: Outputs, model: string, images: seq<Entry>, answers: nat -> Observation, n: nat)
    requires n <= |images|
    ensures RunOutputs(out, model, images, answers, n).records.Keys
         == RecordKeys(out.records.Keys, SavedNames(images, answers), answers, n)
  {
    var i := 0;
    while i < n
      invariant i <= n
      invariant RunOutputs(out, model, images, answers, i).records.Keys
             == RecordKeys(out.records.Keys, SavedNames(images, answers), answers, i)
    {
      i := i + 1;
      RunOutputsRecordKeysStep(out, model, images, answers, SavedNames(images, answers), i);
    }
  }

  /** One more image adds its record name exactly when the backend answered it. */
  lemma RunOutputsRecordKeysStep(out: Outputs, model: string, images: seq<Entry>, answers: nat -> Observation,
                                 names: seq<string>, n: nat)
    requires 0 < n <= |images|
    requires names == SavedNames(images, answers)
    requires RunOutputs(out, model, images, answers, n - 1).records.Keys == RecordKeys(out.records.Keys, names, answers, n - 1)
    ensures RunOutputs(out, model, images, answers, n).records.Keys == RecordKeys(out.records.Keys, names, answers, n)
  {
    RunOutputsKeysNext(out, model, images, answers, n);
  }

  /** Image `n - 1` of a pass adds its entry of SavedNames exactly when the backend answered it. */
  lemma RunOutputsKeysNext(out: Outputs, model: string, images: seq<Entry>, answers: nat -> Observation, n: nat)
    requires 0 < n <= |images|
    ensures RunOutputs(out, model, images, answers, n).records.Keys
         == if answers(n - 1).reply.Answer?
            then RunOutputs(out, model, images, answers, n - 1).records.Keys + {SavedNames(images, answers)[n - 1]}
            else RunOutputs(out, model, images, answers, n - 1).records.Keys
  {
    RunOutputsJsonNext(out, model, images, answers, n);
    SavedNameAt(images, answers, n - 1);
  }

  /** Image `n - 1` of a pass adds its JSON record exactly when the backend answered it. */
  lemma RunOutputsJsonNext(out: Outputs, model: string, images: seq<Entry>, answers: nat -> Observation, n: nat)
    requires 0 < n <= |images|
    ensures RunOutputs(out, model, images, answers, n).records.Keys
         == if answers(n - 1).reply.Answer?
            then RunOutputs(out, model, images, answers, n - 1).records.Keys + {JsonName(Name(images[n - 1].path), answers(n - 1).savedAt)}
            else RunOutputs(out, model, images, answers, n - 1).records.Keys
  {
    RunOutputsNext(out, model, images, answers, n);
    ProcessRecordKeys(RunOutputs(out, model, images, answers, n - 1), model, images[n - 1].path, answers(n - 1));
  }

  /** `process_image` adds the image's JSON record exactly when the backend answered. */
  lemma ProcessRecordKeys(out: Outputs, model: string, imagePath: string, obs: Observation)
    ensures Process(out, model, imagePath, obs).0.records.Keys
         == if obs.reply.Answer? then out.records.Keys + {JsonName(Name(imagePath), obs.savedAt)} else out.records.Keys
  {
    SaveRecordNames(out, AnalyzeImage(imagePath, model, obs.reply, obs.analyzedAt), obs.savedAt);
  }

  lemma {:induction false} RecordKeysBeforeError(base: set<string>, names: seq<string>, answers: nat -> Observation, n: nat)
    requires n <= |names|
    requires forall i :: 0 <= i && i + 1 < n ==> answers(i).reply.Answer?
    ensures RecordKeys(base, names, answers, n) == base + set x | x in names[..FirstError(answers, n)]
  {
    if n > 0 {
      RecordKeysBeforeError(base, names, answers, n - 1);
      FirstErrorAfterAnswers(answers, n);
      assert names[..n] == names[..n - 1] + [names[n - 1]];
    }
  }

  /**
   * A pass that stops at its first error leaves a JSON record for exactly the
   * images processed before that error, and keeps every record it found.
   */
  lemma RunRecords(out: Outputs, model: string, images: seq<Entry>, answers: nat -> Observation, n: nat)
    requires n <= |images|
    requires forall i :: 0 <= i && i + 1 < n ==> answers(i).reply.Answer?
    ensures RunOutputs(out, model, images, answers, n).records.Keys
         == out.records.Keys + set x | x in SavedNames(images, answers)[..FirstError(answers, n)]
  {
    RunOutputsRecordKeys(out, model, images, answers, n);
    RecordKeysBeforeError(out.records.Keys, SavedNames(images, answers), answers, n);
  }

  /** When every answer before the last one succeeded, the last one decides FirstError. */
  lemma FirstErrorAfterAnswers(answers: nat -> Observation, n: nat)
    requires 0 < n
    requires forall i :: 0 <= i && i + 1 < n ==> answers(i).reply.Answer?
    ensures FirstError(answers, n - 1) == n - 1
    ensures FirstError(answers, n) == if answers(n - 1).reply.Answer? then n else n - 1
  {
    FirstErrorUnique(answers, n - 1, n - 1);
    if answers(n - 1).reply.Answer? {
      FirstErrorUnique(answers, n, n);
    } else {
      FirstErrorUnique(answers, n, n - 1);
    }
  }

  // ---------------------------------------------------------------------
  // The pass as evidently intended: a failure is reported and marked too.

  /**
   * The save `save_analysis` evidently intends: the intended report and the
   * record, for a failure as for a success.
   */
  function SaveIntended(out: Outputs, result: AnalysisResult, savedAt: string): Outputs
  {
    Outputs(out.texts[TextName(result.imageName, savedAt) := Render(result)],
            out.records[JsonName(result.imageName, savedAt) := ToRecord(result)])
  }

  /** On a success the intended save is the save as written. */
  lemma SaveIntendedAgreesOnSuccess(out: Outputs, result: AnalysisResult, savedAt: string)
    requires result.Success?
    ensures Save(out, result, savedAt) == (SaveIntended(out, result, savedAt), Ok)
  {
    SaveEffect(out, result, savedAt);
  }

  /**
   * On a failure the intended save writes a report that ends with the
   * `ERROR:` line, and the failure's record, where the save as written raises.
   */
  lemma SaveIntendedReportsFailure(out: Outputs, result: AnalysisResult, savedAt: string)
    requires result.Failure?
    ensures var out' := SaveIntended(out, result, savedAt);
            && EndsWith(out'.texts[TextName(result.imageName, savedAt)], ErrorLine(result.error))
            && out'.records[JsonName(result.imageName, savedAt)] == ToRecord(result)
            && FromRecord(out'.records[JsonName(result.imageName, savedAt)]) == Some(result)
    ensures Save(out, result, savedAt).1 == Raised(ModelKey)
  {
    RecordRoundTrip(result);
    SaveEffect(out, result, savedAt);
  }

  /** The processed set and the report files during a pass. */
  datatype PassState = PassState(processed: set<string>, out: Outputs)

  /**
   * The loop of `run_once` as evidently intended: every image of the scan is
   * analysed, saved with SaveIntended and then marked, whatever the backend
   * answered.
   */
  function IntendedPass(s: PassState, model: string, images: seq<Entry>, answers: nat -> Observation, n: nat): PassState
    requires n <= |images|
  {
    PassState(IntendedMarked(s.processed, images, n), IntendedOutputs(s.out, model, images, answers, n))
  }

  /** The paths the intended pass has marked after `n` images. */
  function IntendedMarked(processed: set<string>, images: seq<Entry>, n: nat): set<string>
    requires n <= |images|
  {
    if n == 0 then processed else IntendedMarked(processed, images, n - 1) + {images[n - 1].path}
  }

  /** The report files the intended pass has written after `n` images. */
  function IntendedOutputs(out: Outputs, model: string, images: seq<Entry>, answers: nat -> Observation, n: nat): Outputs
    requires n <= |images|
  {
    if n == 0 then out
    else
      var obs := answers(n - 1);
      SaveIntended(IntendedOutputs(out, model, images, answers, n - 1),
                   AnalyzeImage(images[n - 1].path, model, obs.reply, obs.analyzedAt), obs.savedAt)
  }

  /** The intended pass marks every image it has processed. */
  lemma {:induction false} IntendedPassMarks(processed: set<string>, images: seq<Entry>, n: nat)
    requires n <= |images|
    ensures IntendedMarked(processed, images, n) == processed + PathsOf(images[..n])
  {
    if n > 0 {
      IntendedPassMarks(processed, images, n - 1);
      assert images[..n] == images[..n - 1] + [images[n - 1]];
    }
  }

  /**
   * `run_once` as evidently intended is idempotent with no condition on the
   * backend: after it, a rescan of the same listing finds nothing.
   */
  lemma IntendedRunOnceFindsNothing(listing: seq<Entry>, formats: seq<string>, s: PassState, model: string,
                                    answers: nat -> Observation)
    ensures var images := Scan(listing, formats, s.processed);
            Scan(listing, formats, IntendedPass(s, model, images, answers, |images|).processed) == []
  {
    var images := Scan(listing, formats, s.processed);
    IntendedPassMarks(s.processed, images, |images|);
    assert images[..|images|] == images;
    RescanFindsNothing(listing, formats, s.processed);
  }
}
