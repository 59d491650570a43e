/**
 * `ImageAnalysisAgent`: the object that owns the processed-images set, the
 * processed-images log and the report files, and the operations that change
 * them one step at a time.
 */
module Agent {
  import opened Wrappers
  import opened Scanner
  import opened Results
  import opened Report
  import opened ProcessedLog
  import opened Runner

  class ImageAnalysisAgent {
    const watchDirectory: string
    const outputDirectory: string
    const model: string
    const checkInterval: int
    const supportedFormats: seq<string>

    /** The path strings already analysed. */
    var processedImages: set<string>
    /** The contents of `processed_images.json`; None while the file does not exist. */
    var processedLog: Option<Document>
    /** The report files in the output directory. */
    var outputs: Outputs

    /** The log on disk reloads to the set held in memory. */
    ghost predicate Consistent()
      reads this
    {
      Loaded(processedLog, {}) == processedImages
    }

    /**
     * The constructor, given what the output directory already holds: the
     * processed set starts empty and is then replaced by the log's entries
     * when a log exists.
     */
    constructor (watchDirectory: string, outputDirectory: string, model: string, checkInterval: int,
                 supportedFormats: Option<seq<string>>, existingLog: Option<Document>, existingOutputs: Outputs)
      ensures this.watchDirectory == watchDirectory && this.outputDirectory == outputDirectory
      ensures this.model == model && this.checkInterval == checkInterval
      ensures this.supportedFormats == FormatsOrDefault(supportedFormats)
      ensures processedLog == existingLog && outputs == existingOutputs
      ensures processedImages == Loaded(existingLog, {})
      ensures Consistent()
    {
      this.watchDirectory := watchDirectory;
      this.outputDirectory := outputDirectory;
      this.model := model;
      this.checkInterval := checkInterval;
      this.supportedFormats := FormatsOrDefault(supportedFormats);
      processedImages := {};
      processedLog := existingLog;
      outputs := existingOutputs;
      new;
      LoadProcessedImages();
    }

    /** `_load_processed_images`: replaces the set by the log's entries when the log exists. */
    method LoadProcessedImages()
      modifies this`processedImages
      ensures processedImages == Loaded(processedLog, old(processedImages))
      ensures old(Consistent()) ==> Consistent()
    {
      match processedLog
      case None =>
      case Some(doc) =>
        if ProcessedKey in doc {
          processedImages := set x | x in doc[ProcessedKey];
        } else {
          processedImages := {};
        }
    }

    /** `_save_processed_images`: writes `{'processed': [...]}` listing the set in some order. */
    method SaveProcessedImages()
      modifies this`processedLog
      ensures processedLog.Some? && processedLog.value.Keys == {ProcessedKey}
      ensures Enumerates(processedLog.value[ProcessedKey], processedImages)
      ensures Consistent()
    {
      var xs := ListOf(processedImages);
      processedLog := Some(Saved(xs));
      LoadAfterSave(xs, processedImages, {});
    }

    /**
     * `scan_for_new_images`, given the directory listing `iterdir` yields:
     * the new images in listing order, then stably sorted by modification time.
     */
    method ScanForNewImages(listing: seq<Entry>) returns (images: seq<Entry>)
      ensures images == Scan(listing, supportedFormats, processedImages)
    {
      var newImages := [];
      var i := 0;
      while i < |listing|
        invariant i <= |listing|
        invariant newImages == SelectNew(listing[..i], supportedFormats, processedImages)
      {
        var filePath := listing[i];
        SelectNewSnoc(listing, i, supportedFormats, processedImages);
        if IsImage(filePath, supportedFormats) {
          if filePath.path !in processedImages {
            newImages := newImages + [filePath];
          }
        }
        i := i + 1;
      }
      assert listing[..i] == listing;
      images := SortByMtime(newImages);
    }

    /**
     * `save_analysis` for a result, with `savedAt` the clock reading that
     * names both files.  The text file is written line by line; reading the
     * model of a failure result raises KeyError('model') after the header,
     * so neither the rest of the text nor the JSON record is written.
     */
    method SaveAnalysis(result: AnalysisResult, savedAt: string) returns (status: Status)
      modifies this`outputs
      ensures (outputs, status) == Save(old(outputs), result, savedAt)
    {
      var outputFile := TextName(result.imageName, savedAt);
      var jsonFile := JsonName(result.imageName, savedAt);
      var record := ToRecord(result);
      var text := Title;
      text := text + Rule(RuleWidth) + "\n\n";
      text := text + "Image: " + result.imageName + "\n";
      text := text + "Analyzed: " + result.timestamp + "\n";
      assert text == Header(result);
      ModelKeyOnlyOnSuccess(result);
      if ModelKey !in record {
        outputs := outputs.(texts := outputs.texts[outputFile := text]);
        status := Raised(ModelKey);
        return;
      }
      text := text + ModelBlock(result.model);
      // The `ERROR:` branch of the report is never reached: a failure result
      // has already raised on its missing model above.
      if result.Success? {
        text := text + "DETAILED ANALYSIS:\n\n";
        text := text + AnalysisTail(result.analysis, result.tokensUsed);
      }
      outputs := Outputs(outputs.texts[outputFile := text], outputs.records[jsonFile := record]);
      status := Ok;
    }

    /**
     * `process_image`: analyse, save, then mark the path processed and
     * rewrite the log; a raising save leaves the path unmarked.
     */
    method ProcessImage(imagePath: string, obs: Observation) returns (status: Status)
      modifies this`outputs, this`processedImages, this`processedLog
      ensures (outputs, status) == Process(old(outputs), model, imagePath, obs)
      ensures status == Ok <==> obs.reply.Answer?
      ensures status.Raised? ==> status.missingKey == ModelKey
      ensures status == Ok ==> processedImages == old(processedImages) + {imagePath} && Consistent()
      ensures status.Raised? ==> processedImages == old(processedImages) && processedLog == old(processedLog)
    {
      var result := AnalyzeImage(imagePath, model, obs.reply, obs.analyzedAt);
      status := SaveAnalysis(result, obs.savedAt);
      ProcessStatus(old(outputs), model, imagePath, obs);
      if status.Raised? {
        return;
      }
      processedImages := processedImages + {imagePath};
      SaveProcessedImages();
    }

    /**
     * One iteration of the loop of `run_once`: `process_image` on image `i`
     * of the pass, once the images before it have been processed.
     */
    method ProcessEntry(ghost start: Outputs, images: seq<Entry>, answers: nat -> Observation, i: nat) returns (status: Status)
      requires i < |images|
      requires outputs == RunOutputs(start, model, images, answers, i)
      modifies this`outputs, this`processedImages, this`processedLog
      ensures outputs == RunOutputs(start, model, images, answers, i + 1)
      ensures status == Ok <==> answers(i).reply.Answer?
      ensures status.Raised? ==> status.missingKey == ModelKey
      ensures status == Ok ==> processedImages == old(processedImages) + {images[i].path} && Consistent()
      ensures status.Raised? ==> processedImages == old(processedImages) && processedLog == old(processedLog)
    {
      RunOutputsNext(start, model, images, answers, i + 1);
      status := ProcessImage(images[i].path, answers(i));
    }

    /**
     * The loop of `run_once` over the images of one scan: each is processed
     * in order, and the first that raises ends the pass.  Exactly the images
     * before the first backend error are marked processed.
     */
    method ProcessAll(images: seq<Entry>, answers: nat -> Observation) returns (status: Status)
      modifies this`outputs, this`processedImages, this`processedLog
      ensures var k := FirstError(answers, |images|);
              && (status == Ok <==> k == |images|)
              && (status.Raised? ==> status.missingKey == ModelKey)
              && processedImages == old(processedImages) + PathsOf(images[..k])
              && outputs == RunOutputs(old(outputs), model, images, answers, Calls(k, |images|))
              && (k == 0 ==> processedLog == old(processedLog))
              && (k > 0 ==> Consistent())
    {
      var i := 0;
      status := Ok;
      while i < |images|
        invariant i <= |images|
        invariant status == Ok
        invariant forall j :: 0 <= j < i ==> answers(j).reply.Answer?
        invariant processedImages == old(processedImages) + PathsOf(images[..i])
        invariant outputs == RunOutputs(old(outputs), model, images, answers, i)
        invariant i == 0 ==> processedLog == old(processedLog)
        invariant i > 0 ==> Consistent()
      {
        status := ProcessEntry(old(outputs), images, answers, i);
        if status.Raised? {
          FirstErrorUnique(answers, |images|, i);
          return;
        }
        PathsOfSnoc(images, i);
        i := i + 1;
      }
      FirstErrorUnique(answers, |images|, |images|);
      assert images[..|images|] == images;
    }

    /**
     * `run_once`, given the listing and the k-th backend answer and clock
     * readings of the pass: scan, return at once when nothing is new,
     * otherwise process the new images.  A pass without error leaves nothing
     * new to find in the same listing.
     */
    method RunOnce(listing: seq<Entry>, answers: nat -> Observation) returns (status: Status)
      modifies this`outputs, this`processedImages, this`processedLog
      ensures var images := Scan(listing, supportedFormats, old(processedImages));
              var k := FirstError(answers, |images|);
              && (status == Ok <==> k == |images|)
              && (status.Raised? ==> status.missingKey == ModelKey)
              && processedImages == old(processedImages) + PathsOf(images[..k])
              && outputs == RunOutputs(old(outputs), model, images, answers, Calls(k, |images|))
              && (k == 0 ==> processedLog == old(processedLog))
              && (k > 0 ==> Consistent())
      ensures status == Ok ==> Scan(listing, supportedFormats, processedImages) == []
    {
      var newImages := ScanForNewImages(listing);
      if newImages == [] {
        status := Ok;
        return;
      }
      ghost var before := processedImages;
      status := ProcessAll(newImages, answers);
      if status == Ok {
        assert newImages[..|newImages|] == newImages;
        RescanFindsNothing(listing, supportedFormats, before);
      }
    }
  }

  /** Extending a prefix by one entry adds that entry's path. */
  lemma PathsOfSnoc(s: seq<Entry>, i: nat)
    requires i < |s|
    ensures PathsOf(s[..i + 1]) == PathsOf(s[..i]) + {s[i].path}
  {
    assert s[..i + 1] == s[..i] + [s[i]];
  }

  /** Scanning one more entry appends it exactly when it is a new image. */
  lemma SelectNewSnoc(listing: seq<Entry>, i: nat, formats: seq<string>, processed: set<string>)
    requires i < |listing|
    ensures SelectNew(listing[..i + 1], formats, processed)
         == SelectNew(listing[..i], formats, processed) + (if IsNew(listing[i], formats, processed) then [listing[i]] else [])
  {
    assert listing[..i + 1][..i] == listing[..i];
  }
}
