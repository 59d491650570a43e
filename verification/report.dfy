/**
 * `save_analysis`: the names of the two output files and the layout of the
 * plain-text report.
 */
module Report {
  import opened Paths
  import opened Results

  const Title := "Image Analysis Report\n"

  /** Width of the `=` separator lines. */
  const RuleWidth := 80

  /** The model line shows this for a result that carries no model (the corrected report). */
  const MissingModel := "N/A"

  /** `'=' * n`. */
  function Rule(n: nat): (r: string)
    ensures |r| == n
    ensures forall i :: 0 <= i < n ==> r[i] == '='
  {
    seq(n, _ => '=')
  }

  predicate EndsWith(text: string, tail: string)
  {
    |tail| <= |text| && text[|text| - |tail|..] == tail
  }

  // ---------------------------------------------------------------------
  // Decimal numbers, as the f-string prints the token count.

  function DigitChar(d: nat): char
    requires d < 10
  {
    "0123456789"[d]
  }

  function NatToString(n: nat): (s: string)
    ensures s != []
    ensures forall i :: 0 <= i < |s| ==> '0' <= s[i] <= '9'
  {
    if n < 10 then [DigitChar(n)] else NatToString(n / 10) + [DigitChar(n % 10)]
  }

  function ParseNat(s: string): nat
  {
    if s == [] then 0
    else
      var d := s[|s| - 1] as int - '0' as int;
      ParseNat(s[..|s| - 1]) * 10 + (if 0 <= d then d else 0)
  }

  /** The printed token count reads back as the count. */
  lemma {:induction false} NatToStringRoundTrip(n: nat)
    ensures ParseNat(NatToString(n)) == n
  {
    if n >= 10 {
      NatToStringRoundTrip(n / 10);
      var s := NatToString(n);
      assert s[..|s| - 1] == NatToString(n / 10);
    }
  }

  // ---------------------------------------------------------------------
  // Output file names.

  /** `f"{stem}_{timestamp}_analysis"`, the common part of both output names. */
  function AnalysisPrefix(imageName: string, savedAt: string): string
  {
    Stem(Name(imageName)) + "_" + savedAt + "_analysis"
  }

  /** `output_directory / f"{prefix}.{extension}"`. */
  function OutputName(imageName: string, savedAt: string, extension: string): string
  {
    AnalysisPrefix(imageName, savedAt) + "." + extension
  }

  function TextName(imageName: string, savedAt: string): string
  {
    OutputName(imageName, savedAt, "txt")
  }

  function JsonName(imageName: string, savedAt: string): string
  {
    OutputName(imageName, savedAt, "json")
  }

  /**
   * An output name parses back as a file directly in the output directory
   * whose stem is the shared prefix and whose suffix is the extension.
   */
  lemma OutputNameParses(imageName: string, savedAt: string, extension: string)
    requires '/' !in savedAt
    requires extension != [] && '.' !in extension && '/' !in extension
    ensures Name(OutputName(imageName, savedAt, extension)) == OutputName(imageName, savedAt, extension)
    ensures Stem(OutputName(imageName, savedAt, extension)) == AnalysisPrefix(imageName, savedAt)
    ensures Suffix(OutputName(imageName, savedAt, extension)) == "." + extension
  {
    var prefix := AnalysisPrefix(imageName, savedAt);
    var stem := Stem(Name(imageName));
    assert '/' !in stem by {
      assert stem + Suffix(Name(imageName)) == Name(imageName);
      assert forall i :: 0 <= i < |stem| ==> stem[i] == Name(imageName)[i];
    }
    assert '/' !in prefix;
    SuffixOfJoin(prefix, extension);
    NameOfPlain(prefix + "." + extension);
  }

  /** The text and the JSON file of one save never clobber each other. */
  lemma TextAndJsonNamesDiffer(imageName: string, savedAt: string)
    requires '/' !in savedAt
    ensures TextName(imageName, savedAt) != JsonName(imageName, savedAt)
  {
    OutputNameParses(imageName, savedAt, "txt");
    OutputNameParses(imageName, savedAt, "json");
  }

  /** With timestamps of one fixed width, an output name determines the stem and the timestamp. */
  lemma OutputNameDeterminesStemAndTime(name1: string, time1: string, name2: string, time2: string, extension: string)
    requires |time1| == |time2|
    requires OutputName(name1, time1, extension) == OutputName(name2, time2, extension)
    ensures Stem(Name(name1)) == Stem(Name(name2)) && time1 == time2
  {
    FixedWidthSplit(Stem(Name(name1)), time1, Stem(Name(name2)), time2, extension);
  }

  lemma FixedWidthSplit(s1: string, t1: string, s2: string, t2: string, extension: string)
    requires |t1| == |t2|
    requires s1 + "_" + t1 + "_analysis" + "." + extension == s2 + "_" + t2 + "_analysis" + "." + extension
    ensures s1 == s2 && t1 == t2
  {
    var w := s1 + "_" + t1 + "_analysis" + "." + extension;
    assert |s1| == |s2|;
    assert s1 == w[..|s1|] && s2 == w[..|s2|];
    assert t1 == w[|s1| + 1..|s1| + 1 + |t1|];
    assert t2 == w[|s2| + 1..|s2| + 1 + |t2|];
  }

  /**
   * Two images that differ only in extension, saved in the same second, get
   * the same output names: the later report replaces the earlier one.
   */
  lemma SameStemSameSecondCollide(base: string, ext1: string, ext2: string, savedAt: string)
    requires base != [] && ext1 != [] && ext2 != [] && '.' !in ext1 && '.' !in ext2
    requires '/' !in base && '/' !in ext1 && '/' !in ext2
    ensures TextName(base + "." + ext1, savedAt) == TextName(base + "." + ext2, savedAt)
    ensures JsonName(base + "." + ext1, savedAt) == JsonName(base + "." + ext2, savedAt)
  {
    SuffixOfJoin(base, ext1);
    SuffixOfJoin(base, ext2);
    NameOfPlain(base + "." + ext1);
    NameOfPlain(base + "." + ext2);
  }

  // ---------------------------------------------------------------------
  // The report text.

  /** Everything written before the model line: title, separator, image name and analysis time. */
  function Header(result: AnalysisResult): string
  {
    Title + Rule(RuleWidth) + "\n\n" + "Image: " + result.imageName + "\n" + "Analyzed: " + result.timestamp + "\n"
  }

  function ModelBlock(model: string): string
  {
    "Model: " + model + "\n" + "\n" + Rule(RuleWidth) + "\n\n"
  }

  function TokensLine(tokens: nat): string
  {
    "Tokens used: " + NatToString(tokens) + "\n"
  }

  /** The closing part of a success report: the analysis text, a separator and the token count. */
  function AnalysisTail(analysis: string, tokens: nat): string
  {
    analysis + "\n\n" + Rule(RuleWidth) + "\n" + TokensLine(tokens)
  }

  function ErrorLine(error: string): string
  {
    "ERROR: " + error + "\n"
  }

  lemma EndsWithAppend(a: string, b: string)
    ensures EndsWith(a + b, b)
  {
    assert (a + b)[|a + b| - |b|..] == b;
  }

  /** Appending keeps a prefix a prefix. */
  lemma PrefixOfAppend(p: string, a: string, b: string)
    requires p <= a
    ensures p <= a + b
  {
    assert (a + b)[..|a|] == a;
  }

  /** Every report starts with the title and the first separator line. */
  lemma HeaderStartsWithBanner(result: AnalysisResult)
    ensures Title + Rule(RuleWidth) + "\n" <= Header(result)
  {
    var banner := Title + Rule(RuleWidth) + "\n";
    assert Header(result) == banner + ("\n" + "Image: " + result.imageName + "\n" + "Analyzed: " + result.timestamp + "\n");
    PrefixOfAppend(banner, banner, "\n" + "Image: " + result.imageName + "\n" + "Analyzed: " + result.timestamp + "\n");
  }

  /**
   * The report `save_analysis` evidently intends to write: the same layout
   * for both kinds of result, a failure showing `N/A` as its model and its
   * error on an `ERROR:` line.
   */
  function Render(result: AnalysisResult): (text: string)
    ensures Title + Rule(RuleWidth) + "\n" <= text
    ensures result.Success? ==> EndsWith(text, AnalysisTail(result.analysis, result.tokensUsed))
    ensures result.Failure? ==> EndsWith(text, ErrorLine(result.error))
  {
    var head := Header(result);
    HeaderStartsWithBanner(result);
    match result
    case Success(_, _, _, analysis, model, tokens) =>
      var body := head + ModelBlock(model) + "DETAILED ANALYSIS:\n\n";
      PrefixOfAppend(Title + Rule(RuleWidth) + "\n", head, ModelBlock(model) + "DETAILED ANALYSIS:\n\n" + AnalysisTail(analysis, tokens));
      EndsWithAppend(body, AnalysisTail(analysis, tokens));
      body + AnalysisTail(analysis, tokens)
    case Failure(_, _, _, error) =>
      var body := head + ModelBlock(MissingModel);
      PrefixOfAppend(Title + Rule(RuleWidth) + "\n", head, ModelBlock(MissingModel) + ErrorLine(error));
      EndsWithAppend(body, ErrorLine(error));
      body + ErrorLine(error)
  }

  /** How far the write sequence of `save_analysis` gets. */
  datatype Rendering = Complete(text: string) | Interrupted(partial: string, missingKey: string)

  /**
   * The report as `save_analysis` is written: it reads `result['model']`
   * before it looks at `result['success']`, so a failure result stops it with
   * a KeyError once the header lines are written.
   */
  function RenderAsWritten(result: AnalysisResult): (r: Rendering)
    ensures r.Interrupted? <==> ModelKey !in ToRecord(result)
    ensures r.Interrupted? ==> r.missingKey == ModelKey && r.partial == Header(result)
  {
    ModelKeyOnlyOnSuccess(result);
    match result
    case Success(_, _, _, analysis, model, tokens) =>
      Complete(Header(result) + ModelBlock(model) + "DETAILED ANALYSIS:\n\n" + AnalysisTail(analysis, tokens))
    case Failure(_, _, _, _) =>
      Interrupted(Header(result), ModelKey)
  }

  /** On a successful result the code as written produces the intended report. */
  lemma AsWrittenAgreesOnSuccess(result: AnalysisResult)
    requires result.Success?
    ensures RenderAsWritten(result) == Complete(Render(result))
  {
  }

  /**
   * For every failure result the code as written stops before the model
   * line, so the `ERROR:` line that ends the intended report is never written.
   */
  lemma {:induction false} FailureNeverReachesErrorLine(result: AnalysisResult)
    requires result.Failure?
    ensures RenderAsWritten(result).Interrupted?
    ensures Render(result) == RenderAsWritten(result).partial + ModelBlock(MissingModel) + ErrorLine(result.error)
    ensures |RenderAsWritten(result).partial| < |Render(result)|
  {
    ModelKeyOnlyOnSuccess(result);
  }

  /** A concrete case: a backend timeout on `photo.png` leaves only the header behind. */
  lemma TimeoutExample()
    ensures var r := Failure("images/photo.png", "photo.png", "2024-01-01T12:00:00", "Request timed out.");
            RenderAsWritten(r) == Interrupted(Header(r), "model")
  {
  }
}
