/**
 * The result `analyze_image` builds for one image, and the dictionary that
 * `save_analysis` serialises as the image's JSON record.
 */
module Results {
  import opened Wrappers
  import opened Paths

  /** What the model backend gives back: the message content and token usage, or an exception text. */
  datatype Reply = Answer(content: string, totalTokens: nat) | Error(message: string)

  datatype AnalysisResult =
    | Success(imagePath: string, imageName: string, timestamp: string,
              analysis: string, model: string, tokensUsed: nat)
    | Failure(imagePath: string, imageName: string, timestamp: string, error: string)

  /** `analyze_image` once the backend has replied; `analyzedAt` is the ISO-8601 clock reading. */
  function AnalyzeImage(imagePath: string, model: string, reply: Reply, analyzedAt: string): (r: AnalysisResult)
    ensures r.imagePath == imagePath && r.imageName == Name(imagePath) && r.timestamp == analyzedAt
    ensures r.Success? <==> reply.Answer?
    ensures r.Success? ==> r.analysis == reply.content && r.model == model && r.tokensUsed == reply.totalTokens
    ensures r.Failure? ==> r.error == reply.message
  {
    match reply
    case Answer(content, tokens) => Success(imagePath, Name(imagePath), analyzedAt, content, model, tokens)
    case Error(message) => Failure(imagePath, Name(imagePath), analyzedAt, message)
  }

  /** A JSON value as the result dictionary holds it. */
  datatype Value = Bool(flag: bool) | Str(text: string) | Num(count: nat)

  /** A result dictionary: key to value. */
  type Record = map<string, Value>

  const ModelKey := "model"

  const SuccessKeys: set<string> :=
    {"success", "image_path", "image_name", "timestamp", "analysis", "model", "tokens_used"}

  const FailureKeys: set<string> :=
    {"success", "image_path", "image_name", "timestamp", "error"}

  /** The dictionary `analyze_image` returns. */
  function ToRecord(r: AnalysisResult): Record
  {
    match r
    case Success(path, name, time, analysis, model, tokens) =>
      map["success" := Bool(true), "image_path" := Str(path), "image_name" := Str(name),
          "timestamp" := Str(time), "analysis" := Str(analysis), "model" := Str(model),
          "tokens_used" := Num(tokens)]
    case Failure(path, name, time, error) =>
      map["success" := Bool(false), "image_path" := Str(path), "image_name" := Str(name),
          "timestamp" := Str(time), "error" := Str(error)]
  }

  /** A record has exactly the keys of its result's shape. */
  lemma ToRecordKeys(r: AnalysisResult)
    ensures ToRecord(r).Keys == if r.Success? then SuccessKeys else FailureKeys
  {
  }

  /** Reads a dictionary back into a result; None unless it has exactly one shape's keys and types. */
  function FromRecord(d: Record): Option<AnalysisResult>
  {
    if d.Keys == SuccessKeys && d["success"] == Bool(true)
       && d["image_path"].Str? && d["image_name"].Str? && d["timestamp"].Str?
       && d["analysis"].Str? && d["model"].Str? && d["tokens_used"].Num?
    then
      Some(Success(d["image_path"].text, d["image_name"].text, d["timestamp"].text,
                   d["analysis"].text, d["model"].text, d["tokens_used"].count))
    else if d.Keys == FailureKeys && d["success"] == Bool(false)
       && d["image_path"].Str? && d["image_name"].Str? && d["timestamp"].Str? && d["error"].Str?
    then
      Some(Failure(d["image_path"].text, d["image_name"].text, d["timestamp"].text, d["error"].text))
    else None
  }

  /** Every field of a result survives the trip through its record. */
  lemma RecordRoundTrip(r: AnalysisResult)
    ensures FromRecord(ToRecord(r)) == Some(r)
  {
  }

  /** A record that reads back as a result is exactly that result's record. */
  lemma RecordReadsBackOnlyItsResult(d: Record, r: AnalysisResult)
    requires FromRecord(d) == Some(r)
    ensures ToRecord(r) == d
  {
    var e := ToRecord(r);
    assert e.Keys == d.Keys;
    forall k | k in d ensures e[k] == d[k] {
    }
  }

  /** Only a successful result's record has a `model` entry. */
  lemma ModelKeyOnlyOnSuccess(r: AnalysisResult)
    ensures ModelKey in ToRecord(r) <==> r.Success?
  {
  }
}
