/**
 * The processed-images log, `processed_images.json` in the output
 * directory: a JSON object whose `processed` entry lists path strings.
 */
module ProcessedLog {
  import opened Wrappers

  /** A JSON object whose values are lists of strings. */
  type Document = map<string, seq<string>>

  const ProcessedKey := "processed"

  /** `xs` lists every element of `s` exactly once. */
  ghost predicate Enumerates(xs: seq<string>, s: set<string>)
  {
    && (forall i, j :: 0 <= i < j < |xs| ==> xs[i] != xs[j])
    && (forall x :: x in xs <==> x in s)
  }

  /**
   * The set `_load_processed_images` leaves: unchanged when there is no log
   * file, otherwise the entries of its `processed` list, none when the key
   * is missing.
   */
  function Loaded(log: Option<Document>, current: set<string>): (s: set<string>)
    ensures log.None? ==> s == current
    ensures log.Some? && ProcessedKey !in log.value ==> s == {}
    ensures log.Some? && ProcessedKey in log.value ==> forall x :: x in s <==> x in log.value[ProcessedKey]
  {
    match log
    case None => current
    case Some(doc) => if ProcessedKey in doc then set x | x in doc[ProcessedKey] else {}
  }

  /** `{'processed': list(...)}`, the document `_save_processed_images` writes. */
  function Saved(xs: seq<string>): (doc: Document)
    ensures doc.Keys == {ProcessedKey}
  {
    map[ProcessedKey := xs]
  }

  /** `list(s)`: the elements of a set in some order. */
  method ListOf(s: set<string>) returns (xs: seq<string>)
    ensures Enumerates(xs, s)
  {
    xs := [];
    var rest := s;
    while rest != {}
      invariant rest <= s
      invariant forall i, j :: 0 <= i < j < |xs| ==> xs[i] != xs[j]
      invariant forall x :: x in xs ==> x in s && x !in rest
      invariant forall x :: x in s ==> x in xs || x in rest
      decreases |rest|
    {
      var x :| x in rest;
      xs := xs + [x];
      rest := rest - {x};
    }
  }

  /** Loading a log that lists a set gives back that set, whatever was loaded before. */
  lemma LoadAfterSave(xs: seq<string>, s: set<string>, current: set<string>)
    requires Enumerates(xs, s)
    ensures Loaded(Some(Saved(xs)), current) == s
  {
  }

  /** A log that lists a set lists as many paths as the set holds. */
  lemma {:induction false} EnumerationSize(xs: seq<string>, s: set<string>)
    requires Enumerates(xs, s)
    ensures |xs| == |s|
  {
    if xs != [] {
      var last := xs[|xs| - 1];
      var init := xs[..|xs| - 1];
      assert forall x :: x in init ==> x != last by {
        forall x | x in init ensures x != last {
          var i :| 0 <= i < |init| && init[i] == x;
          assert xs[i] == x;
        }
      }
      assert xs == init + [last];
      EnumerationSize(init, s - {last});
    }
  }
}
