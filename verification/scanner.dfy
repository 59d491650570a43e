/**
 * Directory scanning: which entries of the watch directory are new images,
 * and the order they are handed out in (`scan_for_new_images`).
 */
module Scanner {
  import opened Wrappers
  import opened Paths

  /** One entry of the watch-directory listing, as `iterdir` yields it. */
  datatype Entry = Entry(path: string, isFile: bool, mtime: int)

  /** The formats used when the constructor is given none. */
  const DefaultFormats: seq<string> := [".jpg", ".jpeg", ".png", ".gif", ".bmp", ".webp"]

  /** `supported_formats or [...]`: a missing or empty list selects the defaults. */
  function FormatsOrDefault(given: Option<seq<string>>): (r: seq<string>)
    ensures r != []
    ensures given.Some? && given.value != [] ==> r == given.value
    ensures given.None? || given.value == [] ==> r == DefaultFormats
  {
    match given
    case Some(fs) => if fs != [] then fs else DefaultFormats
    case None => DefaultFormats
  }

  /** A regular file whose lower-cased suffix is one of the formats. */
  predicate IsImage(e: Entry, formats: seq<string>)
  {
    e.isFile && Lower(Suffix(Name(e.path))) in formats
  }

  /** An image whose path string has not been processed yet. */
  predicate IsNew(e: Entry, formats: seq<string>, processed: set<string>)
  {
    IsImage(e, formats) && e.path !in processed
  }

  /** The new images of a listing, in listing order. */
  function SelectNew(listing: seq<Entry>, formats: seq<string>, processed: set<string>): (r: seq<Entry>)
    ensures |r| <= |listing|
    ensures forall e :: e in r <==> e in listing && IsNew(e, formats, processed)
  {
    if listing == [] then []
    else
      var last := listing[|listing| - 1];
      SelectNew(listing[..|listing| - 1], formats, processed) + (if IsNew(last, formats, processed) then [last] else [])
  }

  predicate SortedByMtime(s: seq<Entry>)
  {
    forall i, j :: 0 <= i < j < |s| ==> s[i].mtime <= s[j].mtime
  }

  /** The entries of `s` whose modification time is `t`, in their order in `s`. */
  function WithMtime(s: seq<Entry>, t: int): seq<Entry>
  {
    if s == [] then [] else (if s[0].mtime == t then [s[0]] else []) + WithMtime(s[1..], t)
  }

  /** Places `x` before the first entry that is not older than it. */
  function Insert(x: Entry, s: seq<Entry>): (r: seq<Entry>)
    ensures multiset(r) == multiset(s) + multiset{x}
    ensures forall e :: e in r <==> e in s || e == x
  {
    if s == [] || x.mtime <= s[0].mtime then [x] + s
    else
      assert s == [s[0]] + s[1..];
      [s[0]] + Insert(x, s[1..])
  }

  /** Inserting into a sorted sequence keeps it sorted. */
  lemma {:induction false} InsertSorted(x: Entry, s: seq<Entry>)
    requires SortedByMtime(s)
    ensures SortedByMtime(Insert(x, s))
  {
    if s != [] && x.mtime > s[0].mtime {
      InsertSorted(x, s[1..]);
      var r := Insert(x, s[1..]);
      forall e | e in r ensures s[0].mtime <= e.mtime {
      }
    }
  }

  /** `sorted(..., key=st_mtime)`: a stable sort by modification time. */
  function SortByMtime(s: seq<Entry>): (r: seq<Entry>)
    ensures SortedByMtime(r)
    ensures multiset(r) == multiset(s)
    ensures forall e :: e in r <==> e in s
  {
    if s == [] then []
    else
      assert s == [s[0]] + s[1..];
      InsertSorted(s[0], SortByMtime(s[1..]));
      Insert(s[0], SortByMtime(s[1..]))
  }

  /** What `scan_for_new_images` returns for a listing. */
  function Scan(listing: seq<Entry>, formats: seq<string>, processed: set<string>): (r: seq<Entry>)
    ensures forall e :: e in r <==> e in listing && IsNew(e, formats, processed)
    ensures SortedByMtime(r)
  {
    SortByMtime(SelectNew(listing, formats, processed))
  }

  /** The paths of a sequence of entries. */
  function PathsOf(s: seq<Entry>): set<string>
  {
    set e | e in s :: e.path
  }

  predicate DistinctPaths(s: seq<Entry>)
  {
    forall i, j :: 0 <= i < j < |s| ==> s[i].path != s[j].path
  }

  // ---------------------------------------------------------------------
  // Stability: entries with equal modification times keep listing order.

  lemma {:induction false} WithMtimeInsert(x: Entry, s: seq<Entry>, t: int)
    ensures WithMtime(Insert(x, s), t) == (if x.mtime == t then [x] else []) + WithMtime(s, t)
  {
    if s == [] || x.mtime <= s[0].mtime {
      assert ([x] + s)[1..] == s;
    } else {
      WithMtimeInsert(x, s[1..], t);
      assert ([s[0]] + Insert(x, s[1..]))[1..] == Insert(x, s[1..]);
    }
  }

  /** Sorting keeps, for every modification time, the entries' relative order. */
  lemma {:induction false} SortIsStable(s: seq<Entry>, t: int)
    ensures WithMtime(SortByMtime(s), t) == WithMtime(s, t)
  {
    if s != [] {
      SortIsStable(s[1..], t);
      WithMtimeInsert(s[0], SortByMtime(s[1..]), t);
    }
  }

  lemma HeadGroupNonEmpty(s: seq<Entry>)
    ensures s != [] ==> WithMtime(s, s[0].mtime) != []
  {
  }

  lemma {:induction false} WithMtimeMember(s: seq<Entry>, t: int, x: Entry)
    ensures x in WithMtime(s, t) <==> x in s && x.mtime == t
  {
    if s != [] {
      WithMtimeMember(s[1..], t, x);
      assert x in s <==> x == s[0] || x in s[1..];
    }
  }

  /**
   * A stable sort by modification time is unique: two sorted sequences that
   * agree on the order of every group of equal times are the same sequence.
   * Together with SortIsStable this pins SortByMtime down independently of
   * how it is computed.
   */
  lemma {:induction false} StableSortUnique(a: seq<Entry>, b: seq<Entry>)
    requires SortedByMtime(a) && SortedByMtime(b)
    requires forall t :: WithMtime(a, t) == WithMtime(b, t)
    ensures a == b
    decreases |a|
  {
    HeadGroupNonEmpty(a);
    HeadGroupNonEmpty(b);
    if a != [] && b != [] {
      HeadsAgreeOnTime(a, b);
      TailsAgree(a, b, a[0].mtime);
      StableSortUnique(a[1..], b[1..]);
      assert a == [a[0]] + a[1..] && b == [b[0]] + b[1..];
    }
  }

  /** Two sorted sequences that group alike start with the same modification time. */
  lemma HeadsAgreeOnTime(a: seq<Entry>, b: seq<Entry>)
    requires a != [] && b != []
    requires SortedByMtime(a) && SortedByMtime(b)
    requires forall t :: WithMtime(a, t) == WithMtime(b, t)
    ensures a[0].mtime == b[0].mtime
  {
    var m, n := a[0].mtime, b[0].mtime;
    HeadGroupNonEmpty(a);
    HeadGroupNonEmpty(b);
    assert a[0] in WithMtime(a, m);
    WithMtimeMember(b, m, a[0]);
    var j :| 0 <= j < |b| && b[j] == a[0];
    assert n <= b[j].mtime == m;
    assert b[0] in WithMtime(b, n);
    WithMtimeMember(a, n, b[0]);
    var i :| 0 <= i < |a| && a[i] == b[0];
    assert m <= a[i].mtime == n;
  }

  /** Two sequences that group alike and start with the same time also group alike after their heads. */
  lemma TailsAgree(a: seq<Entry>, b: seq<Entry>, m: int)
    requires a != [] && b != [] && a[0].mtime == m && b[0].mtime == m
    requires forall t :: WithMtime(a, t) == WithMtime(b, t)
    ensures a[0] == b[0]
    ensures forall t :: WithMtime(a[1..], t) == WithMtime(b[1..], t)
    ensures SortedByMtime(a) ==> SortedByMtime(a[1..])
    ensures SortedByMtime(b) ==> SortedByMtime(b[1..])
  {
    assert WithMtime(a, m) == [a[0]] + WithMtime(a[1..], m);
    assert WithMtime(b, m) == [b[0]] + WithMtime(b[1..], m);
    assert a[0] == WithMtime(a, m)[0] == WithMtime(b, m)[0] == b[0];
    forall t ensures WithMtime(a[1..], t) == WithMtime(b[1..], t) {
      if t == m {
        assert WithMtime(a[1..], t) == WithMtime(a, t)[1..];
        assert WithMtime(b[1..], t) == WithMtime(b, t)[1..];
      } else {
        assert WithMtime(a[1..], t) == WithMtime(a, t);
        assert WithMtime(b[1..], t) == WithMtime(b, t);
      }
    }
  }

  /** The scan result is the unique stable sort of the new images in listing order. */
  lemma ScanIsStableSort(listing: seq<Entry>, formats: seq<string>, processed: set<string>, r: seq<Entry>)
    requires SortedByMtime(r)
    requires forall t :: WithMtime(r, t) == WithMtime(SelectNew(listing, formats, processed), t)
    ensures r == Scan(listing, formats, processed)
  {
    var sel := SelectNew(listing, formats, processed);
    forall t ensures WithMtime(r, t) == WithMtime(SortByMtime(sel), t) {
      SortIsStable(sel, t);
    }
    StableSortUnique(r, SortByMtime(sel));
  }

  // ---------------------------------------------------------------------
  // No duplicates.

  lemma {:induction false} SelectNewDistinct(listing: seq<Entry>, formats: seq<string>, processed: set<string>)
    requires DistinctPaths(listing)
    ensures DistinctPaths(SelectNew(listing, formats, processed))
  {
    if listing != [] {
      var init := listing[..|listing| - 1];
      var last := listing[|listing| - 1];
      assert DistinctPaths(init);
      SelectNewDistinct(init, formats, processed);
      var prev := SelectNew(init, formats, processed);
      forall e | e in prev ensures e.path != last.path {
        var k :| 0 <= k < |init| && init[k] == e;
        assert listing[k] == e;
      }
      AppendDistinct(prev, last);
    }
  }

  lemma AppendDistinct(prev: seq<Entry>, last: Entry)
    requires DistinctPaths(prev)
    requires forall e :: e in prev ==> e.path != last.path
    ensures DistinctPaths(prev + [last])
  {
    var r := prev + [last];
    forall i, j | 0 <= i < j < |r| ensures r[i].path != r[j].path {
      assert r[i] == prev[i];
      if j < |prev| {
        assert r[j] == prev[j];
      }
    }
  }

  lemma {:induction false} InsertDistinct(x: Entry, s: seq<Entry>)
    requires DistinctPaths(s)
    requires forall e :: e in s ==> e.path != x.path
    ensures DistinctPaths(Insert(x, s))
  {
    if s != [] && x.mtime > s[0].mtime {
      assert DistinctPaths(s[1..]);
      InsertDistinct(x, s[1..]);
      forall e | e in Insert(x, s[1..]) ensures e.path != s[0].path {
        if e != x {
          var k :| 0 <= k < |s[1..]| && s[1..][k] == e;
          assert s[k + 1] == e;
        }
      }
    }
  }

  lemma {:induction false} SortDistinct(s: seq<Entry>)
    requires DistinctPaths(s)
    ensures DistinctPaths(SortByMtime(s))
  {
    if s != [] {
      assert DistinctPaths(s[1..]);
      SortDistinct(s[1..]);
      forall e | e in SortByMtime(s[1..]) ensures e.path != s[0].path {
        var k :| 0 <= k < |s[1..]| && s[1..][k] == e;
        assert s[k + 1] == e;
      }
      InsertDistinct(s[0], SortByMtime(s[1..]));
    }
  }

  /** A listing without repeated paths scans to a result without repeated paths. */
  lemma ScanDistinct(listing: seq<Entry>, formats: seq<string>, processed: set<string>)
    requires DistinctPaths(listing)
    ensures DistinctPaths(Scan(listing, formats, processed))
  {
    SelectNewDistinct(listing, formats, processed);
    SortDistinct(SelectNew(listing, formats, processed));
  }

  // ---------------------------------------------------------------------
  // Rescanning.

  lemma HeadIsMember(s: seq<Entry>)
    ensures s != [] ==> s[0] in s
  {
  }

  /** Once every scanned path is marked processed, a rescan of the same listing finds nothing. */
  lemma RescanFindsNothing(listing: seq<Entry>, formats: seq<string>, processed: set<string>)
    ensures Scan(listing, formats, processed + PathsOf(Scan(listing, formats, processed))) == []
  {
    var first := Scan(listing, formats, processed);
    var marked := processed + PathsOf(first);
    forall e | e in listing ensures !IsNew(e, formats, marked) {
      if IsNew(e, formats, processed) {
        assert e in first;
        assert e.path in PathsOf(first);
      }
    }
    HeadIsMember(Scan(listing, formats, marked));
  }

  /**
   * After the first k scanned images are marked processed, a rescan finds
   * exactly the remaining ones (paths in a directory listing are distinct).
   */
  lemma RescanFindsRest(listing: seq<Entry>, formats: seq<string>, processed: set<string>, k: nat)
    requires DistinctPaths(listing)
    requires k <= |Scan(listing, formats, processed)|
    ensures var first := Scan(listing, formats, processed);
            forall e :: e in Scan(listing, formats, processed + PathsOf(first[..k])) <==> e in first[k..]
  {
    var first := Scan(listing, formats, processed);
    ScanDistinct(listing, formats, processed);
    var marked := processed + PathsOf(first[..k]);
    forall e ensures e in Scan(listing, formats, marked) <==> e in first[k..] {
      RescanMember(first, k, processed, e);
    }
  }

  /** One entry's part of RescanFindsRest. */
  lemma RescanMember(first: seq<Entry>, k: nat, processed: set<string>, e: Entry)
    requires DistinctPaths(first)
    requires k <= |first|
    requires forall d :: d in first ==> d.path !in processed
    ensures e in first && e.path !in processed + PathsOf(first[..k]) <==> e in first[k..]
  {
    if e in first[k..] {
      var i :| 0 <= i < |first| - k && first[k..][i] == e;
      assert first[k + i] == e;
      forall d | d in first[..k] ensures d.path != e.path {
        var j :| 0 <= j < k && first[..k][j] == d;
        assert first[j] == d;
      }
    }
    if e in first && e.path !in PathsOf(first[..k]) {
      var i :| 0 <= i < |first| && first[i] == e;
      assert forall j :: 0 <= j < k ==> first[j] == first[..k][j];
      assert forall j :: 0 <= j < k ==> first[j].path in PathsOf(first[..k]);
      assert i >= k;
      assert first[k..][i - k] == e;
    }
  }

  /**
   * A regular file `dir/base.ext` is an image exactly when the lower-cased
   * `.ext` is one of the formats; the case of the extension does not matter.
   */
  lemma IsImageByExtension(dir: string, base: string, ext: string, mtime: int, formats: seq<string>)
    requires base != [] && ext != []
    requires '/' !in base && '/' !in ext && '.' !in ext
    ensures IsImage(Entry(dir + "/" + base + "." + ext, true, mtime), formats) <==> Lower("." + ext) in formats
  {
    NameOfFile(dir, base, ext);
    SuffixOfJoin(base, ext);
  }

  lemma LowerPng()
    ensures Lower(".PNG") == ".png"
  {
  }

  lemma LowerTxt()
    ensures Lower(".txt") == ".txt"
    ensures ".txt" !in DefaultFormats
  {
  }

  /** With the default formats, a mixed-case `a.PNG` in any directory is selected. */
  lemma MixedCasePngIsImage(dir: string)
    ensures IsImage(Entry(dir + "/" + "a" + "." + "PNG", true, 0), DefaultFormats)
  {
    IsImageByExtension(dir, "a", "PNG", 0, DefaultFormats);
    LowerPng();
    assert "." + "PNG" == ".PNG";
  }

  /** With the default formats, `note.txt` in any directory is not selected. */
  lemma TextFileIsNotImage(dir: string)
    ensures !IsImage(Entry(dir + "/" + "note" + "." + "txt", true, 0), DefaultFormats)
  {
    IsImageByExtension(dir, "note", "txt", 0, DefaultFormats);
    LowerTxt();
    assert "." + "txt" == ".txt";
  }
}
