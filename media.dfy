/**
 * GenerateSnapshots: after the output directory is created and the frame
 * sampling has run, keep the directory entries that are files with the
 * extension ".jpg", as paths under the output directory, in listing order.
 * Creating the directory, running the transcoder and listing the directory
 * are outcomes.
 */
module Media {
  import opened Wrappers

  /** One entry of a directory listing. */
  datatype DirEntry = DirEntry(name: string, isDir: bool)

  /**
   * filepath.Ext: the suffix from the final dot of the last path element,
   * or "" exactly when every dot of the path has a separator after it.
   */
  function Ext(path: string): (e: string)
    ensures e == [] || (|e| <= |path| && e == path[|path| - |e|..] && e[0] == '.')
    ensures forall k :: 0 < k < |e| ==> e[k] != '.' && e[k] != '/'
    ensures e == [] <==> forall k :: 0 <= k < |path| && path[k] == '.' ==> exists m :: k < m < |path| && path[m] == '/'
  {
    if path == [] then []
    else if Last(path) == '/' then []
    else if Last(path) == '.' then "."
    else
      var e := Ext(path[..|path| - 1]);
      if e == [] then [] else e + [Last(path)]
  }

  /** The extension is ".jpg" exactly when the name ends in ".jpg". */
  lemma {:induction false} JpgExtension(name: string)
    ensures Ext(name) == ".jpg" <==> |name| >= 4 && name[|name| - 4..] == ".jpg"
  {
    if |name| >= 4 && name[|name| - 4..] == ".jpg" {
      var n := |name|;
      var p3, p2, p1 := name[..n - 3], name[..n - 2], name[..n - 1];
      assert name[n - 4..] == ".jpg";
      assert Last(p3) == '.';
      assert Ext(p3) == ".";
      ExtGrows(p2, p3);
      ExtGrows(p1, p2);
      ExtGrows(name, p1);
    }
  }

  /** One more character that is neither a dot nor a separator extends a non-empty extension. */
  lemma ExtGrows(s: string, front: string)
    requires s != [] && front == s[..|s| - 1] && Ext(front) != []
    requires Last(s) != '.' && Last(s) != '/'
    ensures Ext(s) == Ext(front) + [Last(s)]
  {
  }

  /** filepath.Join of a directory and one entry name. */
  function Join(dir: string, name: string): string {
    if dir == [] then name
    else if name == [] then dir
    else if Last(dir) == '/' then dir + name
    else dir + "/" + name
  }

  predicate IsSnapshot(e: DirEntry) {
    !e.isDir && Ext(e.name) == ".jpg"
  }

  /** The entries kept, in listing order. */
  function Kept(entries: seq<DirEntry>): seq<DirEntry> {
    if entries == [] then []
    else
      var before := Kept(entries[..|entries| - 1]);
      if IsSnapshot(Last(entries)) then before + [Last(entries)] else before
  }

  /** The paths returned for a listing: the kept entries joined to the directory. */
  function SnapshotPaths(dir: string, entries: seq<DirEntry>): seq<string> {
    var kept := Kept(entries);
    seq(|kept|, k requires 0 <= k < |kept| => Join(dir, kept[k].name))
  }

  /** `a` is `b` with some elements left out: a subsequence, order kept. */
  predicate Subsequence<X(==)>(a: seq<X>, b: seq<X>)
    decreases |b|
  {
    if a == [] then true
    else if b == [] then false
    else if Last(a) == Last(b) then Subsequence(a[..|a| - 1], b[..|b| - 1])
    else Subsequence(a, b[..|b| - 1])
  }

  /** The kept entries are a subsequence of the listing, so there are at most as many. */
  lemma {:induction false} KeptIsSubsequence(entries: seq<DirEntry>)
    ensures Subsequence(Kept(entries), entries)
    ensures |Kept(entries)| <= |entries|
  {
    if entries != [] {
      var before := entries[..|entries| - 1];
      KeptIsSubsequence(before);
      var k := Kept(entries);
      if IsSnapshot(Last(entries)) {
        assert k[..|k| - 1] == Kept(before);
      } else if k != [] {
        assert IsSnapshot(Last(k)) by { KeptAreSnapshots(before); }
        assert Last(k) != Last(entries);
      }
    }
  }

  /** Everything kept is a file with a ".jpg" extension from the listing. */
  lemma {:induction false} KeptAreSnapshots(entries: seq<DirEntry>)
    ensures forall e :: e in Kept(entries) ==> e in entries && IsSnapshot(e)
  {
    if entries != [] {
      KeptAreSnapshots(entries[..|entries| - 1]);
    }
  }

  /** Every file with a ".jpg" extension in the listing is kept. */
  lemma {:induction false} SnapshotsAreKept(entries: seq<DirEntry>)
    ensures forall e :: e in entries && IsSnapshot(e) ==> e in Kept(entries)
  {
    if entries != [] {
      var before := entries[..|entries| - 1];
      SnapshotsAreKept(before);
      assert entries == before + [Last(entries)];
    }
  }

  /** Each returned path is the directory joined with the name of a ".jpg" file of the listing, and there are at most as many paths as entries. */
  lemma SnapshotPathsFromListing(dir: string, entries: seq<DirEntry>)
    ensures |SnapshotPaths(dir, entries)| <= |entries|
    ensures forall k :: 0 <= k < |SnapshotPaths(dir, entries)| ==>
              exists e :: e in entries && IsSnapshot(e) && SnapshotPaths(dir, entries)[k] == Join(dir, e.name)
  {
    var kept := Kept(entries);
    KeptIsSubsequence(entries);
    KeptAreSnapshots(entries);
    forall k | 0 <= k < |SnapshotPaths(dir, entries)|
      ensures exists e :: e in entries && IsSnapshot(e) && SnapshotPaths(dir, entries)[k] == Join(dir, e.name)
    {
      assert kept[k] in kept;
    }
  }

  /** One more listing entry adds its path exactly when it is kept. */
  lemma SnapshotPathsNext(dir: string, files: seq<DirEntry>, i: nat)
    requires i < |files|
    ensures SnapshotPaths(dir, files[..i + 1])
            == SnapshotPaths(dir, files[..i]) + (if IsSnapshot(files[i]) then [Join(dir, files[i].name)] else [])
  {
    assert files[..i + 1][..i] == files[..i];
  }

  /**
   * Create the directory, run the transcoder, list the directory, then keep
   * the non-directory entries with extension ".jpg" as joined paths.
   */
  method GenerateSnapshots(outputDir: string, mkdirErr: Option<string>, ffmpegErr: Option<string>,
                           listing: Result<seq<DirEntry>, string>)
    returns (r: Result<seq<string>, string>)
    ensures mkdirErr.Some? ==> r == Failure(mkdirErr.value)
    ensures mkdirErr.None? && ffmpegErr.Some? ==> r == Failure("ffmpeg snapshots failed: " + ffmpegErr.value)
    ensures mkdirErr.None? && ffmpegErr.None? && listing.Failure? ==> r == Failure(listing.error)
    ensures mkdirErr.None? && ffmpegErr.None? && listing.Success?
            ==> r == Success(SnapshotPaths(outputDir, listing.value))
  {
    if mkdirErr.Some? {
      return Failure(mkdirErr.value);
    }
    if ffmpegErr.Some? {
      return Failure("ffmpeg snapshots failed: " + ffmpegErr.value);
    }
    if listing.Failure? {
      return Failure(listing.error);
    }
    var files := listing.value;
    var snapshots: seq<string> := [];
    for i := 0 to |files|
      invariant snapshots == SnapshotPaths(outputDir, files[..i])
    {
      SnapshotPathsNext(outputDir, files, i);
      if !files[i].isDir && Ext(files[i].name) == ".jpg" {
        snapshots := snapshots + [Join(outputDir, files[i].name)];
      }
    }
    assert files[..|files|] == files;
    r := Success(snapshots);
  }
}
