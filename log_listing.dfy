/** The log-file listing an inspection reports: every file in the session's log directory
    matching one of five suffixes, newest first, at most ten of them. */
module LogListing {

  import Text

  /** A file the directory listing found, with the size and modification time it reports
      (both 0 for a file that vanished before it was examined). */
  datatype LogFile = LogFile(path: string, size: nat, mtime: real)

  /** One listed file as reported to the caller. */
  datatype LogFileView = LogFileView(path: string, name: string, size: nat, mtime: real)

  /** The suffixes searched for, in order. */
  const Suffixes: seq<string> := [".html", ".htm", ".json", ".log", "trace.zip"]

  /** How many files a listing keeps. */
  const MaxListed: nat := 10

  /** The filesystem's answer to a wildcard pattern (glob.glob). */
  type Glob = string -> seq<LogFile>

  /** The wildcard pattern for one suffix: any name in the directory ending with it. */
  function Pattern(logsDir: string, suffix: string): (p: string)
    ensures logsDir <= p
    ensures |"*" + suffix| <= |p| && p[|p| - |"*" + suffix|..] == "*" + suffix
  {
    Text.Join(logsDir, "*" + suffix)
  }

  /** The matches of the first n patterns, concatenated in suffix order. */
  function Gathered(logsDir: string, glob: Glob, n: nat): seq<LogFile>
    requires n <= |Suffixes|
  {
    if n == 0 then [] else Gathered(logsDir, glob, n - 1) + glob(Pattern(logsDir, Suffixes[n - 1]))
  }

  /** A file is gathered exactly when one of the first n patterns matched it. */
  lemma {:induction false} GatheredMembers(logsDir: string, glob: Glob, n: nat, f: LogFile)
    requires n <= |Suffixes|
    ensures f in Gathered(logsDir, glob, n) <==> exists k :: 0 <= k < n && f in glob(Pattern(logsDir, Suffixes[k]))
  {
    if n > 0 {
      GatheredMembers(logsDir, glob, n - 1, f);
      if f in glob(Pattern(logsDir, Suffixes[n - 1])) {
        assert 0 <= n - 1 < n;
      }
    }
  }

  /** Runs the pattern for each suffix in turn and extends the list with its matches. */
  method CollectLogFiles(logsDir: string, glob: Glob) returns (files: seq<LogFile>)
    ensures files == Gathered(logsDir, glob, |Suffixes|)
  {
    files := [];
    for k := 0 to |Suffixes|
      invariant files == Gathered(logsDir, glob, k)
    {
      files := files + glob(Pattern(logsDir, Suffixes[k]));
    }
  }

  /** Newest first: modification times never increase along the sequence. */
  predicate NewestFirst(s: seq<LogFile>) {
    forall i, j :: 0 <= i < j < |s| ==> s[j].mtime <= s[i].mtime
  }

  /** A file no older than every file of a newest-first sequence can head it. */
  lemma ConsNewest(x: LogFile, t: seq<LogFile>)
    requires NewestFirst(t)
    requires forall y :: y in t ==> y.mtime <= x.mtime
    ensures NewestFirst([x] + t)
  {
    var r := [x] + t;
    forall i, j | 0 <= i < j < |r|
      ensures r[j].mtime <= r[i].mtime
    {
      assert r[j] == t[j - 1];
      if i > 0 {
        assert r[i] == t[i - 1];
      }
    }
  }

  /** The tail of a newest-first sequence is newest first. */
  lemma TailNewest(s: seq<LogFile>)
    requires NewestFirst(s) && |s| > 0
    ensures NewestFirst(s[1..])
  {
    var tail := s[1..];
    forall i, j | 0 <= i < j < |tail| ensures tail[j].mtime <= tail[i].mtime {
      assert tail[i] == s[i + 1] && tail[j] == s[j + 1];
    }
  }

  /** Inserting a file older than the head into the tail keeps everything no newer than the head. */
  lemma InsertedBelowHead(f: LogFile, s: seq<LogFile>, rest: seq<LogFile>)
    requires NewestFirst(s) && |s| > 0 && f.mtime < s[0].mtime
    requires multiset(rest) == multiset(s[1..]) + multiset{f}
    ensures forall y :: y in rest ==> y.mtime <= s[0].mtime
  {
    forall y | y in rest
      ensures y.mtime <= s[0].mtime
    {
      assert y in multiset(rest);
      if y != f {
        assert y in multiset(s[1..]);
        var j :| 0 <= j < |s[1..]| && s[1..][j] == y;
        assert s[j + 1] == y;
      }
    }
  }

  /** Inserts f before the first file no newer than it. */
  function InsertNewest(f: LogFile, s: seq<LogFile>): (r: seq<LogFile>)
    requires NewestFirst(s)
    ensures NewestFirst(r)
    ensures multiset(r) == multiset(s) + multiset{f}
  {
    if s == [] || s[0].mtime <= f.mtime then
      ConsNewest(f, s);
      [f] + s
    else
      TailNewest(s);
      var rest := InsertNewest(f, s[1..]);
      InsertedBelowHead(f, s, rest);
      ConsNewest(s[0], rest);
      assert s == [s[0]] + s[1..];
      [s[0]] + rest
  }

  /** list.sort(key=mtime, reverse=True): a stable sort, newest first. */
  function SortNewestFirst(s: seq<LogFile>): (r: seq<LogFile>)
    ensures NewestFirst(r)
    ensures multiset(r) == multiset(s)
    ensures |r| == |s|
  {
    if s == [] then []
    else
      assert s == [s[0]] + s[1..];
      InsertNewest(s[0], SortNewestFirst(s[1..]))
  }

  /** The files a listing keeps: the first ten of the sorted list. */
  function Kept(found: seq<LogFile>): seq<LogFile> {
    var sorted := SortNewestFirst(found);
    if |sorted| <= MaxListed then sorted else sorted[..MaxListed]
  }

  function View(f: LogFile): (v: LogFileView)
    ensures v.path == f.path && v.size == f.size && v.mtime == f.mtime
    ensures v.name == Text.Basename(f.path)
  {
    LogFileView(f.path, Text.Basename(f.path), f.size, f.mtime)
  }

  /** The reported listing: each kept file with its base name. */
  function Listing(found: seq<LogFile>): (v: seq<LogFileView>)
    ensures |v| == |Kept(found)|
    ensures forall i :: 0 <= i < |v| ==> v[i] == View(Kept(found)[i])
  {
    var kept := Kept(found);
    seq(|kept|, i requires 0 <= i < |kept| => View(kept[i]))
  }

  /** Splitting a newest-first sequence: both parts stay newest first, and nothing in the
      second part is newer than anything in the first. */
  lemma SplitNewest(s: seq<LogFile>, n: nat)
    requires NewestFirst(s) && n <= |s|
    ensures NewestFirst(s[..n])
    ensures forall f, k :: f in s[n..] && k in s[..n] ==> f.mtime <= k.mtime
  {
    forall f, k | f in s[n..] && k in s[..n]
      ensures f.mtime <= k.mtime
    {
      var j :| 0 <= j < |s| - n && s[n..][j] == f;
      var i :| 0 <= i < n && s[..n][i] == k;
      assert s[n + j] == f && s[i] == k;
    }
  }

  /** The listing keeps min(10, n) of the n files found, newest first, and every file it
      leaves out is no newer than any file it keeps. */
  lemma KeptAreNewest(found: seq<LogFile>)
    ensures |Kept(found)| == if |found| <= MaxListed then |found| else MaxListed
    ensures NewestFirst(Kept(found))
    ensures multiset(Kept(found)) <= multiset(found)
    ensures forall f, k :: f in multiset(found) - multiset(Kept(found)) && k in Kept(found) ==> f.mtime <= k.mtime
  {
    var sorted := SortNewestFirst(found);
    var n := if |sorted| <= MaxListed then |sorted| else MaxListed;
    var kept, rest := sorted[..n], sorted[n..];
    assert Kept(found) == kept;
    SplitNewest(sorted, n);
    assert sorted == kept + rest;
    assert multiset(found) == multiset(kept) + multiset(rest);
    forall f: LogFile, k: LogFile | f in multiset(found) - multiset(kept) && k in kept
      ensures f.mtime <= k.mtime
    {
      assert f in multiset(rest);
    }
  }
}
