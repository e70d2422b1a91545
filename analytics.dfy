/** The figures of `components/analytics-dashboard.tsx`: success rate, total size, the
    file-type histogram with its top five, and the last day's uploads. */
module Analytics {
  import opened Seqs
  import opened Strings
  import opened FileRecords
  import opened Dashboard

  /** One entry of `Object.entries(fileTypes)`. */
  datatype TypeCount = TypeCount(key: string, count: nat)

  /** How many entries each list on the dashboard shows at most. */
  const ShownEntries: nat := 5
  /** The "recent activity" window, in milliseconds. */
  const DayMs: int := 24 * 60 * 60 * 1000

  /** A part of a positive whole is at most the whole. */
  lemma ShareAtMostOne(c: real, t: real)
    requires 0.0 <= c <= t && t > 0.0
    ensures 0.0 <= c / t <= 1.0
    ensures (c / t) * t == c
  {
    var q := c / t;
    assert q * t == c;
  }

  /** `part / whole * 100`, the share of `part` in `whole` as a percentage. */
  function Percent(part: nat, whole: nat): (r: real)
    requires part <= whole && whole > 0
    ensures 0.0 <= r <= 100.0
    ensures r * (whole as real) == 100.0 * (part as real)
  {
    var c := part as real;
    var t := whole as real;
    ShareAtMostOne(c, t);
    (c / t) * 100.0
  }

  /** `successRate`: the completed share of all files, as a percentage. */
  function SuccessRate(files: seq<FileItem>): (r: real)
    ensures files == [] ==> r == 0.0
    ensures 0.0 <= r <= 100.0
    ensures files != [] ==> r == Percent(|Filter(IsCompleted, files)|, |files|)
  {
    var s := ComputeStats(files);
    if s.total > 0 then Percent(s.completed, s.total) else 0.0
  }

  /** `totalSize`: the sum of the file sizes. */
  function TotalSize(files: seq<FileItem>): (r: int)
    ensures (forall i :: 0 <= i < |files| ==> files[i].size >= 0) ==> r >= 0
    ensures |files| == 1 ==> r == files[0].size
  {
    if files == [] then 0 else files[0].size + TotalSize(files[1..])
  }

  /** The total of a list is the total of its front plus the total of its back. */
  lemma {:induction false} TotalSizeAdds(a: seq<FileItem>, b: seq<FileItem>)
    ensures TotalSize(a + b) == TotalSize(a) + TotalSize(b)
  {
    if a == [] {
      assert a + b == b;
    } else {
      assert (a + b)[1..] == a[1..] + b;
      TotalSizeAdds(a[1..], b);
    }
  }

  /** `file.type.split("/")[0] || "unknown"`. */
  function TypeKey(mimeType: string): (r: string)
    ensures r != "" && '/' !in r
    ensures mimeType == [] || mimeType[0] == '/' ==> r == "unknown"
    ensures mimeType != [] && mimeType[0] != '/' ==>
              StartsWith(mimeType, r) && (|r| == |mimeType| || mimeType[|r|] == '/')
  {
    SplitHead(mimeType, '/');
    var head := Split(mimeType, '/')[0];
    if head == "" then "unknown" else head
  }

  /** The dictionary update `acc[type] = (acc[type] || 0) + 1`, entries kept in insertion order. */
  function Bump(h: seq<TypeCount>, key: string): (r: seq<TypeCount>)
    ensures |r| == |h| || |r| == |h| + 1
  {
    if h == [] then [TypeCount(key, 1)]
    else if h[0].key == key then [h[0].(count := h[0].count + 1)] + h[1..]
    else [h[0]] + Bump(h[1..], key)
  }

  /** `fileTypes` as the reduce over the files builds it. */
  function Histogram(files: seq<FileItem>): (r: seq<TypeCount>)
    ensures |r| <= |files|
    ensures files != [] ==> |r| >= 1
  {
    if files == [] then []
    else Bump(Histogram(files[..|files| - 1]), TypeKey(files[|files| - 1].mimeType))
  }

  /** The count recorded for `key` (0 when absent). */
  function CountOf(h: seq<TypeCount>, key: string): nat
  {
    if h == [] then 0 else if h[0].key == key then h[0].count else CountOf(h[1..], key)
  }

  function SumCounts(h: seq<TypeCount>): nat
  {
    if h == [] then 0 else h[0].count + SumCounts(h[1..])
  }

  predicate KeysDistinct(h: seq<TypeCount>)
  {
    forall i, j :: 0 <= i < j < |h| ==> h[i].key != h[j].key
  }

  /** The files whose type falls under `key`. */
  function KeyIs(key: string): FileItem -> bool
  {
    (f: FileItem) => TypeKey(f.mimeType) == key
  }

  /** One more file adds one to the grand total. */
  lemma {:induction false} BumpAddsOne(h: seq<TypeCount>, key: string)
    ensures SumCounts(Bump(h, key)) == SumCounts(h) + 1
  {
    if h != [] && h[0].key != key {
      BumpAddsOne(h[1..], key);
    }
  }

  /** One more file adds one under its own key and nothing under any other. */
  lemma {:induction false} BumpCounts(h: seq<TypeCount>, key: string, other: string)
    ensures CountOf(Bump(h, key), other) == CountOf(h, other) + (if key == other then 1 else 0)
  {
    if h != [] && h[0].key != key {
      BumpCounts(h[1..], key, other);
    }
  }

  /** Bumping never creates a second entry for a key. */
  lemma {:induction false} BumpKeepsKeysDistinct(h: seq<TypeCount>, key: string)
    requires KeysDistinct(h)
    ensures KeysDistinct(Bump(h, key))
    ensures forall e :: e in Bump(h, key) ==> e.key == key || exists d :: d in h && d.key == e.key
  {
    if h != [] && h[0].key != key {
      assert KeysDistinct(h[1..]);
      BumpKeepsKeysDistinct(h[1..], key);
      var r := Bump(h, key);
      assert r == [h[0]] + Bump(h[1..], key);
      forall i, j | 0 <= i < j < |r|
        ensures r[i].key != r[j].key
      {
        if i == 0 {
          assert r[j] in Bump(h[1..], key);
          if r[j].key != key {
            var d :| d in h[1..] && d.key == r[j].key;
            var m :| 0 <= m < |h[1..]| && h[1..][m] == d;
            assert h[m + 1] == d;
          }
        }
      }
      forall e | e in r
        ensures e.key == key || exists d :: d in h && d.key == e.key
      {
        if e != h[0] {
          assert e in Bump(h[1..], key);
        }
      }
    }
  }

  /** The histogram's counts add up to the number of files. */
  lemma {:induction false} HistogramTotal(files: seq<FileItem>)
    ensures SumCounts(Histogram(files)) == |files|
  {
    if files != [] {
      HistogramTotal(files[..|files| - 1]);
      BumpAddsOne(Histogram(files[..|files| - 1]), TypeKey(files[|files| - 1].mimeType));
    }
  }

  /** No type is recorded twice. */
  lemma {:induction false} HistogramKeysDistinct(files: seq<FileItem>)
    ensures KeysDistinct(Histogram(files))
  {
    if files != [] {
      HistogramKeysDistinct(files[..|files| - 1]);
      BumpKeepsKeysDistinct(Histogram(files[..|files| - 1]), TypeKey(files[|files| - 1].mimeType));
    }
  }

  /** Each key is counted with the number of files of that type. */
  lemma {:induction false} HistogramCounts(files: seq<FileItem>, key: string)
    ensures CountOf(Histogram(files), key) == |Filter(KeyIs(key), files)|
  {
    if files != [] {
      var front, last := files[..|files| - 1], files[|files| - 1];
      assert files == front + [last];
      HistogramCounts(front, key);
      HistogramCountsStep(front, last, key);
    }
  }

  /** Counting one more file at the end keeps each key's count equal to its number of files. */
  lemma HistogramCountsStep(front: seq<FileItem>, last: FileItem, key: string)
    requires CountOf(Histogram(front), key) == |Filter(KeyIs(key), front)|
    ensures CountOf(Histogram(front + [last]), key) == |Filter(KeyIs(key), front + [last])|
  {
    assert (front + [last])[..|front|] == front;
    BumpCounts(Histogram(front), TypeKey(last.mimeType), key);
    FilterSnoc(KeyIs(key), front, last);
  }

  /** The reduce that builds `fileTypes`, one file at a time. */
  method CountFileTypes(files: seq<FileItem>) returns (hist: seq<TypeCount>)
    ensures hist == Histogram(files)
    ensures SumCounts(hist) == |files|
    ensures KeysDistinct(hist)
  {
    hist := [];
    for i := 0 to |files|
      invariant hist == Histogram(files[..i])
    {
      assert files[..i + 1][..i] == files[..i];
      hist := Bump(hist, TypeKey(files[i].mimeType));
    }
    assert files[..|files|] == files;
    HistogramTotal(files);
    HistogramKeysDistinct(files);
  }

  /** Counts never increase along `s`. */
  predicate SortedByCount(s: seq<TypeCount>)
  {
    forall i, j :: 0 <= i < j < |s| ==> s[i].count >= s[j].count
  }

  /** Inserts `x` before the first entry whose count does not exceed its own. */
  function InsertByCount(x: TypeCount, s: seq<TypeCount>): (r: seq<TypeCount>)
    requires SortedByCount(s)
    ensures |r| == |s| + 1
    ensures SortedByCount(r)
    ensures multiset(r) == multiset(s) + multiset{x}
  {
    if s == [] || s[0].count <= x.count then [x] + s
    else
      var rest := InsertByCount(x, s[1..]);
      InsertBehind(s[0], s[1..], x, rest);
      assert s == [s[0]] + s[1..];
      [s[0]] + rest
  }

  /** Keeping a head that outranks both `x` and `tail` in front of `x` inserted into `tail`
      keeps the list sorted and holds exactly `x` more. */
  lemma InsertBehind(h: TypeCount, tail: seq<TypeCount>, x: TypeCount, rest: seq<TypeCount>)
    requires SortedByCount([h] + tail) && x.count < h.count
    requires SortedByCount(rest) && multiset(rest) == multiset(tail) + multiset{x}
    ensures SortedByCount([h] + rest)
    ensures multiset([h] + rest) == multiset([h] + tail) + multiset{x}
  {
    forall e | e in rest
      ensures e.count <= h.count
    {
      assert e in multiset(rest);
      if e != x {
        assert e in multiset(tail);
        var m :| 0 <= m < |tail| && tail[m] == e;
        assert ([h] + tail)[0] == h && ([h] + tail)[m + 1] == e;
      }
    }
    HeadOutranks(h, rest);
  }

  /** A sorted list stays sorted under a head that outranks all of it. */
  lemma HeadOutranks(h: TypeCount, s: seq<TypeCount>)
    requires SortedByCount(s) && forall e :: e in s ==> e.count <= h.count
    ensures SortedByCount([h] + s)
  {
    var r := [h] + s;
    forall i, j | 0 <= i < j < |r|
      ensures r[i].count >= r[j].count
    {
      if i == 0 {
        assert r[j] == s[j - 1];
        assert s[j - 1] in s;
      } else {
        assert r[i] == s[i - 1] && r[j] == s[j - 1];
      }
    }
  }

  /** `.sort(([, a], [, b]) => b - a)`: entries by decreasing count. */
  function SortByCount(h: seq<TypeCount>): (r: seq<TypeCount>)
    ensures |r| == |h|
    ensures SortedByCount(r)
    ensures multiset(r) == multiset(h)
  {
    if h == [] then []
    else
      assert h == [h[0]] + h[1..];
      InsertByCount(h[0], SortByCount(h[1..]))
  }

  /** No entry of `h` that `r` leaves out has a higher count than an entry of `r`. */
  predicate NoneLeftOutranks(h: seq<TypeCount>, r: seq<TypeCount>)
  {
    forall e, j :: e in multiset(h) - multiset(r) && 0 <= j < |r| ==> e.count <= r[j].count
  }

  /** In a list sorted by count, nothing after position `k` outranks anything before it. */
  lemma PrefixDominates(s: seq<TypeCount>, k: nat)
    requires SortedByCount(s) && k <= |s|
    ensures forall e, j :: e in multiset(s[k..]) && 0 <= j < k ==> e.count <= s[j].count
  {
    forall e, j | e in multiset(s[k..]) && 0 <= j < k
      ensures e.count <= s[j].count
    {
      var m :| 0 <= m < |s[k..]| && s[k..][m] == e;
      assert s[k + m] == e;
    }
  }

  /** What a prefix of a sorted list leaves out is its suffix, and ranks no higher. */
  lemma TakeSorted(h: seq<TypeCount>, s: seq<TypeCount>, k: nat)
    requires SortedByCount(s) && multiset(s) == multiset(h) && k <= |s|
    ensures |s[..k]| == k && SortedByCount(s[..k])
    ensures multiset(s[..k]) <= multiset(h)
    ensures NoneLeftOutranks(h, s[..k])
  {
    PrefixLeavesSuffix(s, k);
    PrefixDominates(s, k);
    LeftOutIsSuffix(h, s[..k], s[k..]);
  }

  /** A list's multiset is that of its prefix plus that of its suffix. */
  lemma PrefixLeavesSuffix(s: seq<TypeCount>, k: nat)
    requires k <= |s|
    ensures multiset(s) == multiset(s[..k]) + multiset(s[k..])
  {
    assert s == s[..k] + s[k..];
  }

  /** When `h` splits into `p` and `q` and nothing in `q` outranks `p`, `p` leaves nothing
      higher out. */
  lemma LeftOutIsSuffix(h: seq<TypeCount>, p: seq<TypeCount>, q: seq<TypeCount>)
    requires multiset(h) == multiset(p) + multiset(q)
    requires forall e, j :: e in multiset(q) && 0 <= j < |p| ==> e.count <= p[j].count
    ensures multiset(p) <= multiset(h)
    ensures NoneLeftOutranks(h, p)
  {
    assert multiset(h) - multiset(p) == multiset(q);
  }

  /** The type list on the dashboard: at most five entries, by decreasing count, and no
      entry left out has a higher count than one shown. */
  function TopTypes(h: seq<TypeCount>): (r: seq<TypeCount>)
    ensures |r| == if |h| < ShownEntries then |h| else ShownEntries
    ensures SortedByCount(r)
    ensures multiset(r) <= multiset(h)
    ensures NoneLeftOutranks(h, r)
  {
    var s := SortByCount(h);
    var k := if |s| < ShownEntries then |s| else ShownEntries;
    TakeSorted(h, s, k);
    s[..k]
  }

  /** With distinct keys, an entry's count is the count recorded for its key. */
  lemma {:induction false} CountOfEntry(h: seq<TypeCount>, e: TypeCount)
    requires KeysDistinct(h) && e in h
    ensures CountOf(h, e.key) == e.count
  {
    if h[0].key != e.key {
      assert KeysDistinct(h[1..]);
      assert e in h[1..];
      CountOfEntry(h[1..], e);
    }
  }

  /** Every type shown on the dashboard carries the number of files of that type. */
  lemma TopTypesCountFiles(files: seq<FileItem>)
    ensures forall e :: e in TopTypes(Histogram(files)) ==> e.count == |Filter(KeyIs(e.key), files)|
  {
    var h := Histogram(files);
    forall e | e in TopTypes(h)
      ensures e.count == |Filter(KeyIs(e.key), files)|
    {
      assert e in multiset(TopTypes(h));
      HistogramCounts(files, e.key);
      HistogramKeysDistinct(files);
      CountOfEntry(h, e);
    }
  }

  predicate IsRecent(f: FileItem, now: int) { f.uploadedAt >= now - DayMs }

  function UploadedSince(now: int): FileItem -> bool
  {
    (f: FileItem) => IsRecent(f, now)
  }

  /** `recentFiles`: the files uploaded in the 24 hours before `now`, in list order. */
  function RecentFiles(files: seq<FileItem>, now: int): (r: seq<FileItem>)
    ensures forall f :: f in r <==> f in files && f.uploadedAt >= now - DayMs
    ensures IsSubsequence(r, files)
  {
    FilterIsSubsequence(UploadedSince(now), files);
    Filter(UploadedSince(now), files)
  }

  /** `recentFiles.slice(0, 5)`: the first recent files, at most five. */
  function ShownRecentFiles(files: seq<FileItem>, now: int): (r: seq<FileItem>)
    ensures |r| <= ShownEntries && |r| <= |RecentFiles(files, now)|
    ensures |r| == ShownEntries || r == RecentFiles(files, now)
    ensures r == RecentFiles(files, now)[..|r|]
  {
    var recent := RecentFiles(files, now);
    if |recent| <= ShownEntries then recent else recent[..ShownEntries]
  }
}
