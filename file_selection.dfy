/** The file selection policy of the mount helper (`select_files_to_copy`):
    walk the configured subdirectories of a mounted camera, keep the files that
    pass the extension filter and could be stat'ed, order them by the selection
    strategy, then accept them greedily under a file-count and a byte limit. */
module FileSelection {
  import opened Wrappers
  import opened Strings

  /** What `os.stat` reports for a walked file (sizes in bytes; the float
      modification time is represented by an integer of the same order). */
  datatype Stat = Stat(size: nat, mtime: int)

  /** One file yielded by `os.walk`: its bare name, its path relative to the
      mount, and its stat result (`None` when the file vanished and `os.stat`
      raised `FileNotFoundError`). */
  datatype WalkedFile = WalkedFile(name: string, rel: string, stat: Option<Stat>)

  /** The mounted filesystem as the selector sees it: every subdirectory that
      exists, mapped to the files `os.walk` yields under it, in walk order.
      A subdirectory absent from the map does not exist. */
  type Tree = map<string, seq<WalkedFile>>

  datatype Candidate = Candidate(rel: string, size: nat, mtime: int)

  /** Python's `any(fn.lower().endswith(ext) for ext in extensions)`; the
      extensions themselves are not lower-cased. */
  predicate HasExtension(name: string, extensions: seq<string>) {
    exists k :: 0 <= k < |extensions| && EndsWith(Lower(name), extensions[k])
  }

  /** A walked file becomes a candidate when it passes the extension filter
      (an empty list means no filter) and its stat succeeded. */
  predicate Admitted(f: WalkedFile, extensions: seq<string>) {
    (extensions == [] || HasExtension(f.name, extensions)) && f.stat.Some?
  }

  function ToCandidate(f: WalkedFile): Candidate
    requires f.stat.Some?
  {
    Candidate(f.rel, f.stat.value.size, f.stat.value.mtime)
  }

  /** Candidates contributed by one walk, in walk order. */
  function WalkCandidates(files: seq<WalkedFile>, extensions: seq<string>): seq<Candidate> {
    if files == [] then []
    else
      var f := files[|files| - 1];
      WalkCandidates(files[..|files| - 1], extensions)
        + (if Admitted(f, extensions) then [ToCandidate(f)] else [])
  }

  /** Candidates of all subdirectories, in the order the nested loops append
      them; subdirectories that do not exist contribute nothing. */
  function Candidates(tree: Tree, subdirs: seq<string>, extensions: seq<string>): seq<Candidate> {
    if subdirs == [] then []
    else
      var sd := subdirs[|subdirs| - 1];
      Candidates(tree, subdirs[..|subdirs| - 1], extensions)
        + (if sd in tree then WalkCandidates(tree[sd], extensions) else [])
  }

  /** The nested candidate-collection loops. */
  method CollectCandidates(tree: Tree, subdirs: seq<string>, extensions: seq<string>)
    returns (candidates: seq<Candidate>)
    ensures candidates == Candidates(tree, subdirs, extensions)
  {
    candidates := [];
    var i := 0;
    while i < |subdirs|
      invariant 0 <= i <= |subdirs|
      invariant candidates == Candidates(tree, subdirs[..i], extensions)
    {
      var sd := subdirs[i];
      assert subdirs[..i + 1][..i] == subdirs[..i];
      if sd !in tree {
        i := i + 1;
        continue;
      }
      var files := tree[sd];
      ghost var before := candidates;
      var j := 0;
      while j < |files|
        invariant 0 <= j <= |files|
        invariant candidates == before + WalkCandidates(files[..j], extensions)
      {
        var f := files[j];
        assert files[..j + 1][..j] == files[..j];
        if extensions != [] && !HasExtension(f.name, extensions) {
          j := j + 1;
          continue;
        }
        if f.stat.None? {
          j := j + 1;
          continue;
        }
        candidates := candidates + [Candidate(f.rel, f.stat.value.size, f.stat.value.mtime)];
        j := j + 1;
      }
      assert files[..j] == files;
      i := i + 1;
    }
    assert subdirs[..i] == subdirs;
  }

  lemma {:induction false} WalkCandidatesAdmitted(files: seq<WalkedFile>, extensions: seq<string>, c: Candidate)
    requires c in WalkCandidates(files, extensions)
    ensures exists f :: f in files && Admitted(f, extensions) && c == ToCandidate(f)
  {
    if files != [] {
      var f := files[|files| - 1];
      if c in WalkCandidates(files[..|files| - 1], extensions) {
        WalkCandidatesAdmitted(files[..|files| - 1], extensions, c);
        var g :| g in files[..|files| - 1] && Admitted(g, extensions) && c == ToCandidate(g);
        assert g in files;
      } else {
        assert f in files;
      }
    }
  }

  /** Every candidate comes from a subdirectory that exists and from a file
      that passed the extension filter and was stat'ed successfully. */
  lemma {:induction false} CandidatesComeFromExistingSubdirs(tree: Tree, subdirs: seq<string>, extensions: seq<string>, c: Candidate)
    requires c in Candidates(tree, subdirs, extensions)
    ensures exists sd, f :: sd in subdirs && sd in tree && f in tree[sd]
                          && Admitted(f, extensions) && c == ToCandidate(f)
  {
    if subdirs != [] {
      var sd := subdirs[|subdirs| - 1];
      var init := subdirs[..|subdirs| - 1];
      if c in Candidates(tree, init, extensions) {
        CandidatesComeFromExistingSubdirs(tree, init, extensions, c);
        var sd', f :| sd' in init && sd' in tree && f in tree[sd'] && Admitted(f, extensions) && c == ToCandidate(f);
        assert sd' in subdirs;
      } else {
        assert sd in tree;
        WalkCandidatesAdmitted(tree[sd], extensions, c);
        var f :| f in tree[sd] && Admitted(f, extensions) && c == ToCandidate(f);
        assert sd in subdirs;
      }
    }
  }

  /** With no subdirectory present on the mount there is nothing to select. */
  lemma {:induction false} NoExistingSubdirNoCandidates(tree: Tree, subdirs: seq<string>, extensions: seq<string>)
    requires forall k :: 0 <= k < |subdirs| ==> subdirs[k] !in tree
    ensures Candidates(tree, subdirs, extensions) == []
  {
    if subdirs != [] {
      NoExistingSubdirNoCandidates(tree, subdirs[..|subdirs| - 1], extensions);
    }
  }

  // ---------------------------------------------------------------- ordering

  /** The sort each strategy performs: `newest` (and every unknown strategy)
      by modification time descending, `oldest` ascending, `largest` by size
      descending. */
  datatype Order = NewestFirst | OldestFirst | LargestFirst

  function OrderOf(strategy: string): Order {
    if strategy == "newest" then NewestFirst
    else if strategy == "oldest" then OldestFirst
    else if strategy == "largest" then LargestFirst
    else NewestFirst
  }

  /** `a` may stand before `b` in the sorted list. */
  predicate Precedes(o: Order, a: Candidate, b: Candidate) {
    match o
    case NewestFirst => a.mtime >= b.mtime
    case OldestFirst => a.mtime <= b.mtime
    case LargestFirst => a.size >= b.size
  }

  predicate SortedBy(o: Order, s: seq<Candidate>) {
    forall i, j :: 0 <= i < j < |s| ==> Precedes(o, s[i], s[j])
  }

  /** Inserts `x` in front of the first element it may precede. */
  function Insert(o: Order, x: Candidate, s: seq<Candidate>): seq<Candidate> {
    if s == [] || Precedes(o, x, s[0]) then [x] + s else [s[0]] + Insert(o, x, s[1..])
  }

  /** A stable sort: an element is inserted in front of every later element
      with an equal key, as Python's `list.sort` (also with `reverse=True`)
      keeps equal keys in their original order. */
  function Sort(o: Order, s: seq<Candidate>): seq<Candidate> {
    if s == [] then [] else Insert(o, s[0], Sort(o, s[1..]))
  }

  lemma {:induction false} InsertSorted(o: Order, x: Candidate, s: seq<Candidate>)
    requires SortedBy(o, s)
    ensures SortedBy(o, Insert(o, x, s))
    ensures multiset(Insert(o, x, s)) == multiset(s) + multiset{x}
  {
    if s == [] || Precedes(o, x, s[0]) {
    } else {
      var r := Insert(o, x, s[1..]);
      InsertSorted(o, x, s[1..]);
      assert s == [s[0]] + s[1..];
      forall y | y in r
        ensures Precedes(o, s[0], y)
      {
        assert y in multiset(r);
        if y != x {
          assert y in multiset(s[1..]);
          var k :| 0 <= k < |s[1..]| && s[1..][k] == y;
          assert s[k + 1] == y;
        }
      }
    }
  }

  /** Sorting yields a permutation of its input ordered by the strategy. */
  lemma {:induction false} SortSortedPermutation(o: Order, s: seq<Candidate>)
    ensures SortedBy(o, Sort(o, s))
    ensures multiset(Sort(o, s)) == multiset(s)
  {
    if s != [] {
      SortSortedPermutation(o, s[1..]);
      InsertSorted(o, s[0], Sort(o, s[1..]));
      assert s == [s[0]] + s[1..];
    }
  }

  /** What each strategy name promises of the sorted candidate list, and that
      an unknown name sorts exactly like `newest`. */
  lemma SortedByStrategy(strategy: string, s: seq<Candidate>)
    ensures multiset(Sort(OrderOf(strategy), s)) == multiset(s)
    ensures var r := Sort(OrderOf(strategy), s);
      && (strategy == "oldest" ==> forall i, j :: 0 <= i < j < |r| ==> r[i].mtime <= r[j].mtime)
      && (strategy == "largest" ==> forall i, j :: 0 <= i < j < |r| ==> r[i].size >= r[j].size)
      && (strategy != "oldest" && strategy != "largest" ==>
            r == Sort(NewestFirst, s) && forall i, j :: 0 <= i < j < |r| ==> r[i].mtime >= r[j].mtime)
  {
    SortSortedPermutation(OrderOf(strategy), s);
  }

  // -------------------------------------------------------- greedy acceptance

  /** `max_files` and `max_bytes`; `None` means no limit. */
  datatype Limits = Limits(maxFiles: Option<int>, maxBytes: Option<int>)

  /** The loop's `break`: the file-count limit has been reached. */
  predicate Full(lim: Limits, count: nat) {
    lim.maxFiles.Some? && count >= lim.maxFiles.value
  }

  /** The loop's `continue`: accepting the file would exceed the byte limit. */
  predicate Overflows(lim: Limits, total: int, size: nat) {
    lim.maxBytes.Some? && total + size > lim.maxBytes.value
  }

  function TotalSize(s: seq<Candidate>): nat {
    if s == [] then 0 else TotalSize(s[..|s| - 1]) + s[|s| - 1].size
  }

  /** The relative paths of the accepted candidates, in order. */
  function Rels(s: seq<Candidate>): (r: seq<string>)
    ensures |r| == |s|
    ensures forall k :: 0 <= k < |s| ==> r[k] == s[k].rel
  {
    if s == [] then [] else Rels(s[..|s| - 1]) + [s[|s| - 1].rel]
  }

  /** The files accepted after the loop has seen `c`, in order. */
  function Greedy(lim: Limits, c: seq<Candidate>): seq<Candidate> {
    if c == [] then []
    else
      var t := Greedy(lim, c[..|c| - 1]);
      var x := c[|c| - 1];
      if Full(lim, |t|) || Overflows(lim, TotalSize(t), x.size) then t else t + [x]
  }

  /** Once the count limit is reached, no later candidate changes anything. */
  lemma {:induction false} GreedyStaysFull(lim: Limits, c: seq<Candidate>, d: seq<Candidate>)
    requires Full(lim, |Greedy(lim, c)|)
    ensures Greedy(lim, c + d) == Greedy(lim, c)
    decreases |d|
  {
    if d != [] {
      var e := d[..|d| - 1];
      assert (c + d)[..|c + d| - 1] == c + e;
      GreedyStaysFull(lim, c, e);
    } else {
      assert c + d == c;
    }
  }

  /** A prefix that fills the count limit decides the whole acceptance. */
  lemma GreedyFullPrefix(lim: Limits, c: seq<Candidate>, i: nat)
    requires i <= |c| && Full(lim, |Greedy(lim, c[..i])|)
    ensures Greedy(lim, c) == Greedy(lim, c[..i])
  {
    GreedyStaysFull(lim, c[..i], c[i..]);
    assert c[..i] + c[i..] == c;
  }

  /** One step of the acceptance loop, unfolded. */
  lemma GreedyStep(lim: Limits, c: seq<Candidate>, i: nat)
    requires i < |c|
    ensures var t := Greedy(lim, c[..i]);
      Greedy(lim, c[..i + 1])
        == if Full(lim, |t|) || Overflows(lim, TotalSize(t), c[i].size) then t else t + [c[i]]
    ensures var t := Greedy(lim, c[..i]);
      Rels(t + [c[i]]) == Rels(t) + [c[i].rel] && TotalSize(t + [c[i]]) == TotalSize(t) + c[i].size
  {
    assert c[..i + 1][..i] == c[..i];
    var t := Greedy(lim, c[..i]);
    assert (t + [c[i]])[..|t|] == t;
  }

  /** One turn of the acceptance loop: `break` when the count limit is
      reached, `continue` past a file that would exceed the byte limit,
      otherwise accept the file. */
  method AcceptOne(lim: Limits, candidates: seq<Candidate>, i: nat, selected: seq<string>, totalBytes: nat,
                   ghost taken: seq<Candidate>)
    returns (full: bool, selected': seq<string>, totalBytes': nat, ghost taken': seq<Candidate>)
    requires i < |candidates|
    requires taken == Greedy(lim, candidates[..i]) && selected == Rels(taken) && totalBytes == TotalSize(taken)
    ensures full ==> Greedy(lim, candidates) == taken && selected' == selected
    ensures !full ==> taken' == Greedy(lim, candidates[..i + 1]) && selected' == Rels(taken')
    ensures !full ==> totalBytes' == TotalSize(taken')
  {
    var c := candidates[i];
    GreedyStep(lim, candidates, i);
    if lim.maxFiles.Some? && |selected| >= lim.maxFiles.value {
      GreedyFullPrefix(lim, candidates, i);
      return true, selected, totalBytes, taken;
    }
    if lim.maxBytes.Some? && totalBytes + c.size > lim.maxBytes.value {
      return false, selected, totalBytes, taken;
    }
    return false, selected + [c.rel], totalBytes + c.size, taken + [c];
  }

  /** The greedy acceptance loop of `select_files_to_copy`. */
  method TakeWithinLimits(candidates: seq<Candidate>, lim: Limits) returns (selected: seq<string>)
    ensures selected == Rels(Greedy(lim, candidates))
  {
    selected := [];
    var totalBytes := 0;
    ghost var taken: seq<Candidate> := [];
    var i := 0;
    while i < |candidates|
      invariant 0 <= i <= |candidates|
      invariant taken == Greedy(lim, candidates[..i])
      invariant selected == Rels(taken)
      invariant totalBytes == TotalSize(taken)
    {
      var full;
      full, selected, totalBytes, taken := AcceptOne(lim, candidates, i, selected, totalBytes, taken);
      if full {
        return;
      }
      i := i + 1;
    }
    assert candidates[..i] == candidates;
  }

  /** Never more than `max_files` files (none at all for a limit below 1). */
  lemma {:induction false} GreedyWithinFileLimit(lim: Limits, c: seq<Candidate>)
    requires lim.maxFiles.Some?
    ensures |Greedy(lim, c)| == 0 || |Greedy(lim, c)| <= lim.maxFiles.value
  {
    if c != [] {
      GreedyWithinFileLimit(lim, c[..|c| - 1]);
    }
  }

  /** The accepted files never sum past `max_bytes`. */
  lemma {:induction false} GreedyWithinByteLimit(lim: Limits, c: seq<Candidate>)
    requires lim.maxBytes.Some?
    ensures Greedy(lim, c) == [] || TotalSize(Greedy(lim, c)) <= lim.maxBytes.value
    ensures lim.maxBytes.value >= 0 ==> TotalSize(Greedy(lim, c)) <= lim.maxBytes.value
  {
    if c != [] {
      var t := Greedy(lim, c[..|c| - 1]);
      GreedyWithinByteLimit(lim, c[..|c| - 1]);
      var x := c[|c| - 1];
      assert (t + [x])[..|t|] == t;
    }
  }

  /** A file that would overflow the byte limit is skipped, not fatal: a
      later file that still fits is accepted. */
  lemma SkipIsNotFatal(lim: Limits, c: seq<Candidate>, big: Candidate, small: Candidate)
    requires lim.maxFiles.None?
    requires Overflows(lim, TotalSize(Greedy(lim, c)), big.size)
    requires !Overflows(lim, TotalSize(Greedy(lim, c)), small.size)
    ensures Greedy(lim, c + [big, small]) == Greedy(lim, c) + [small]
  {
    assert (c + [big, small])[..|c| + 1] == c + [big];
    assert (c + [big])[..|c|] == c;
  }

  /** `a` is an in-order subsequence of `b`. */
  predicate IsSubsequence<T(==)>(a: seq<T>, b: seq<T>)
    decreases |b|
  {
    if a == [] then true
    else if b == [] then false
    else if a[0] == b[0] then IsSubsequence(a[1..], b[1..])
    else IsSubsequence(a, b[1..])
  }

  lemma {:induction false} SubsequenceExtend<T>(a: seq<T>, b: seq<T>, x: T)
    requires IsSubsequence(a, b)
    ensures IsSubsequence(a, b + [x])
    decreases |b|
  {
    if a != [] && b != [] {
      assert (b + [x])[1..] == b[1..] + [x];
      if a[0] == b[0] {
        SubsequenceExtend(a[1..], b[1..], x);
      } else {
        SubsequenceExtend(a, b[1..], x);
      }
    }
  }

  lemma {:induction false} SubsequenceLast<T>(b: seq<T>, x: T)
    ensures IsSubsequence([x], b + [x])
    decreases |b|
  {
    if b != [] {
      assert (b + [x])[1..] == b[1..] + [x];
      if b[0] != x {
        SubsequenceLast(b[1..], x);
      }
    }
  }

  lemma {:induction false} SubsequenceAppend<T>(a: seq<T>, b: seq<T>, x: T)
    requires IsSubsequence(a, b)
    ensures IsSubsequence(a + [x], b + [x])
    decreases |b|
  {
    if a == [] {
      SubsequenceLast(b, x);
      assert a + [x] == [x];
    } else {
      assert (a + [x])[0] == a[0] && (a + [x])[1..] == a[1..] + [x];
      assert (b + [x])[0] == b[0] && (b + [x])[1..] == b[1..] + [x];
      if a[0] == b[0] {
        SubsequenceAppend(a[1..], b[1..], x);
      } else {
        SubsequenceAppend(a, b[1..], x);
      }
    }
  }

  lemma {:induction false} SubsequenceReflexive<T>(a: seq<T>)
    ensures IsSubsequence(a, a)
  {
    if a != [] {
      SubsequenceReflexive(a[1..]);
    }
  }

  /** The result is an in-order subsequence of the sorted candidate list. */
  lemma {:induction false} GreedyIsSubsequence(lim: Limits, c: seq<Candidate>)
    ensures IsSubsequence(Greedy(lim, c), c)
  {
    if c == [] {
    } else {
      var init := c[..|c| - 1];
      var x := c[|c| - 1];
      GreedyIsSubsequence(lim, init);
      assert init + [x] == c;
      if Greedy(lim, c) == Greedy(lim, init) {
        SubsequenceExtend(Greedy(lim, init), init, x);
      } else {
        SubsequenceAppend(Greedy(lim, init), init, x);
      }
    }
  }

  /** Dropping the count limit cannot change which files the byte limit
      admits: the limited result is the first `max_files` of the unlimited. */
  lemma {:induction false} GreedyFileLimitIsPrefix(maxFiles: nat, maxBytes: Option<int>, c: seq<Candidate>)
    ensures var u := Greedy(Limits(None, maxBytes), c);
      Greedy(Limits(Some(maxFiles), maxBytes), c) == u[..if |u| < maxFiles then |u| else maxFiles]
  {
    if c != [] {
      var init := c[..|c| - 1];
      var x := c[|c| - 1];
      GreedyFileLimitIsPrefix(maxFiles, maxBytes, init);
      var u := Greedy(Limits(None, maxBytes), init);
      var t := Greedy(Limits(Some(maxFiles), maxBytes), init);
      if |t| < maxFiles {
        assert t == u;
      } else {
        assert |u| >= maxFiles;
        var u' := Greedy(Limits(None, maxBytes), c);
        assert u'[..maxFiles] == u[..maxFiles];
      }
    }
  }

  /** Without a byte limit the loop takes the first `max_files` candidates,
      and everything when there is no limit at all. */
  lemma {:induction false} GreedyWithoutByteLimit(maxFiles: Option<nat>, c: seq<Candidate>)
    ensures maxFiles.None? ==> Greedy(Limits(None, None), c) == c
    ensures maxFiles.Some? ==>
      Greedy(Limits(Some(maxFiles.value), None), c) == c[..if |c| < maxFiles.value then |c| else maxFiles.value]
  {
    if c != [] {
      var init := c[..|c| - 1];
      GreedyWithoutByteLimit(maxFiles, init);
      assert init + [c[|c| - 1]] == c;
      if maxFiles.None? {
        var t := Greedy(Limits(None, None), init);
        assert t == init;
      } else {
        var m := maxFiles.value;
        var t := Greedy(Limits(Some(m), None), init);
        if |init| >= m {
          assert c[..m] == init[..m];
        }
      }
    }
  }

  /** Removing the byte limit never decreases the number of files selected. */
  lemma {:induction false} ByteLimitNeverAddsFiles(maxFiles: Option<nat>, maxBytes: int, c: seq<Candidate>)
    ensures var lim := Limits(if maxFiles.Some? then Some(maxFiles.value as int) else None, Some(maxBytes));
      var free := Limits(lim.maxFiles, None);
      |Greedy(lim, c)| <= |Greedy(free, c)|
  {
    var lim := Limits(if maxFiles.Some? then Some(maxFiles.value as int) else None, Some(maxBytes));
    GreedyWithoutByteLimit(maxFiles, c);
    GreedyIsSubsequence(lim, c);
    SubsequenceNoLonger(Greedy(lim, c), c);
    if maxFiles.Some? {
      GreedyWithinFileLimit(lim, c);
    }
  }

  lemma {:induction false} SubsequenceNoLonger<T>(a: seq<T>, b: seq<T>)
    requires IsSubsequence(a, b)
    ensures |a| <= |b|
    decreases |b|
  {
    if a != [] {
      if a[0] == b[0] {
        SubsequenceNoLonger(a[1..], b[1..]);
      } else {
        SubsequenceNoLonger(a, b[1..]);
      }
    }
  }

  lemma {:induction false} SubsequenceOfSorted(o: Order, a: seq<Candidate>, b: seq<Candidate>)
    requires IsSubsequence(a, b)
    requires SortedBy(o, b)
    ensures SortedBy(o, a)
    decreases |b|
  {
    if a != [] {
      if a[0] == b[0] {
        SubsequenceOfSorted(o, a[1..], b[1..]);
        SubsequenceElements(a[1..], b[1..]);
        forall j | 0 < j < |a|
          ensures Precedes(o, a[0], a[j])
        {
          assert a[j] == a[1..][j - 1];
          var k :| 0 <= k < |b[1..]| && b[1..][k] == a[j];
          assert b[k + 1] == a[j];
        }
      } else {
        SubsequenceOfSorted(o, a, b[1..]);
      }
    }
  }

  lemma {:induction false} SubsequenceElements<T>(a: seq<T>, b: seq<T>)
    requires IsSubsequence(a, b)
    ensures forall j :: 0 <= j < |a| ==> exists k :: 0 <= k < |b| && b[k] == a[j]
    decreases |b|
  {
    if a != [] {
      if a[0] == b[0] {
        SubsequenceElements(a[1..], b[1..]);
        forall j | 0 < j < |a|
          ensures exists k :: 0 <= k < |b| && b[k] == a[j]
        {
          assert a[j] == a[1..][j - 1];
          var k :| 0 <= k < |b[1..]| && b[1..][k] == a[j];
          assert b[k + 1] == a[j];
        }
        assert b[0] == a[0];
      } else {
        SubsequenceElements(a, b[1..]);
        forall j | 0 <= j < |a|
          ensures exists k :: 0 <= k < |b| && b[k] == a[j]
        {
          var k :| 0 <= k < |b[1..]| && b[1..][k] == a[j];
          assert b[k + 1] == a[j];
        }
      }
    }
  }

  // ------------------------------------------------------------- the policy

  /** The files `select_files_to_copy` returns, as candidates. */
  function Selection(tree: Tree, subdirs: seq<string>, lim: Limits, strategy: string, extensions: seq<string>): seq<Candidate> {
    Greedy(lim, Sort(OrderOf(strategy), Candidates(tree, subdirs, extensions)))
  }

  /** `select_files_to_copy`: collect, sort by strategy, accept greedily. */
  method SelectFilesToCopy(tree: Tree, subdirs: seq<string>, lim: Limits, strategy: string, extensions: seq<string>)
    returns (selected: seq<string>)
    ensures selected == Rels(Selection(tree, subdirs, lim, strategy, extensions))
  {
    var candidates := CollectCandidates(tree, subdirs, extensions);
    if candidates == [] {
      return [];
    }
    candidates := Sort(OrderOf(strategy), candidates);
    selected := TakeWithinLimits(candidates, lim);
  }

  /** Everything the policy promises of its result at once: within both
      limits, ordered by the strategy, an in-order subsequence of the sorted
      candidates, and made only of admitted files of existing subdirectories. */
  lemma SelectionProperties(tree: Tree, subdirs: seq<string>, lim: Limits, strategy: string, extensions: seq<string>)
    ensures var r := Selection(tree, subdirs, lim, strategy, extensions);
      && (lim.maxFiles.Some? ==> |r| == 0 || |r| <= lim.maxFiles.value)
      && (lim.maxBytes.Some? ==> r == [] || TotalSize(r) <= lim.maxBytes.value)
      && IsSubsequence(r, Sort(OrderOf(strategy), Candidates(tree, subdirs, extensions)))
      && SortedBy(OrderOf(strategy), r)
      && (forall c :: c in r ==> c in Candidates(tree, subdirs, extensions))
  {
    var all := Candidates(tree, subdirs, extensions);
    var sorted := Sort(OrderOf(strategy), all);
    var r := Greedy(lim, sorted);
    if lim.maxFiles.Some? {
      GreedyWithinFileLimit(lim, sorted);
    }
    if lim.maxBytes.Some? {
      GreedyWithinByteLimit(lim, sorted);
    }
    GreedyIsSubsequence(lim, sorted);
    SortSortedPermutation(OrderOf(strategy), all);
    SubsequenceOfSorted(OrderOf(strategy), r, sorted);
    SubsequenceElements(r, sorted);
    forall c | c in r
      ensures c in all
    {
      var j :| 0 <= j < |r| && r[j] == c;
      var k :| 0 <= k < |sorted| && sorted[k] == c;
      assert c in multiset(sorted);
    }
  }
}
