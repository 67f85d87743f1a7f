/** Size-based rotation of a log file: generation 0 is the current file, generation n is `<file>.n`. File-system
    calls may fail anywhere; the logger then skips the rest of the rotation and still writes. */
module LogRotation {
  import opened Wrappers

  type Line = seq<bv8>
  type Disk = map<nat, seq<Line>>

  datatype Config = Config(maxSizeBytes: nat, maxGenerations: nat)

  function Size(lines: seq<Line>): nat {
    if lines == [] then 0 else Size(lines[..|lines| - 1]) + |lines[|lines| - 1]|
  }

  // ---- reading ----

  /** The files read from generation `n` down to the current one. */
  function ReadFrom(d: Disk, n: nat): seq<Line> {
    (if n in d then d[n] else []) + (if n == 0 then [] else ReadFrom(d, n - 1))
  }

  ghost predicate Below(d: Disk, n: nat) { forall g :: g in d ==> g <= n }

  lemma {:induction false} HasTop(keys: set<nat>) returns (n: nat)
    ensures forall g :: g in keys ==> g <= n
    decreases keys
  {
    if keys == {} {
      n := 0;
    } else {
      var k :| k in keys;
      var m := HasTop(keys - {k});
      n := if k > m then k else m;
      forall g | g in keys ensures g <= n { assert g == k || g in keys - {k}; }
    }
  }

  lemma {:induction false} ReadHigher(d: Disk, n: nat, m: nat)
    requires Below(d, n) && n <= m
    ensures ReadFrom(d, m) == ReadFrom(d, n)
    decreases m
  {
    if n < m { ReadHigher(d, n, m - 1); }
  }

  ghost predicate Reads(d: Disk, lines: seq<Line>) { exists n: nat :: Below(d, n) && ReadFrom(d, n) == lines }

  /** All retained lines, oldest first. */
  ghost function ReadAll(d: Disk): (lines: seq<Line>)
    ensures Reads(d, lines)
  {
    TopExists(d);
    var n: nat :| Below(d, n);
    ReadFrom(d, n)
  }

  lemma TopExists(d: Disk)
    ensures exists n: nat :: Below(d, n)
  {
    var n := HasTop(d.Keys);
    assert Below(d, n);
  }

  lemma ReadAllFrom(d: Disk, n: nat)
    requires Below(d, n)
    ensures ReadAll(d) == ReadFrom(d, n)
  {
    var m: nat :| Below(d, m) && ReadFrom(d, m) == ReadAll(d);
    ReadHigher(d, if n < m then n else m, if n < m then m else n);
  }

  predicate Suffix(x: seq<Line>, whole: seq<Line>) {
    |x| <= |whole| && whole[|whole| - |x|..] == x
  }

  // ---- rotation as a function ----

  predicate Failing(budget: Option<nat>) { budget == Some(0) }
  function Spend(budget: Option<nat>): Option<nat> { if budget.None? || budget.value == 0 then budget else Some(budget.value - 1) }

  datatype Progress = Progress(disk: Disk, budget: Option<nat>, failed: bool)

  /** Unlinks the listed generations at or above the threshold, in directory order, until a call fails. */
  function Pruned(d: Disk, listing: seq<nat>, threshold: nat, budget: Option<nat>): Progress
    decreases |listing|
  {
    if listing == [] then Progress(d, budget, false)
    else if listing[0] < threshold then Pruned(d, listing[1..], threshold, budget)
    else if Failing(budget) then Progress(d, budget, true)
    else Pruned(d - {listing[0]}, listing[1..], threshold, Spend(budget))
  }

  function Renamed(d: Disk, g: nat): Disk
    requires g in d
  {
    (d - {g})[g + 1 := d[g]]
  }

  /** Renames generation n - 1, ..., 0 to the next one, until a call fails. */
  function Shifted(d: Disk, n: nat, budget: Option<nat>): Progress
    decreases n
  {
    if n == 0 then Progress(d, budget, false)
    else if n - 1 !in d then Shifted(d, n - 1, budget)
    else if Failing(budget) then Progress(d, budget, true)
    else Shifted(Renamed(d, n - 1), n - 1, Spend(budget))
  }

  function Rotated(d: Disk, listing: seq<nat>, maxGenerations: nat, budget: Option<nat>): Progress {
    var pruned := Pruned(d, listing, maxGenerations, budget);
    if pruned.failed then pruned else Shifted(pruned.disk, maxGenerations, pruned.budget)
  }

  predicate Needed(d: Disk, c: Config) { 0 in d && Size(d[0]) >= c.maxSizeBytes }

  function Appended(d: Disk, line: Line): Disk { d[0 := (if 0 in d then d[0] else []) + [line]] }

  /** One write: rotate when the current file is full, then append whatever became of the rotation. */
  function Written(d: Disk, line: Line, c: Config, listing: seq<nat>, budget: Option<nat>): Disk {
    Appended(if Needed(d, c) then Rotated(d, listing, c.maxGenerations, budget).disk else d, line)
  }

  /** The directory lists each rotated generation once, in any order. */
  ghost predicate Lists(d: Disk, listing: seq<nat>) {
    (forall g: nat :: g in listing <==> g in d && g > 0) && forall i, j :: 0 <= i < j < |listing| ==> listing[i] != listing[j]
  }

  class LogFile {
    var disk: Disk
    var budget: Option<nat>

    constructor (disk: Disk)
      ensures this.disk == disk && budget == None
    {
      this.disk, budget := disk, None;
    }

    method UnlinkSync(g: nat) returns (ok: bool)
      requires g in disk
      modifies this
      ensures ok <==> !Failing(old(budget))
      ensures disk == (if ok then old(disk) - {g} else old(disk)) && budget == if ok then Spend(old(budget)) else old(budget)
    {
      if budget == Some(0) { return false; }
      disk := disk - {g};
      if budget.Some? { budget := Some(budget.value - 1); }
      return true;
    }

    /** No rename overwrites a file. */
    method RenameSync(g: nat) returns (ok: bool)
      requires g in disk && g + 1 !in disk
      modifies this
      ensures ok <==> !Failing(old(budget))
      ensures disk == (if ok then Renamed(old(disk), g) else old(disk)) && budget == if ok then Spend(old(budget)) else old(budget)
    {
      if budget == Some(0) { return false; }
      disk := (disk - {g})[g + 1 := disk[g]];
      if budget.Some? { budget := Some(budget.value - 1); }
      return true;
    }

    method PruneGenerationsAtOrAbove(threshold: nat, listing: seq<nat>) returns (ok: bool)
      requires Lists(disk, listing) && threshold > 0
      modifies this
      ensures Progress(disk, budget, !ok) == Pruned(old(disk), listing, threshold, old(budget))
      ensures ok ==> forall g :: g in disk <==> g in old(disk) && g < threshold
    {
      assert listing[0..] == listing;
      for i := 0 to |listing|
        invariant Pruned(disk, listing[i..], threshold, budget) == Pruned(old(disk), listing, threshold, old(budget))
        invariant forall g :: g in disk <==> g in old(disk) && !(g in listing[..i] && g >= threshold)
      {
        assert listing[i..][0] == listing[i] && listing[i..][1..] == listing[i + 1..];
        assert listing[..i + 1] == listing[..i] + [listing[i]];
        if listing[i] >= threshold {
          assert listing[i] !in listing[..i];
          assert listing[i] in listing;
          var unlinked := UnlinkSync(listing[i]);
          if !unlinked { return false; }
        }
      }
      assert listing[..|listing|] == listing;
      return true;
    }

    method RotateLogFile(maxGenerations: nat, listing: seq<nat>) returns (ok: bool)
      requires Lists(disk, listing) && maxGenerations > 0
      modifies this
      ensures Progress(disk, budget, !ok) == Rotated(old(disk), listing, maxGenerations, old(budget))
    {
      var pruned := PruneGenerationsAtOrAbove(maxGenerations, listing);
      if !pruned { return false; }
      ghost var whole := Shifted(disk, maxGenerations, budget);
      var generation := maxGenerations - 1;
      while generation >= 1
        invariant 0 <= generation < maxGenerations && generation + 1 !in disk
        invariant Shifted(disk, generation + 1, budget) == whole
      {
        if generation in disk {
          var renamed := RenameSync(generation);
          if !renamed { return false; }
        }
        generation := generation - 1;
      }
      if 0 in disk {
        var renamed := RenameSync(0);
        if !renamed { return false; }
      }
      return true;
    }

    method RotateLogFileIfNeeded(config: Config, listing: seq<nat>) returns (ok: bool)
      requires Lists(disk, listing) && config.maxGenerations > 0
      modifies this
      ensures disk == if Needed(old(disk), config) then Rotated(old(disk), listing, config.maxGenerations, old(budget)).disk else old(disk)
    {
      if 0 !in disk { return true; }
      if Size(disk[0]) < config.maxSizeBytes { return true; }
      ok := RotateLogFile(config.maxGenerations, listing);
    }

    /** The logger's write: a failed rotation does not stop it. `failAt` is the number of calls that succeed first. */
    method Write(line: Line, config: Config, listing: seq<nat>, failAt: Option<nat>)
      requires Lists(disk, listing) && config.maxGenerations > 0
      modifies this
      ensures disk == Written(old(disk), line, config, listing, failAt)
    {
      budget := failAt;
      var rotated := RotateLogFileIfNeeded(config, listing);
      var lines := if 0 in disk then disk[0] else [];
      disk := disk[0 := lines + [line]];
    }
  }

  // ---- no line is lost out of order ----

  lemma {:induction false} RenameKeepsReading(d: Disk, g: nat, n: nat)
    requires g in d && g + 1 !in d
    ensures n > g ==> ReadFrom(Renamed(d, g), n) == ReadFrom(d, n)
    ensures n < g ==> ReadFrom(Renamed(d, g), n) == ReadFrom(d, n)
    decreases n
  {
    if n > 0 { RenameKeepsReading(d, g, n - 1); }
    if n == g + 1 && g > 0 { RenameKeepsReading(d, g, g - 1); }
  }

  lemma RenameKeepsAll(d: Disk, g: nat)
    requires g in d && g + 1 !in d
    ensures ReadAll(Renamed(d, g)) == ReadAll(d)
  {
    hide ReadAll;
    var n := HasTop(d.Keys);
    assert Below(d, n + 1);
    ReadAllFrom(d, n + 1);
    ReadAllFrom(Renamed(d, g), n + 1);
    RenameKeepsReading(d, g, n + 1);
  }

  /** Renaming the generations one up, even only some of the upper ones, keeps every line in its place. */
  lemma {:induction false} ShiftKeepsAll(d: Disk, n: nat, budget: Option<nat>)
    requires n !in d
    ensures ReadAll(Shifted(d, n, budget).disk) == ReadAll(d)
    decreases n
  {
    hide ReadAll;
    if n > 0 {
      if n - 1 !in d {
        ShiftKeepsAll(d, n - 1, budget);
      } else if !Failing(budget) {
        RenameKeepsAll(d, n - 1);
        ShiftKeepsAll(Renamed(d, n - 1), n - 1, Spend(budget));
      }
    }
  }

  function At(d: Disk, n: nat): seq<Line> { if n in d then d[n] else [] }

  lemma ReadSplit(d: Disk, n: nat)
    ensures ReadFrom(d, n) == At(d, n) + if n == 0 then [] else ReadFrom(d, n - 1)
  {
  }

  /** Only the oldest generations are gone. */
  ghost predicate OldestGone(d: Disk, d': Disk) {
    && (forall g :: g in d' ==> g in d && d'[g] == d[g])
    && (forall g, h :: g in d && g !in d' && h in d && h > g ==> h !in d')
  }

  lemma {:induction false} OldestGoneReads(d: Disk, d': Disk, n: nat)
    requires OldestGone(d, d')
    ensures Suffix(ReadFrom(d', n), ReadFrom(d, n))
    decreases n
  {
    hide ReadFrom, OldestGone, Suffix;
    if n in d' {
      SameBelow(d, d', n);
      SuffixOfLonger(ReadFrom(d, n), [], ReadFrom(d, n));
    } else {
      ReadSplit(d', n);
      ReadSplit(d, n);
      if n > 0 { OldestGoneReads(d, d', n - 1); }
      SuffixOfLonger(ReadFrom(d', n), At(d, n), if n == 0 then [] else ReadFrom(d, n - 1));
    }
  }

  lemma SuffixOfLonger(x: seq<Line>, more: seq<Line>, whole: seq<Line>)
    ensures Suffix(x, x) && Suffix([], whole) && [] + x == x
    ensures Suffix(x, whole) ==> Suffix(x, more + whole)
  {
    if Suffix(x, whole) { assert (more + whole)[|more| + |whole| - |x|..] == whole[|whole| - |x|..]; }
  }

  lemma {:induction false} SameBelow(d: Disk, d': Disk, n: nat)
    requires OldestGone(d, d') && exists h :: h in d' && h >= n
    ensures ReadFrom(d', n) == ReadFrom(d, n)
    decreases n
  {
    var h :| h in d' && h >= n;
    if n > 0 { SameBelow(d, d', n - 1); }
  }

  lemma OldestGoneSuffix(d: Disk, d': Disk)
    requires OldestGone(d, d')
    ensures Suffix(ReadAll(d'), ReadAll(d))
  {
    hide ReadAll;
    var n := HasTop(d.Keys);
    assert Below(d, n);
    ReadAllFrom(d, n);
    ReadAllFrom(d', n);
    OldestGoneReads(d, d', n);
  }

  lemma {:induction false} PruneRemoves(d: Disk, listing: seq<nat>, threshold: nat, budget: Option<nat>)
    ensures var r := Pruned(d, listing, threshold, budget);
            && (forall g :: g in r.disk ==> g in d && r.disk[g] == d[g])
            && (forall g :: g in d && g !in r.disk ==> g in listing && g >= threshold)
            && (!r.failed ==> forall g :: g in listing && g >= threshold ==> g !in r.disk)
    decreases |listing|
  {
    if listing != [] {
      var rest := listing[1..];
      assert listing == [listing[0]] + rest;
      if listing[0] < threshold {
        PruneRemoves(d, rest, threshold, budget);
      } else if !Failing(budget) {
        PruneRemoves(d - {listing[0]}, rest, threshold, Spend(budget));
      }
    }
  }

  // ---- the order of the directory listing ----

  /** The listed generations to unlink, in directory order. */
  function Doomed(listing: seq<nat>, threshold: nat): (doomed: seq<nat>)
    ensures forall g :: g in doomed <==> g in listing && g >= threshold
  {
    if listing == [] then []
    else (if listing[0] >= threshold then [listing[0]] else []) + Doomed(listing[1..], threshold)
  }

  /** How many of them are unlinked when the call after `failAt` successful ones fails. */
  function Unlinked(listing: seq<nat>, threshold: nat, failAt: Option<nat>): (k: nat)
    ensures k <= |Doomed(listing, threshold)|
  {
    var n := |Doomed(listing, threshold)|;
    if failAt.Some? && failAt.value < n then failAt.value else n
  }

  /** What is unlinked before the failing call lies above all that is left to unlink. */
  ghost predicate HighestFirst(listing: seq<nat>, threshold: nat, failAt: Option<nat>) {
    var doomed, k := Doomed(listing, threshold), Unlinked(listing, threshold, failAt);
    forall i, j :: 0 <= i < k <= j < |doomed| ==> doomed[i] > doomed[j]
  }

  /** The generations to unlink are listed from the highest down. */
  ghost predicate Descending(listing: seq<nat>, threshold: nat) {
    var doomed := Doomed(listing, threshold);
    forall i, j :: 0 <= i < j < |doomed| ==> doomed[i] > doomed[j]
  }

  /** The prune takes the first ones of the listing, as far as the calls succeed. */
  lemma {:induction false} PruneTakesFirst(d: Disk, listing: seq<nat>, threshold: nat, budget: Option<nat>)
    ensures var r, doomed, k := Pruned(d, listing, threshold, budget), Doomed(listing, threshold), Unlinked(listing, threshold, budget);
            && r.disk == d - (set g | g in doomed[..k])
            && r.failed == (k < |doomed|)
            && r.budget == if budget.Some? then Some(budget.value - k) else None
    decreases |listing|
  {
    if listing != [] {
      var rest := listing[1..];
      if listing[0] < threshold {
        PruneTakesFirst(d, rest, threshold, budget);
        assert Doomed(listing, threshold) == Doomed(rest, threshold);
      } else if !Failing(budget) {
        PruneTakesFirst(d - {listing[0]}, rest, threshold, Spend(budget));
        var k := Unlinked(rest, threshold, Spend(budget));
        assert Doomed(listing, threshold)[..k + 1] == [listing[0]] + Doomed(rest, threshold)[..k];
      }
    }
  }

  lemma {:induction false} DoomedDistinct(listing: seq<nat>, threshold: nat)
    requires forall i, j :: 0 <= i < j < |listing| ==> listing[i] != listing[j]
    ensures var doomed := Doomed(listing, threshold); forall i, j :: 0 <= i < j < |doomed| ==> doomed[i] != doomed[j]
    decreases |listing|
  {
    if listing != [] {
      var head, rest := listing[0], listing[1..];
      DoomedDistinct(rest, threshold);
      assert head !in Doomed(rest, threshold);
      assert Doomed(listing, threshold) == if head >= threshold then [head] + Doomed(rest, threshold) else Doomed(rest, threshold);
    }
  }

  /** Only the oldest generations are gone exactly when the listing has them in front. */
  lemma OldestGoneExactly(d: Disk, listing: seq<nat>, threshold: nat, budget: Option<nat>)
    requires Lists(d, listing) && threshold > 0
    ensures OldestGone(d, Pruned(d, listing, threshold, budget).disk) <==> HighestFirst(listing, threshold, budget)
  {
    hide Pruned, Doomed, Unlinked;
    PruneTakesFirst(d, listing, threshold, budget);
    DoomedDistinct(listing, threshold);
    var d', doomed, k := Pruned(d, listing, threshold, budget).disk, Doomed(listing, threshold), Unlinked(listing, threshold, budget);
    if HighestFirst(listing, threshold, budget) {
      forall g, h | g in d && g !in d' && h in d && h > g ensures h !in d' {
        var i :| 0 <= i < k && doomed[..k][i] == g;
        assert h in doomed;
        var j :| 0 <= j < |doomed| && doomed[j] == h;
        assert j < k ==> doomed[..k][j] == h;
      }
    }
    if OldestGone(d, d') {
      forall i, j | 0 <= i < k <= j < |doomed| ensures doomed[i] > doomed[j] {
        assert doomed[..k][i] == doomed[i];
        assert doomed[i] in doomed && doomed[j] in doomed;
        assert doomed[i] !in d' && doomed[j] in d';
      }
    }
  }

  /** Descending listings, and only they, are in order wherever the prune fails. */
  lemma DescendingExactly(listing: seq<nat>, threshold: nat)
    ensures Descending(listing, threshold) <==> forall failAt: Option<nat> :: HighestFirst(listing, threshold, failAt)
  {
    hide Doomed, Unlinked;
    var doomed := Doomed(listing, threshold);
    if Descending(listing, threshold) {
      assert forall failAt: Option<nat> :: HighestFirst(listing, threshold, failAt);
    }
    if forall failAt: Option<nat> :: HighestFirst(listing, threshold, failAt) {
      forall i, j | 0 <= i < j < |doomed| ensures doomed[i] > doomed[j] {
        assert HighestFirst(listing, threshold, Some(i + 1));
        UnlinkedAt(listing, threshold, i + 1);
      }
    }
  }

  lemma UnlinkedAt(listing: seq<nat>, threshold: nat, k: nat)
    ensures Unlinked(listing, threshold, Some(k)) == if k < |Doomed(listing, threshold)| then k else |Doomed(listing, threshold)|
  {
  }

  // ---- what a write retains ----

  /** A rotation keeps the order of what its prune left, wherever a rename fails. */
  lemma RotationReads(d: Disk, listing: seq<nat>, m: nat, budget: Option<nat>)
    requires Lists(d, listing) && m > 0
    ensures ReadAll(Rotated(d, listing, m, budget).disk) == ReadAll(Pruned(d, listing, m, budget).disk)
  {
    hide ReadAll;
    var pruned := Pruned(d, listing, m, budget);
    PruneRemoves(d, listing, m, budget);
    if !pruned.failed {
      assert m in d ==> m in listing;
      ShiftKeepsAll(pruned.disk, m, pruned.budget);
    }
  }

  lemma {:induction false} AppendReads(d: Disk, line: Line, n: nat)
    ensures ReadFrom(Appended(d, line), n) == ReadFrom(d, n) + [line]
    decreases n
  {
    if n > 0 {
      AppendReads(d, line, n - 1);
    }
  }

  lemma AppendAll(d: Disk, line: Line)
    ensures ReadAll(Appended(d, line)) == ReadAll(d) + [line]
  {
    hide ReadAll;
    var n := HasTop(d.Keys);
    assert Below(d, n) && Below(Appended(d, line), n);
    ReadAllFrom(d, n);
    ReadAllFrom(Appended(d, line), n);
    AppendReads(d, line, n);
  }

  lemma SuffixChain(a: seq<Line>, b: seq<Line>, c: seq<Line>)
    requires Suffix(b, c)
    ensures Suffix(a, b) <==> Suffix(a, c) && |a| <= |b|
  {
    if |a| <= |b| { assert c[|c| - |b|..][|b| - |a|..] == c[|c| - |a|..]; }
  }

  lemma SuffixAppend(a: seq<Line>, b: seq<Line>, line: Line)
    ensures Suffix(a + [line], b + [line]) <==> Suffix(a, b)
  {
    if |a| <= |b| {
      var tail := b[|b| - |a|..];
      assert (b + [line])[|b| - |a|..] == tail + [line];
      assert (tail + [line])[..|a|] == tail && (a + [line])[..|a|] == a;
    }
  }

  /** The rotation before this write, if there is one, unlinks from the top as far as it comes. */
  ghost predicate InOrder(d: Disk, c: Config, listing: seq<nat>, failAt: Option<nat>) {
    Needed(d, c) ==> HighestFirst(listing, c.maxGenerations, failAt)
  }

  lemma WriteReads(d: Disk, line: Line, c: Config, listing: seq<nat>, budget: Option<nat>)
    requires Lists(d, listing) && c.maxGenerations > 0
    ensures ReadAll(Written(d, line, c, listing, budget))
         == (if Needed(d, c) then ReadAll(Pruned(d, listing, c.maxGenerations, budget).disk) else ReadAll(d)) + [line]
  {
    hide ReadAll, Needed, Rotated, Pruned;
    if Needed(d, c) { RotationReads(d, listing, c.maxGenerations, budget); }
    AppendAll(if Needed(d, c) then Rotated(d, listing, c.maxGenerations, budget).disk else d, line);
  }

  /** One write retains a suffix, whatever the number of generations and wherever a call fails, when it unlinks
      in order. */
  lemma WriteKeepsSuffix(d: Disk, line: Line, c: Config, listing: seq<nat>, budget: Option<nat>)
    requires Lists(d, listing) && c.maxGenerations > 0 && InOrder(d, c, listing, budget)
    ensures Suffix(ReadAll(Written(d, line, c, listing, budget)), ReadAll(d) + [line])
  {
    hide ReadAll, Written, Pruned, HighestFirst, OldestGone, Needed;
    WriteReads(d, line, c, listing, budget);
    if Needed(d, c) {
      var left := Pruned(d, listing, c.maxGenerations, budget).disk;
      OldestGoneExactly(d, listing, c.maxGenerations, budget);
      OldestGoneSuffix(d, left);
      SuffixAppend(ReadAll(left), ReadAll(d), line);
    }
  }

  // ---- runs ----

  datatype Call = Call(line: Line, config: Config, listing: seq<nat>, failAt: Option<nat>)

  ghost predicate Run(ds: seq<Disk>, calls: seq<Call>) {
    |ds| == |calls| + 1
    && forall i :: 0 <= i < |calls| ==>
         Lists(ds[i], calls[i].listing) && calls[i].config.maxGenerations > 0 && ds[i + 1] == WrittenBy(ds[i], calls[i])
  }

  function WrittenBy(d: Disk, c: Call): Disk { Written(d, c.line, c.config, c.listing, c.failAt) }

  function Lines(calls: seq<Call>): seq<Line> {
    seq(|calls|, i requires 0 <= i < |calls| => calls[i].line)
  }

  ghost predicate CallInOrder(d: Disk, c: Call) { InOrder(d, c.config, c.listing, c.failAt) }

  /** Over any run whose prunes unlink in order, what is retained is a suffix of what was there and all that was
      written. */
  lemma {:induction false} RetainedIsSuffix(ds: seq<Disk>, calls: seq<Call>, i: nat)
    requires Run(ds, calls) && i < |ds|
    requires forall k :: 0 <= k < i ==> CallInOrder(ds[k], calls[k])
    ensures Suffix(ReadAll(ds[i]), History(ds, calls, i))
    decreases i
  {
    hide ReadAll, InOrder, Written, Lists;
    if i == 0 {
      assert History(ds, calls, 0) == ReadAll(ds[0]);
    } else {
      var k := i - 1;
      RetainedIsSuffix(ds, calls, k);
      assert CallInOrder(ds[k], calls[k]);
      WriteKeepsSuffix(ds[k], calls[k].line, calls[k].config, calls[k].listing, calls[k].failAt);
      HistoryGrows(ds, calls, k);
      SuffixAppend(ReadAll(ds[k]), History(ds, calls, k), calls[k].line);
      SuffixChain(ReadAll(ds[i]), ReadAll(ds[k]) + [calls[k].line], History(ds, calls, i));
      assert ds[k + 1] == WrittenBy(ds[k], calls[k]);
    }
  }

  /** What was there and all that was written before step `i`. */
  ghost function History(ds: seq<Disk>, calls: seq<Call>, i: nat): seq<Line>
    requires |ds| == |calls| + 1 && i < |ds|
  {
    ReadAll(ds[0]) + Lines(calls)[..i]
  }

  lemma HistoryGrows(ds: seq<Disk>, calls: seq<Call>, k: nat)
    requires |ds| == |calls| + 1 && k < |calls|
    ensures History(ds, calls, k + 1) == History(ds, calls, k) + [calls[k].line]
  {
    hide ReadAll;
    assert Lines(calls)[..k + 1] == Lines(calls)[..k] + [calls[k].line];
  }

  // ---- how many generations, how large ----

  /** The generation whose lines end up in generation `g` when the ones below `n` move up. */
  function Source(n: nat, g: nat): Option<nat> { if g > n then Some(g) else if g > 0 then Some(g - 1) else None }

  lemma {:induction false} ShiftMeans(d: Disk, n: nat, budget: Option<nat>)
    requires n !in d && !Shifted(d, n, budget).failed
    ensures var r := Shifted(d, n, budget).disk;
            && (forall g: nat :: g in r <==> Source(n, g).Some? && Source(n, g).value in d)
            && (forall g: nat :: g in r ==> r[g] == d[Source(n, g).value])
    decreases n
  {
    if n > 0 {
      if n - 1 !in d {
        ShiftMeans(d, n - 1, budget);
        assert Shifted(d, n, budget) == Shifted(d, n - 1, budget);
      } else {
        ShiftMeans(Renamed(d, n - 1), n - 1, Spend(budget));
      }
    }
  }

  lemma PruneMeans(d: Disk, listing: seq<nat>, m: nat, budget: Option<nat>)
    requires Lists(d, listing) && m > 0 && !Pruned(d, listing, m, budget).failed
    ensures var r := Pruned(d, listing, m, budget).disk;
            (forall g: nat :: g in r <==> g in d && g < m) && forall g :: g in r ==> r[g] == d[g]
  {
    hide Pruned;
    PruneRemoves(d, listing, m, budget);
    forall g: nat | g in d && g >= m ensures g !in Pruned(d, listing, m, budget).disk { assert g in listing; }
  }

  /** What a rotation without failures leaves: the generations below the limit, each one up. */
  ghost predicate OneUp(d: Disk, m: nat, r: Disk) {
    (forall g: nat :: g in r <==> MovesUpTo(d, m, g)) && forall g: nat :: g in r ==> r[g] == d[g - 1]
  }

  predicate MovesUpTo(d: Disk, m: nat, g: nat) { 0 < g <= m && g - 1 in d }

  lemma RotationMeans(d: Disk, listing: seq<nat>, m: nat, budget: Option<nat>)
    requires Lists(d, listing) && m > 0 && !Rotated(d, listing, m, budget).failed
    ensures OneUp(d, m, Rotated(d, listing, m, budget).disk)
  {
    hide Pruned, Shifted, Lists;
    var pruned := Pruned(d, listing, m, budget);
    PruneMeans(d, listing, m, budget);
    ShiftMeans(pruned.disk, m, pruned.budget);
    var r := Rotated(d, listing, m, budget).disk;
    forall g: nat ensures g in r <==> MovesUpTo(d, m, g) {
      assert g in r <==> Source(m, g).Some? && Source(m, g).value in pruned.disk;
    }
  }

  /** The generations below `n`, each renamed once. */
  function Present(d: Disk, n: nat): nat {
    if n == 0 then 0 else Present(d, n - 1) + if n - 1 in d then 1 else 0
  }

  lemma {:induction false} PresentBelow(d: Disk, d': Disk, n: nat)
    requires forall g :: g < n ==> (g in d <==> g in d')
    ensures Present(d, n) == Present(d', n)
    decreases n
  {
    if n > 0 { PresentBelow(d, d', n - 1); }
  }

  lemma {:induction false} ShiftFailsExactly(d: Disk, n: nat, budget: Option<nat>)
    requires n !in d
    ensures Shifted(d, n, budget).failed <==> budget.Some? && budget.value < Present(d, n)
    decreases n
  {
    if n > 0 {
      if n - 1 !in d {
        ShiftFailsExactly(d, n - 1, budget);
      } else if !Failing(budget) {
        ShiftFailsExactly(Renamed(d, n - 1), n - 1, Spend(budget));
        PresentBelow(d, Renamed(d, n - 1), n - 1);
      }
    }
  }

  /** The calls of a whole rotation: one for each generation to unlink, one for each to rename. */
  function Calls(d: Disk, listing: seq<nat>, m: nat): nat { |Doomed(listing, m)| + Present(d, m) }

  predicate Suffices(failAt: Option<nat>, calls: nat) { failAt.Some? ==> failAt.value >= calls }

  lemma RotationFailsExactly(d: Disk, listing: seq<nat>, m: nat, budget: Option<nat>)
    requires Lists(d, listing) && m > 0
    ensures Rotated(d, listing, m, budget).failed <==> !Suffices(budget, Calls(d, listing, m))
  {
    hide Pruned, Shifted, Doomed, Lists;
    var pruned := Pruned(d, listing, m, budget);
    PruneTakesFirst(d, listing, m, budget);
    if !pruned.failed {
      PruneMeans(d, listing, m, budget);
      PresentBelow(d, pruned.disk, m);
      ShiftFailsExactly(pruned.disk, m, pruned.budget);
    }
  }

  /** After a rotation whose calls all succeed at most `maxGenerations` rotated files remain. */
  lemma GenerationsBounded(d: Disk, line: Line, c: Config, listing: seq<nat>, budget: Option<nat>)
    requires Lists(d, listing) && c.maxGenerations > 0 && Needed(d, c)
    requires Suffices(budget, Calls(d, listing, c.maxGenerations))
    ensures forall g :: g in Written(d, line, c, listing, budget) ==> g <= c.maxGenerations
    ensures Written(d, line, c, listing, budget)[0] == [line]
  {
    hide Rotated, Doomed, Calls, Lists, Needed;
    RotationFailsExactly(d, listing, c.maxGenerations, budget);
    RotationMeans(d, listing, c.maxGenerations, budget);
  }

  /** Without its last line a file is below the threshold. */
  predicate Bounded(lines: seq<Line>, threshold: nat) {
    lines != [] ==> Size(lines[..|lines| - 1]) < threshold
  }

  lemma BoundedMeans(lines: seq<Line>, threshold: nat)
    requires Bounded(lines, threshold) && lines != []
    ensures Size(lines) < threshold + |lines[|lines| - 1]|
  {
  }

  /** Every file is below the threshold plus its last line, every rotated one at least the threshold. */
  ghost predicate Sized(d: Disk, threshold: nat) {
    (forall g :: g in d ==> Bounded(d[g], threshold)) && forall g: nat :: g in d && g > 0 ==> Size(d[g]) >= threshold
  }

  lemma WriteKeepsSizes(d: Disk, line: Line, c: Config, listing: seq<nat>, budget: Option<nat>)
    requires Lists(d, listing) && c.maxGenerations > 0 && c.maxSizeBytes > 0 && Sized(d, c.maxSizeBytes)
    requires Needed(d, c) ==> Suffices(budget, Calls(d, listing, c.maxGenerations))
    ensures Sized(Written(d, line, c, listing, budget), c.maxSizeBytes)
  {
    hide Rotated, Calls;
    RotationFailsExactly(d, listing, c.maxGenerations, budget);
    var before := if 0 in d && !Needed(d, c) then d[0] else [];
    assert (before + [line])[..|before|] == before;
    if Needed(d, c) { RotationMeans(d, listing, c.maxGenerations, budget); }
  }

  predicate NoFailure(d: Disk, c: Call) {
    Needed(d, c.config) ==> Suffices(c.failAt, Calls(d, c.listing, c.config.maxGenerations))
  }

  /** Over any run with one threshold and no failed rotation the sizes stay in their bounds. */
  lemma {:induction false} RunKeepsSizes(ds: seq<Disk>, calls: seq<Call>, i: nat, threshold: nat)
    requires Run(ds, calls) && i < |ds| && threshold > 0 && Sized(ds[0], threshold)
    requires forall k :: 0 <= k < |calls| ==> calls[k].config.maxSizeBytes == threshold && NoFailure(ds[k], calls[k])
    ensures Sized(ds[i], threshold)
    decreases i
  {
    hide Sized, Written, Lists;
    if i > 0 {
      var k := i - 1;
      RunKeepsSizes(ds, calls, k, threshold);
      assert NoFailure(ds[k], calls[k]);
      WriteKeepsSizes(ds[k], calls[k].line, calls[k].config, calls[k].listing, calls[k].failAt);
      assert ds[k + 1] == WrittenBy(ds[k], calls[k]);
    }
  }

  // ---- exactly which prunes keep the order ----

  lemma {:induction false} ReadMember(d: Disk, n: nat, line: Line)
    requires line in ReadFrom(d, n)
    ensures exists k :: k in d && k <= n && line in d[k]
    decreases n
  {
    if !(n in d && line in d[n]) { ReadMember(d, n - 1, line); }
  }

  lemma {:induction false} ReadPlace(d: Disk, n: nat, g: nat, line: Line) returns (i: nat)
    requires g in d && g <= n && line in d[g]
    ensures i < |ReadFrom(d, n)| && ReadFrom(d, n)[i] == line
    decreases n
  {
    hide ReadFrom;
    ReadSplit(d, n);
    if g == n {
      i :| 0 <= i < |d[n]| && d[n][i] == line;
    } else {
      var k := ReadPlace(d, n - 1, g, line);
      i := |At(d, n)| + k;
    }
  }

  lemma {:induction false} ReadInOrder(d: Disk, n: nat, h: nat, a: Line, g: nat, b: Line) returns (i: nat, j: nat)
    requires h in d && g in d && g < h <= n && a in d[h] && b in d[g]
    ensures i < j < |ReadFrom(d, n)| && ReadFrom(d, n)[i] == a && ReadFrom(d, n)[j] == b
    decreases n
  {
    hide ReadFrom;
    ReadSplit(d, n);
    var above := |At(d, n)|;
    if h == n {
      i :| 0 <= i < |d[n]| && d[n][i] == a;
      var k := ReadPlace(d, n - 1, g, b);
      j := above + k;
    } else {
      var x, y := ReadInOrder(d, n - 1, h, a, g, b);
      i, j := above + x, above + y;
    }
  }

  predicate Distinct(lines: seq<Line>) { forall i, j :: 0 <= i < j < |lines| ==> lines[i] != lines[j] }

  /** A suffix that holds a line holds every line after it. */
  lemma SuffixHoldsLater(s: seq<Line>, w: seq<Line>, i: nat, j: nat)
    requires Suffix(s, w) && Distinct(w) && i < j < |w| && w[i] in s
    ensures w[j] in s
  {
    var k :| 0 <= k < |s| && s[k] == w[i];
    var start := |w| - |s|;
    assert w[start..][k] == w[start + k];
    assert start + k == i;
    assert w[start..][j - start] == w[j];
  }

  /** When no line occurs twice and no file is empty, what remains of a prune is a suffix exactly when only the
      oldest generations are gone. */
  lemma SuffixMeansOldestGone(d: Disk, d': Disk)
    requires (forall g :: g in d' ==> g in d && d'[g] == d[g]) && Distinct(ReadAll(d)) && forall g :: g in d ==> d[g] != []
    ensures Suffix(ReadAll(d'), ReadAll(d)) <==> OldestGone(d, d')
  {
    hide ReadAll, ReadFrom;
    var n := HasTop(d.Keys);
    assert Below(d, n) && Below(d', n);
    ReadAllFrom(d, n);
    ReadAllFrom(d', n);
    if OldestGone(d, d') { OldestGoneSuffix(d, d'); }
    if Suffix(ReadAll(d'), ReadAll(d)) {
      forall g, h | g in d && g !in d' && h in d && h > g ensures h !in d' {
        if h in d' { MissingMiddle(d, d', n, g, h); }
      }
    }
  }

  lemma MissingMiddle(d: Disk, d': Disk, n: nat, g: nat, h: nat)
    requires (forall k :: k in d' ==> k in d && d'[k] == d[k]) && Below(d, n) && Distinct(ReadFrom(d, n))
    requires g in d && g !in d' && h in d' && h > g && d[g] != [] && d[h] != []
    ensures !Suffix(ReadFrom(d', n), ReadFrom(d, n))
  {
    hide ReadFrom, Distinct;
    var x, y := d[h][0], d[g][0];
    var i, j := ReadInOrder(d, n, h, x, g, y);
    var p := ReadPlace(d', n, h, x);
    if Suffix(ReadFrom(d', n), ReadFrom(d, n)) {
      SuffixHoldsLater(ReadFrom(d', n), ReadFrom(d, n), i, j);
      ReadMember(d', n, y);
      var k :| k in d' && k <= n && y in d'[k];
      TwoPlaces(d, n, g, k, y);
    }
  }

  lemma TwoPlaces(d: Disk, n: nat, g: nat, k: nat, line: Line)
    requires g in d && k in d && g <= n && k <= n && line in d[g] && line in d[k] && Distinct(ReadFrom(d, n))
    ensures g == k
  {
    hide ReadFrom;
    if g < k { var i, j := ReadInOrder(d, n, k, line, g, line); }
    if k < g { var i, j := ReadInOrder(d, n, g, line, k, line); }
  }

  predicate NoEmptyFile(d: Disk) { forall g :: g in d ==> d[g] != [] }

  /** What one write retains of distinct lines is a suffix exactly when its prune unlinks from the top as far as it
      comes. */
  lemma WriteSuffixExactly(d: Disk, line: Line, c: Config, listing: seq<nat>, failAt: Option<nat>)
    requires Lists(d, listing) && c.maxGenerations > 0 && Distinct(ReadAll(d)) && NoEmptyFile(d)
    ensures Suffix(ReadAll(Written(d, line, c, listing, failAt)), ReadAll(d) + [line]) <==> InOrder(d, c, listing, failAt)
  {
    hide ReadAll, Written, Pruned, HighestFirst, OldestGone, Needed, Distinct;
    WriteReads(d, line, c, listing, failAt);
    if Needed(d, c) {
      var left := Pruned(d, listing, c.maxGenerations, failAt).disk;
      PruneRemoves(d, listing, c.maxGenerations, failAt);
      SuffixMeansOldestGone(d, left);
      OldestGoneExactly(d, listing, c.maxGenerations, failAt);
      SuffixAppend(ReadAll(left), ReadAll(d), line);
    } else {
      SuffixAppend(ReadAll(d), ReadAll(d), line);
    }
  }

  /** Wherever its calls fail, a write that rotates retains a suffix, exactly when the directory lists the generations
      to unlink from the highest down. */
  lemma AnyFailureExactly(d: Disk, line: Line, c: Config, listing: seq<nat>)
    requires Lists(d, listing) && c.maxGenerations > 0 && Distinct(ReadAll(d)) && NoEmptyFile(d) && Needed(d, c)
    ensures (forall failAt: Option<nat> :: Suffix(ReadAll(Written(d, line, c, listing, failAt)), ReadAll(d) + [line]))
       <==> Descending(listing, c.maxGenerations)
  {
    hide ReadAll, Written, HighestFirst, Descending, Needed, Distinct, Lists, NoEmptyFile;
    forall failAt: Option<nat>
      ensures Suffix(ReadAll(Written(d, line, c, listing, failAt)), ReadAll(d) + [line])
         <==> HighestFirst(listing, c.maxGenerations, failAt)
    {
      WriteSuffixExactly(d, line, c, listing, failAt);
    }
    DescendingExactly(listing, c.maxGenerations);
  }

  lemma {:induction false} ShiftKeepsFiles(d: Disk, n: nat, budget: Option<nat>)
    requires NoEmptyFile(d)
    ensures NoEmptyFile(Shifted(d, n, budget).disk)
    decreases n
  {
    if n > 0 {
      if n - 1 !in d {
        ShiftKeepsFiles(d, n - 1, budget);
      } else if !Failing(budget) {
        ShiftKeepsFiles(Renamed(d, n - 1), n - 1, Spend(budget));
      }
    }
  }

  lemma WriteKeepsFiles(d: Disk, line: Line, c: Config, listing: seq<nat>, failAt: Option<nat>)
    requires NoEmptyFile(d)
    ensures NoEmptyFile(Written(d, line, c, listing, failAt))
  {
    hide Pruned, Shifted;
    var pruned := Pruned(d, listing, c.maxGenerations, failAt);
    PruneRemoves(d, listing, c.maxGenerations, failAt);
    ShiftKeepsFiles(pruned.disk, c.maxGenerations, pruned.budget);
  }

  lemma {:induction false} RunKeepsFiles(ds: seq<Disk>, calls: seq<Call>, i: nat)
    requires Run(ds, calls) && i < |ds| && NoEmptyFile(ds[0])
    ensures NoEmptyFile(ds[i])
    decreases i
  {
    hide NoEmptyFile, Written, Lists;
    if i > 0 {
      var k := i - 1;
      RunKeepsFiles(ds, calls, k);
      assert ds[k + 1] == WrittenBy(ds[k], calls[k]);
      WriteKeepsFiles(ds[k], calls[k].line, calls[k].config, calls[k].listing, calls[k].failAt);
    }
  }

  lemma SuffixDistinct(x: seq<Line>, whole: seq<Line>)
    requires Suffix(x, whole) && Distinct(whole)
    ensures Distinct(x)
  {
    var start := |whole| - |x|;
    forall i, j | 0 <= i < j < |x| ensures x[i] != x[j] {
      assert x[i] == whole[start..][i] == whole[start + i] && x[j] == whole[start..][j] == whole[start + j];
    }
  }

  lemma HistoryPrefix(ds: seq<Disk>, calls: seq<Call>, k: nat)
    requires |ds| == |calls| + 1 && k < |ds| && Distinct(History(ds, calls, |calls|))
    ensures Distinct(History(ds, calls, k))
  {
    hide ReadAll;
    var all := History(ds, calls, |calls|);
    assert forall i :: 0 <= i < |History(ds, calls, k)| ==> History(ds, calls, k)[i] == all[i];
  }

  /** A step of a run in which both ends are suffixes of what was written unlinked in order. */
  lemma StepInOrder(ds: seq<Disk>, calls: seq<Call>, k: nat)
    requires Run(ds, calls) && k < |calls| && NoEmptyFile(ds[0]) && Distinct(History(ds, calls, |calls|))
    requires Suffix(ReadAll(ds[k]), History(ds, calls, k)) && Suffix(ReadAll(ds[k + 1]), History(ds, calls, k + 1))
    ensures CallInOrder(ds[k], calls[k])
  {
    hide ReadAll, Written, Distinct, NoEmptyFile, InOrder, Lists, History, Suffix;
    var line := calls[k].line;
    assert ds[k + 1] == WrittenBy(ds[k], calls[k]);
    RunKeepsFiles(ds, calls, k);
    HistoryPrefix(ds, calls, k);
    SuffixDistinct(ReadAll(ds[k]), History(ds, calls, k));
    HistoryGrows(ds, calls, k);
    SuffixAppend(ReadAll(ds[k]), History(ds, calls, k), line);
    WriteShrinks(ds[k], line, calls[k].config, calls[k].listing, calls[k].failAt);
    SuffixChain(ReadAll(ds[k + 1]), ReadAll(ds[k]) + [line], History(ds, calls, k + 1));
    WriteSuffixExactly(ds[k], line, calls[k].config, calls[k].listing, calls[k].failAt);
  }

  lemma {:induction false} FewerLines(d: Disk, d': Disk, n: nat)
    requires forall g :: g in d' ==> g in d && d'[g] == d[g]
    ensures |ReadFrom(d', n)| <= |ReadFrom(d, n)|
    decreases n
  {
    if n > 0 { FewerLines(d, d', n - 1); }
  }

  lemma WriteShrinks(d: Disk, line: Line, c: Config, listing: seq<nat>, failAt: Option<nat>)
    requires Lists(d, listing) && c.maxGenerations > 0
    ensures |ReadAll(Written(d, line, c, listing, failAt))| <= |ReadAll(d)| + 1
  {
    hide ReadAll, Written, Pruned, Needed;
    WriteReads(d, line, c, listing, failAt);
    var left := Pruned(d, listing, c.maxGenerations, failAt).disk;
    PruneRemoves(d, listing, c.maxGenerations, failAt);
    var n := HasTop(d.Keys);
    assert Below(d, n) && Below(left, n);
    ReadAllFrom(d, n);
    ReadAllFrom(left, n);
    FewerLines(d, left, n);
  }

  /** Over a run that writes distinct lines, what is retained is a suffix of what was written after every write exactly
      when every prune unlinks from the top as far as it comes. */
  lemma RunSuffixExactly(ds: seq<Disk>, calls: seq<Call>)
    requires Run(ds, calls) && NoEmptyFile(ds[0]) && Distinct(History(ds, calls, |calls|))
    ensures (forall i :: 0 <= i < |ds| ==> Suffix(ReadAll(ds[i]), History(ds, calls, i)))
       <==> forall k :: 0 <= k < |calls| ==> CallInOrder(ds[k], calls[k])
  {
    hide ReadAll, Distinct, NoEmptyFile, CallInOrder, Lists, History, Suffix;
    if forall k :: 0 <= k < |calls| ==> CallInOrder(ds[k], calls[k]) {
      forall i | 0 <= i < |ds| ensures Suffix(ReadAll(ds[i]), History(ds, calls, i)) { RetainedIsSuffix(ds, calls, i); }
    }
    if forall i :: 0 <= i < |ds| ==> Suffix(ReadAll(ds[i]), History(ds, calls, i)) {
      forall k | 0 <= k < |calls| ensures CallInOrder(ds[k], calls[k]) {
        assert Suffix(ReadAll(ds[k + 1]), History(ds, calls, k + 1));
        StepInOrder(ds, calls, k);
      }
    }
  }

  /** Unlinking generation 1 and then failing on generation 2 leaves a hole. */
  lemma HoleInHistory()
    ensures var d: Disk := map[0 := [[1]], 1 := [[2]], 2 := [[3]]];
            var after := Written(d, [4], Config(1, 1), [1, 2], Some(1));
            Lists(d, [1, 2]) && !Suffix(ReadAll(after), ReadAll(d) + [[4]])
  {
    hide ReadAll;
    var d: Disk := map[0 := [[1]], 1 := [[2]], 2 := [[3]]];
    var after := Written(d, [4], Config(1, 1), [1, 2], Some(1));
    var left: Disk := map[0 := [[1]], 2 := [[3]]];
    assert Pruned(d, [1, 2], 1, Some(1)) == Progress(left, Some(0), true) by {
      assert [1, 2][1..] == [2];
      assert Pruned(d - {1}, [2], 1, Some(0)) == Progress(d - {1}, Some(0), true);
      assert d - {1} == left;
    }
    assert Size([[1]]) == 1 by { assert [[1]][..0] == []; }
    assert after == Appended(left, [4]);
    ReadAllFrom(d, 2);
    ReadAllFrom(left, 2);
    AppendAll(left, [4]);
    assert ReadFrom(d, 2) == [[3], [2], [1]];
    assert ReadFrom(left, 2) == [[3], [1]];
    assert ReadAll(after)[0] == [3] && (ReadAll(d) + [[4]])[1] == [2];
  }
}
