/**
  One target's store directory and what a sync does to it.  The directory
  holds named snapshots, possibly the staging directory `incomplete`, and
  possibly the symbolic link `current`.  `backup_stats` scans it; a sync
  creates the staging directory, and on success promotes it to a snapshot,
  repoints `current` and rotates the oldest snapshot out into the run-wide
  quarantine directory.
 */
module Store {
  import opened Wrappers
  import opened Lex
  import opened Timestamps

  const StagingName := "incomplete"
  const PointerName := "current"

  /**
    The contents of `backup_path/username/hostname/flattened_path/`: the
    snapshot directories, whether `incomplete` exists, and the name the
    `current` link points at when it exists.
   */
  datatype TargetDir = TargetDir(snapshots: set<string>, staging: bool, current: Option<string>)

  /** What `os.listdir(base_dir)` returns, in no particular order. */
  function Listing(d: TargetDir): set<string>
  {
    d.snapshots + (if d.staging then {StagingName} else {}) + (if d.current.Some? then {PointerName} else {})
  }

  /** The entries `backup_stats` counts: all but `incomplete` and `current`. */
  function SnapshotNames(entries: set<string>): set<string>
  {
    entries - {StagingName, PointerName}
  }

  /**
    A name `backup_stats` treats as a snapshot and can rank: neither reserved
    entry, and strictly between the starting values `''` of its running
    maximum and `'Z'` of its running minimum.  Every timestamp name is one
    (`StampShape`); a foreign entry such as `Zoo` is not.
   */
  predicate OrdinaryName(n: string)
  {
    n != StagingName && n != PointerName && Below("", n) && Below(n, "Z")
  }

  /** No foreign entries: every snapshot has an ordinary name. */
  predicate WellFormed(d: TargetDir)
  {
    forall n :: n in d.snapshots ==> OrdinaryName(n)
  }

  /**
    `backup_stats(base_dir)`: one pass over the directory entries, in the
    order the operating system lists them, skipping `incomplete` and
    `current`, counting the rest and keeping a running maximum (from `''`)
    and a running minimum (from `'Z'`).
   */
  method BackupStats(entries: set<string>) returns (count: nat, newest: string, oldest: string)
    ensures count == Count(SnapshotNames(entries)) == |SnapshotNames(entries)|
    ensures newest == Max(SnapshotNames(entries), "")
    ensures oldest == Min(SnapshotNames(entries), "Z")
  {
    newest, oldest, count := "", "Z", 0;
    BelowIrreflexive("");
    BelowIrreflexive("Z");
    var rest := entries;
    assert entries - rest == {};
    while rest != {}
      invariant rest <= entries
      invariant Scanned(entries, rest, count, newest, oldest)
      decreases rest
    {
      var dir :| dir in rest;
      ScanStep(entries, rest, dir, count, newest, oldest);
      rest := rest - {dir};
      if dir == StagingName || dir == PointerName {
        continue;
      }
      count := count + 1;
      if Below(newest, dir) {
        newest := dir;
      }
      if Below(dir, oldest) {
        oldest := dir;
      }
    }
    assert entries - rest == entries;
    FoldResults(SnapshotNames(entries), newest, oldest);
    CountIsSize(SnapshotNames(entries));
  }

  /**
    The running values of `backup_stats` once the entries outside `rest`
    have been visited: how many snapshot names were seen, and the largest
    and smallest of them and the starting values.
   */
  ghost predicate Scanned(entries: set<string>, rest: set<string>, count: nat, newest: string, oldest: string)
  {
    var seen := SnapshotNames(entries - rest);
    count == |seen| && IsGreatest(newest, seen, "") && IsLeast(oldest, seen, "Z")
  }

  /** Visiting one more entry: reserved names are skipped, any other is counted and ranked. */
  lemma ScanStep(entries: set<string>, rest: set<string>, dir: string, count: nat, newest: string, oldest: string)
    requires dir in rest && rest <= entries && Scanned(entries, rest, count, newest, oldest)
    ensures if dir == StagingName || dir == PointerName then Scanned(entries, rest - {dir}, count, newest, oldest)
      else Scanned(entries, rest - {dir}, count + 1, if Below(newest, dir) then dir else newest,
                   if Below(dir, oldest) then dir else oldest)
  {
    var seen := SnapshotNames(entries - rest);
    SeenStep(entries, rest, dir);
    if dir != StagingName && dir != PointerName {
      GreatestStep(newest, seen, "", dir);
      LeastStep(oldest, seen, "Z", dir);
    }
  }

  /** A running maximum and minimum that are the largest and smallest seen are the folds' results. */
  lemma FoldResults(names: set<string>, newest: string, oldest: string)
    requires IsGreatest(newest, names, "") && IsLeast(oldest, names, "Z")
    ensures newest == Max(names, "") && oldest == Min(names, "Z")
  {
    MaxIsGreatest(names, "");
    MinIsLeast(names, "Z");
    GreatestUnique(newest, Max(names, ""), names, "");
    LeastUnique(oldest, Min(names, "Z"), names, "Z");
  }

  /** Moving one entry from the unvisited to the visited part of a listing. */
  lemma SeenStep(entries: set<string>, rest: set<string>, dir: string)
    requires dir in rest && rest <= entries
    ensures dir !in SnapshotNames(entries - rest)
    ensures SnapshotNames(entries - (rest - {dir})) ==
      if dir == StagingName || dir == PointerName then SnapshotNames(entries - rest)
      else SnapshotNames(entries - rest) + {dir}
  {
    assert entries - (rest - {dir}) == (entries - rest) + {dir};
  }

  /**
    The store after `mkdir_p(base_dir + 'incomplete/')`: created empty if it
    did not exist, otherwise the same with the staging directory present.
   */
  function Staged(stores: map<string, TargetDir>, base: string): (d: TargetDir)
  {
    if base in stores then stores[base].(staging := true) else TargetDir({}, true, None)
  }

  /** Rename `incomplete` to `stamp`, then point `current` at it. */
  function Promoted(d: TargetDir, stamp: string): TargetDir
  {
    TargetDir(d.snapshots + {stamp}, false, Some(stamp))
  }

  /** What rotation moves into quarantine, given the pre-sync count and oldest name. */
  function Evicted(count: nat, oldest: string, cap: int): set<string>
  {
    if count >= cap then {oldest} else {}
  }

  /** Rotation: drop the pre-sync oldest snapshot when the pre-sync count reached the cap. */
  function Rotated(d: TargetDir, count: nat, oldest: string, cap: int): TargetDir
  {
    d.(snapshots := d.snapshots - Evicted(count, oldest, cap))
  }

  /**
    The running count `count += 1` of `backup_stats`, folded over `s` in any
    order; `BackupStats` returns it, and a sync compares it with the cap.
   */
  ghost function Count(s: set<string>): nat
    decreases s
  {
    if s == {} then 0 else var x :| x in s; Count(s - {x}) + 1
  }

  /** The fold counts every name exactly once, whatever order it visits them in. */
  lemma {:induction false} CountIsSize(s: set<string>)
    ensures Count(s) == |s|
    decreases s
  {
    if s != {} {
      var x :| x in s && Count(s) == Count(s - {x}) + 1;
      CountIsSize(s - {x});
    }
  }

  /**
    The store after the engine exits with `exitCode`, starting from the
    staged store `pre`: untouched on failure, promoted and rotated on
    success, with the count and oldest name `backup_stats` computed on `pre`.
   */
  ghost function Synced(pre: TargetDir, exitCode: int, stamp: string, cap: int): TargetDir
  {
    var names := SnapshotNames(Listing(pre));
    if exitCode != 0 then pre else Rotated(Promoted(pre, stamp), Count(names), Min(names, "Z"), cap)
  }

  /** The names the same sync moves into the quarantine directory. */
  ghost function Quarantined(pre: TargetDir, exitCode: int, cap: int): set<string>
  {
    var names := SnapshotNames(Listing(pre));
    if exitCode != 0 then {} else Evicted(Count(names), Min(names, "Z"), cap)
  }

  /** In a store without foreign entries, `backup_stats` counts exactly the snapshots. */
  lemma ListedSnapshots(d: TargetDir)
    requires WellFormed(d)
    ensures SnapshotNames(Listing(d)) == d.snapshots
  {
  }

  /**
    Baseline choice: with no snapshots the link-dest name is `''` (so the
    flag names the store directory itself); otherwise it is the snapshot
    with the greatest name.
   */
  lemma BaselineChoice(d: TargetDir)
    requires WellFormed(d)
    ensures var newest := Max(SnapshotNames(Listing(d)), "");
      (d.snapshots == {} ==> newest == "") &&
      (d.snapshots != {} ==> newest in d.snapshots && forall n :: n in d.snapshots ==> AtMost(n, newest))
  {
    ListedSnapshots(d);
    MaxIsGreatest(d.snapshots, "");
    if d.snapshots != {} {
      var n :| n in d.snapshots;
      assert Below("", n);
    }
  }

  /**
    Eviction victim: when a store without foreign entries has a snapshot,
    the minimum `backup_stats` reports is the snapshot with the smallest
    name, never the sentinel `'Z'`.
   */
  lemma VictimIsOldest(d: TargetDir)
    requires WellFormed(d) && d.snapshots != {}
    ensures var oldest := Min(SnapshotNames(Listing(d)), "Z");
      oldest in d.snapshots && forall n :: n in d.snapshots ==> AtMost(oldest, n)
  {
    ListedSnapshots(d);
    var oldest := Min(d.snapshots, "Z");
    MinIsLeast(d.snapshots, "Z");
    var n :| n in d.snapshots;
    assert AtMost(oldest, n);
    BelowTransitive(oldest, n, "Z");
    BelowTotal(oldest, n);
    BelowIrreflexive("Z");
  }

  /**
    A successful sync of a store without foreign entries, with a fresh
    timestamp and a cap of at least one: the staging directory is gone, the
    new snapshot exists and `current` points at it, and exactly the pre-sync
    oldest snapshot is evicted when the pre-sync count reached the cap, so
    the count grows by one below the cap and stays put at or above it.
   */
  lemma SuccessfulSync(pre: TargetDir, stamp: string, cap: int)
    requires WellFormed(pre) && stamp !in pre.snapshots && cap >= 1
    ensures SnapshotNames(Listing(pre)) == pre.snapshots
    ensures Quarantined(pre, 0, cap) == if |pre.snapshots| >= cap then {Min(pre.snapshots, "Z")} else {}
    ensures |pre.snapshots| >= cap ==>
      Min(pre.snapshots, "Z") in pre.snapshots && forall n :: n in pre.snapshots ==> AtMost(Min(pre.snapshots, "Z"), n)
    ensures Synced(pre, 0, stamp, cap) ==
      TargetDir(pre.snapshots + {stamp} - Quarantined(pre, 0, cap), false, Some(stamp))
    ensures |Synced(pre, 0, stamp, cap).snapshots| ==
      if |pre.snapshots| < cap then |pre.snapshots| + 1 else |pre.snapshots|
  {
    ListedSnapshots(pre);
    PromotedShape(pre, stamp, cap);
    var oldest := Min(pre.snapshots, "Z");
    if |pre.snapshots| >= cap {
      VictimIsOldest(pre);
    }
    CountAfterRotation(pre.snapshots, stamp, oldest, Evicted(|pre.snapshots|, oldest, cap));
  }

  /** Unfolding a successful sync of a store whose listing shows exactly its snapshots. */
  lemma PromotedShape(pre: TargetDir, stamp: string, cap: int)
    requires SnapshotNames(Listing(pre)) == pre.snapshots
    ensures var evicted := Evicted(|pre.snapshots|, Min(pre.snapshots, "Z"), cap);
      Quarantined(pre, 0, cap) == evicted &&
      Synced(pre, 0, stamp, cap) == TargetDir(pre.snapshots + {stamp} - evicted, false, Some(stamp))
  {
    CountIsSize(pre.snapshots);
  }

  lemma CountAfterRotation(snapshots: set<string>, stamp: string, victim: string, evicted: set<string>)
    requires stamp !in snapshots && evicted <= snapshots && evicted <= {victim}
    ensures |snapshots + {stamp} - evicted| == |snapshots| + 1 - |evicted|
  {
    var grown := snapshots + {stamp};
    assert |grown| == |snapshots| + 1;
    if victim in evicted {
      assert evicted == {victim};
    } else {
      assert evicted == {};
      assert grown - evicted == grown;
    }
  }

  /** Whatever the engine's exit code, a sync only adds the new name and only evicts what was there. */
  lemma SyncedShape(pre: TargetDir, exitCode: int, stamp: string, cap: int)
    requires WellFormed(pre) && OrdinaryName(stamp) && stamp !in pre.snapshots && cap >= 1
    ensures var post := Synced(pre, exitCode, stamp, cap);
      var evicted := Quarantined(pre, exitCode, cap);
      post.snapshots <= pre.snapshots + {stamp} && evicted <= pre.snapshots &&
      post.snapshots !! evicted && WellFormed(post) &&
      (|pre.snapshots| <= cap ==> |post.snapshots| <= cap)
  {
    if exitCode == 0 {
      SuccessfulSync(pre, stamp, cap);
    }
  }

  /** Retention: a sync never takes a store above the cap. */
  lemma RetentionBound(pre: TargetDir, exitCode: int, stamp: string, cap: int)
    requires WellFormed(pre) && OrdinaryName(stamp) && stamp !in pre.snapshots && cap >= 1
    requires |pre.snapshots| <= cap
    ensures |Synced(pre, exitCode, stamp, cap).snapshots| <= cap
  {
    SyncedShape(pre, exitCode, stamp, cap);
  }

  /** Every store under the backup root has no foreign entries. */
  ghost predicate AllWellFormed(stores: map<string, TargetDir>)
  {
    forall b :: b in stores ==> WellFormed(stores[b])
  }

  /**
    No snapshot name occurs in two stores or in a store and the quarantine
    directory, so a rotation's rename into the flat `junk/` never collides.
   */
  ghost predicate Disjoint(stores: map<string, TargetDir>, junk: set<string>)
  {
    (forall b :: b in stores ==> stores[b].snapshots !! junk) &&
    (forall b, c :: b in stores && c in stores && b != c ==> stores[b].snapshots !! stores[c].snapshots)
  }

  /** `name` is not taken anywhere a rename could collide with it. */
  ghost predicate Fresh(name: string, stores: map<string, TargetDir>, junk: set<string>)
  {
    name !in junk && forall b :: b in stores ==> name !in stores[b].snapshots
  }

  /** Every store holds at most `cap` snapshots. */
  ghost predicate Bounded(stores: map<string, TargetDir>, cap: int)
  {
    forall b :: b in stores ==> |stores[b].snapshots| <= cap
  }

  /**
    Replacing one store by a version that only gained `stamp` and moving only
    its own names into quarantine keeps the root's invariants.
   */
  lemma ReplaceStore(stores: map<string, TargetDir>, junk: set<string>, base: string,
                     post: TargetDir, evicted: set<string>, stamp: string, cap: int)
    requires AllWellFormed(stores) && Disjoint(stores, junk) && Fresh(stamp, stores, junk)
    requires var old_ := if base in stores then stores[base].snapshots else {};
      post.snapshots <= old_ + {stamp} && evicted <= old_ && post.snapshots !! evicted
    requires WellFormed(post)
    requires Bounded(stores, cap) ==> |post.snapshots| <= cap
    ensures var stores' := stores[base := post];
      var junk' := junk + evicted;
      AllWellFormed(stores') && Disjoint(stores', junk') &&
      (Bounded(stores, cap) ==> Bounded(stores', cap)) &&
      (forall s :: s != stamp && Fresh(s, stores, junk) ==> Fresh(s, stores', junk'))
  {
    var stores' := stores[base := post];
    var junk' := junk + evicted;
    forall b | b in stores' ensures stores'[b].snapshots !! junk' {
    }
    forall b, c | b in stores' && c in stores' && b != c
      ensures stores'[b].snapshots !! stores'[c].snapshots
    {
    }
  }

  /**
    One target's sync, seen from the whole backup root: it keeps every store
    free of foreign entries, keeps names unique across stores and quarantine,
    keeps every store within the cap, and leaves every other fresh name fresh.
   */
  lemma SyncStep(stores: map<string, TargetDir>, junk: set<string>, base: string,
                 exitCode: int, stamp: string, cap: int)
    requires cap >= 1 && OrdinaryName(stamp)
    requires AllWellFormed(stores) && Disjoint(stores, junk) && Fresh(stamp, stores, junk)
    ensures var pre := Staged(stores, base);
      var stores' := stores[base := Synced(pre, exitCode, stamp, cap)];
      var junk' := junk + Quarantined(pre, exitCode, cap);
      AllWellFormed(stores') && Disjoint(stores', junk') &&
      (Bounded(stores, cap) ==> Bounded(stores', cap)) &&
      (forall s :: s != stamp && Fresh(s, stores, junk) ==> Fresh(s, stores', junk'))
  {
    var pre := Staged(stores, base);
    assert pre.snapshots == (if base in stores then stores[base].snapshots else {});
    SyncedShape(pre, exitCode, stamp, cap);
    ReplaceStore(stores, junk, base, Synced(pre, exitCode, stamp, cap),
                 Quarantined(pre, exitCode, cap), stamp, cap);
  }

  /** The whole backup root: every store directory and the quarantine directory's entries. */
  datatype Root = Root(stores: map<string, TargetDir>, junk: set<string>)

  /** The backup root after one sync of the store at `base`. */
  ghost function SyncRoot(r: Root, base: string, exitCode: int, stamp: string, cap: int): Root
  {
    var pre := Staged(r.stores, base);
    Root(r.stores[base := Synced(pre, exitCode, stamp, cap)], r.junk + Quarantined(pre, exitCode, cap))
  }

  /**
    A failed sync renames nothing: the store keeps its snapshots and its
    `current` link, is left with `incomplete` in it (created empty if the
    store was new), nothing is quarantined, and no other store changes.
   */
  lemma FailedSync(r: Root, base: string, exitCode: int, stamp: string, cap: int)
    requires exitCode != 0
    ensures var r' := SyncRoot(r, base, exitCode, stamp, cap);
      r'.junk == r.junk && r'.stores.Keys == r.stores.Keys + {base} && r'.stores[base].staging &&
      (base in r.stores ==> r'.stores[base] == r.stores[base].(staging := true)) &&
      (base !in r.stores ==> r'.stores[base] == TargetDir({}, true, None)) &&
      forall b :: b in r.stores && b != base ==> r'.stores[b] == r.stores[b]
  {
  }

  /** The names of snapshots promoted at the given times. */
  ghost function StampsOf(times: set<DateTime>): set<string>
    requires forall t :: t in times ==> ValidDateTime(t)
  {
    set t | t in times :: FormatStamp(t)
  }

  /**
    The string maximum `backup_stats` takes picks the snapshot promoted
    last, which is why it serves as the link-dest baseline.
   */
  lemma NewestIsLatest(times: set<DateTime>, latest: DateTime)
    requires forall t :: t in times ==> ValidDateTime(t)
    requires latest in times && forall t :: t in times ==> !Earlier(latest, t)
    ensures Max(StampsOf(times), "") == FormatStamp(latest)
  {
    var names := StampsOf(times);
    forall x | x in names ensures AtMost(x, FormatStamp(latest)) {
      var t :| t in times && x == FormatStamp(t);
      StampOrder(latest, t);
    }
    MaxIsGreatest(names, "");
    GreatestUnique(FormatStamp(latest), Max(names, ""), names, "");
  }

  /**
    The string minimum `backup_stats` takes picks the snapshot promoted
    first, which is why rotation evicts the oldest snapshot.
   */
  lemma OldestIsEarliest(times: set<DateTime>, earliest: DateTime)
    requires forall t :: t in times ==> ValidDateTime(t)
    requires earliest in times && forall t :: t in times ==> !Earlier(t, earliest)
    ensures Min(StampsOf(times), "Z") == FormatStamp(earliest)
  {
    var names := StampsOf(times);
    forall x | x in names ensures AtMost(FormatStamp(earliest), x) {
      var t :| t in times && x == FormatStamp(t);
      StampOrder(t, earliest);
    }
    StampShape(earliest);
    BelowAsymmetric(FormatStamp(earliest), "Z");
    MinIsLeast(names, "Z");
    LeastUnique(FormatStamp(earliest), Min(names, "Z"), names, "Z");
  }
}
