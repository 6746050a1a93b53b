/**
  The backup run: `run_rsync` for one target and the loop of the main block
  over every configured target.  The backup root is an object whose stores
  and quarantine directory the run changes in place, and the flag list is an
  object shared by every call, exactly as the one Python list is.  The
  engine's exit code and the clock are parameters.
 */
module Backup {
  import opened Wrappers
  import opened Lex
  import opened Timestamps
  import opened Layout
  import opened Store

  /** The parts of `config.json` the run reads; a missing `excludes` is the empty list. */
  datatype Config = Config(backupPath: string, backupCount: int, excludes: seq<string>)

  /** One entry of `profiles`; a missing `excludes` is the empty list. */
  datatype Profile = Profile(username: string, hostname: string, dirs: seq<string>, excludes: seq<string>)

  function StoreDir(cfg: Config, profile: Profile, path: string): string
  {
    BaseDir(cfg.backupPath, profile.username, profile.hostname, path)
  }

  /** The Python list of engine flags; `+=` extends it in place. */
  class FlagList {
    var items: seq<string>

    constructor (init: seq<string>)
      ensures items == init
    {
      items := init;
    }

    method Extend(more: seq<string>)
      modifies this
      ensures items == old(items) + more
    {
      items := items + more;
    }
  }

  /**
    The file system under `backup_path`: each target's store directory,
    keyed by its path, and the entries of the quarantine directory `junk/`.
   */
  class BackupRoot {
    var stores: map<string, TargetDir>
    var junk: set<string>

    constructor (stores0: map<string, TargetDir>, junk0: set<string>)
      ensures stores == stores0 && junk == junk0
    {
      stores, junk := stores0, junk0;
    }

    /** `mkdir_p(base_dir + 'incomplete/')`. */
    method MakeStaging(base: string)
      modifies this
      ensures stores == old(stores)[base := Staged(old(stores), base)] && junk == old(junk)
    {
      stores := stores[base := Staged(stores, base)];
    }

    /** `os.rename('incomplete', timestr)`: the target name must not exist yet. */
    method RenameStaging(base: string, stamp: string)
      requires base in stores && stores[base].staging
      requires stamp !in stores[base].snapshots && stamp != StagingName && stamp != PointerName
      modifies this
      ensures stores == old(stores)[base := old(stores)[base].(snapshots := old(stores)[base].snapshots + {stamp}, staging := false)]
      ensures junk == old(junk)
    {
      var d := stores[base];
      stores := stores[base := d.(snapshots := d.snapshots + {stamp}, staging := false)];
    }

    /** `os.remove('current')` with every error swallowed: afterwards there is no link. */
    method RemoveCurrent(base: string)
      requires base in stores
      modifies this
      ensures stores == old(stores)[base := old(stores)[base].(current := None)] && junk == old(junk)
    {
      stores := stores[base := stores[base].(current := None)];
    }

    /** `os.symlink(timestr, 'current')`: fails if `current` exists, so it must not. */
    method LinkCurrent(base: string, stamp: string)
      requires base in stores && stores[base].current == None
      modifies this
      ensures stores == old(stores)[base := old(stores)[base].(current := Some(stamp))] && junk == old(junk)
    {
      stores := stores[base := stores[base].(current := Some(stamp))];
    }

    /** `os.rename(oldest_backup, backup_path + 'junk/' + oldest_backup)`. */
    method Evict(base: string, name: string)
      requires base in stores && name in stores[base].snapshots && name !in junk
      modifies this
      ensures stores == old(stores)[base := old(stores)[base].(snapshots := old(stores)[base].snapshots - {name})]
      ensures junk == old(junk) + {name}
    {
      stores := stores[base := stores[base].(snapshots := stores[base].snapshots - {name})];
      junk := junk + {name};
    }

    /**
      Promotion: `incomplete` becomes the snapshot `stamp`, then `current`
      is removed if present and created again pointing at `stamp`.
     */
    method Promote(base: string, stamp: string)
      requires base in stores && stores[base].staging
      requires stamp !in stores[base].snapshots && stamp != StagingName && stamp != PointerName
      modifies this
      ensures stores == old(stores)[base := Promoted(old(stores)[base], stamp)] && junk == old(junk)
    {
      RenameStaging(base, stamp);
      RemoveCurrent(base);
      LinkCurrent(base, stamp);
    }

    /**
      Rotation with the count and oldest name taken before the sync: when the
      count reached the cap, the oldest snapshot moves into quarantine.
     */
    method Rotate(base: string, count: nat, oldest: string, cap: int)
      requires base in stores
      requires count >= cap ==> oldest in stores[base].snapshots && oldest !in junk
      modifies this
      ensures stores == old(stores)[base := Rotated(old(stores)[base], count, oldest, cap)]
      ensures junk == old(junk) + Evicted(count, oldest, cap)
    {
      if count >= cap {
        Evict(base, oldest);
      } else {
        assert stores[base].snapshots - {} == stores[base].snapshots;
      }
    }

    /**
      The successful branch of a sync, given what `backup_stats` reported
      on the staged store: promotion followed by rotation.
     */
    method Commit(base: string, stamp: string, count: nat, oldest: string, cap: int)
      requires cap >= 1 && base in stores && stores[base].staging
      requires WellFormed(stores[base]) && stores[base].snapshots !! junk
      requires OrdinaryName(stamp) && stamp !in stores[base].snapshots
      requires count == |SnapshotNames(Listing(stores[base]))| && oldest == Min(SnapshotNames(Listing(stores[base])), "Z")
      modifies this
      ensures stores == old(stores)[base := Synced(old(stores)[base], 0, stamp, cap)]
      ensures junk == old(junk) + Quarantined(old(stores)[base], 0, cap)
    {
      ghost var stores0, pre := stores, stores[base];
      Promote(base, stamp);
      assert count >= cap ==> oldest in pre.snapshots && oldest !in junk by {
        SuccessfulSync(pre, stamp, cap);
      }
      Rotate(base, count, oldest, cap);
      CountIsSize(SnapshotNames(Listing(pre)));
      MapOverwrite(stores0, base, Promoted(pre, stamp), Synced(pre, 0, stamp, cap));
    }

    /** `shutil.rmtree(junkDirPath)`: everything quarantined during the run is deleted. */
    method PurgeJunk()
      modifies this
      ensures junk == {} && stores == old(stores)
    {
      junk := {};
    }

    /**
      `run_rsync(config, profile, flags, path)` with the engine's exit code
      and the name `timestr` of the new snapshot supplied.  Returns whether
      the engine succeeded and the command line it was given.
     */
    method RunRsync(cfg: Config, profile: Profile, flags: FlagList, path: string,
                    exitCode: int, timestr: string) returns (ok: bool, command: seq<string>)
      requires cfg.backupCount >= 1 && OrdinaryName(timestr)
      requires var base := StoreDir(cfg, profile, path);
        base in stores ==>
          WellFormed(stores[base]) && stores[base].snapshots !! junk && timestr !in stores[base].snapshots
      modifies this, flags
      ensures ok <==> exitCode == 0
      ensures Progress(Root(stores, junk), flags.items) ==
        SyncProgress(Progress(Root(old(stores), old(junk)), old(flags.items)), StoreDir(cfg, profile, path),
                     profile.excludes, exitCode, timestr, cfg.backupCount)
      ensures command == ["rsync"] + flags.items +
        [Source(profile.username, profile.hostname, path), StagingDir(StoreDir(cfg, profile, path))]
    {
      var source := Source(profile.username, profile.hostname, path);
      var base := StoreDir(cfg, profile, path);
      var target := StagingDir(base);
      ghost var stores0, junk0 := stores, junk;
      MakeStaging(base);
      ghost var pre := stores[base];
      flags.Extend(ExcludeFlags(profile.excludes));
      var count, newest, oldest := BackupStats(Listing(stores[base]));
      flags.Extend([LinkDestFlag(base, newest)]);
      command := ["rsync"] + flags.items + [source, target];
      ok := exitCode == 0;
      if exitCode == 0 {
        Commit(base, timestr, count, oldest, cfg.backupCount);
        MapOverwrite(stores0, base, pre, Synced(pre, exitCode, timestr, cfg.backupCount));
      }
    }

    /**
      The main block from the creation of the quarantine directory to its
      deletion: the flag list is extended with the global excludes and the
      option flags, then every target is synced in configuration order
      whatever the earlier results, and the run succeeds iff every target
      did.  `exits` and `clock` give, target by target, the engine's exit
      code and the UTC time read after it finished; each reading names the
      snapshot it promotes.
     */
    method Run(cfg: Config, profiles: seq<Profile>, rsyncFlags: FlagList, verbose: bool, dry: bool,
               exits: seq<int>, clock: seq<DateTime>) returns (success: bool)
      requires cfg.backupCount >= 1
      requires rsyncFlags.items == BaseFlags
      requires |exits| == Offset(profiles, |profiles|) && |clock| == |exits|
      requires ValidClock(clock) && Safe(Root(stores, junk), Stamps(clock), 0)
      modifies this, rsyncFlags
      ensures success <==> AllZero(exits, 0, |exits|)
      ensures var start := Progress(Root(old(stores), old(junk)), InitialFlags(cfg.excludes, verbose, dry));
        var done := RunProgress(start, cfg, profiles, |profiles|, exits, Stamps(clock));
        stores == done.root.stores && rsyncFlags.items == done.flags
      ensures junk == {}
    {
      rsyncFlags.Extend(ExcludeFlags(cfg.excludes));
      if verbose {
        rsyncFlags.Extend(VerboseFlags);
      }
      if dry {
        rsyncFlags.Extend(["-n"]);
      }
      // mkdir_p(junkDirPath): the quarantine directory is created if absent and keeps its entries.
      assert rsyncFlags.items == InitialFlags(cfg.excludes, verbose, dry);
      var stamps := Stamps(clock);
      ClockStamps(clock);
      success := SyncAll(cfg, profiles, rsyncFlags, exits, stamps);
      PurgeJunk();
    }

    /**
      The loop of the main block: the targets of every profile, in
      configuration order, the `k`-th target overall taking the `k`-th exit
      code and snapshot name.  Succeeds iff every sync did.
     */
    method SyncAll(cfg: Config, profiles: seq<Profile>, rsyncFlags: FlagList, exits: seq<int>, stamps: seq<string>)
      returns (success: bool)
      requires cfg.backupCount >= 1
      requires |exits| == Offset(profiles, |profiles|) && |stamps| == |exits|
      requires DistinctStamps(stamps) && Safe(Root(stores, junk), stamps, 0)
      modifies this, rsyncFlags
      ensures success <==> AllZero(exits, 0, |exits|)
      ensures RunSynced(Progress(Root(stores, junk), rsyncFlags.items), Progress(Root(old(stores), old(junk)), old(rsyncFlags.items)), cfg, profiles, |profiles|, exits, stamps)
    {
      ghost var start := Progress(Root(stores, junk), rsyncFlags.items);
      success := true;
      var k := 0;
      var i := 0;
      while i < |profiles|
        invariant 0 <= i <= |profiles|
        invariant k == Offset(profiles, i) <= |stamps|
        invariant success <==> AllZero(exits, 0, k)
        invariant RunSynced(Progress(Root(stores, junk), rsyncFlags.items), start, cfg, profiles, i, exits, stamps)
      {
        OffsetMonotone(profiles, i + 1, |profiles|);
        success := SyncNextProfile(cfg, profiles, rsyncFlags, exits, stamps, i, k, start, success);
        k := k + |profiles[i].dirs|;
        i := i + 1;
      }
    }

    /**
      One pass of the outer loop: every directory of the `i`-th profile is
      synced, the profiles before it having taken the run from `start` to
      the current state.
     */
    method SyncNextProfile(cfg: Config, profiles: seq<Profile>, rsyncFlags: FlagList, exits: seq<int>, stamps: seq<string>,
                   i: nat, k: nat, ghost start: Progress, success: bool) returns (success': bool)
      requires cfg.backupCount >= 1 && i < |profiles|
      requires k == Offset(profiles, i) && k + |profiles[i].dirs| <= |stamps| == |exits|
      requires DistinctStamps(stamps) && Safe(start.root, stamps, 0)
      requires RunSynced(Progress(Root(stores, junk), rsyncFlags.items), start, cfg, profiles, i, exits, stamps)
      requires success <==> AllZero(exits, 0, k)
      modifies this, rsyncFlags
      ensures success' <==> AllZero(exits, 0, k + |profiles[i].dirs|)
      ensures RunSynced(Progress(Root(stores, junk), rsyncFlags.items), start, cfg, profiles, i + 1, exits, stamps)
    {
      RunSafe(start, Progress(Root(stores, junk), rsyncFlags.items), cfg, profiles, i, exits, stamps);
      var ok := SyncProfile(cfg, profiles[i], rsyncFlags, exits, stamps, k);
      success' := ok && success;
      AllZeroSplit(exits, 0, k, k + |profiles[i].dirs|);
    }

    /**
      The inner loop of the main block: every directory of `profile` is
      synced in the order listed, whatever the earlier results, the `k0`-th
      target onwards taking its exit code and snapshot name from `exits`
      and `stamps`.  Succeeds iff every one of these syncs did.
     */
    method SyncProfile(cfg: Config, profile: Profile, rsyncFlags: FlagList, exits: seq<int>, stamps: seq<string>,
                       k0: nat) returns (success: bool)
      requires cfg.backupCount >= 1 && k0 + |profile.dirs| <= |stamps| == |exits|
      requires DistinctStamps(stamps) && Safe(Root(stores, junk), stamps, k0)
      modifies this, rsyncFlags
      ensures success <==> AllZero(exits, k0, k0 + |profile.dirs|)
      ensures ProfileSynced(Progress(Root(stores, junk), rsyncFlags.items), Progress(Root(old(stores), old(junk)), old(rsyncFlags.items)), cfg, profile, |profile.dirs|, exits, stamps, k0)
    {
      ghost var before := Progress(Root(stores, junk), rsyncFlags.items);
      success := true;
      var j := 0;
      while j < |profile.dirs|
        invariant 0 <= j <= |profile.dirs|
        invariant success <==> AllZero(exits, k0, k0 + j)
        invariant ProfileSynced(Progress(Root(stores, junk), rsyncFlags.items), before, cfg, profile, j, exits, stamps, k0)
      {
        success := SyncNextDir(cfg, profile, rsyncFlags, exits, stamps, k0, j, before, success);
        j := j + 1;
      }
    }

    /**
      One pass of the inner loop: `run_rsync` on the `j`-th directory of
      `profile`, the syncs of the directories before it having taken the
      run from `before` to the current state.
     */
    method SyncNextDir(cfg: Config, profile: Profile, rsyncFlags: FlagList, exits: seq<int>, stamps: seq<string>,
                    k0: nat, j: nat, ghost before: Progress, success: bool) returns (success': bool)
      requires cfg.backupCount >= 1 && j < |profile.dirs| && k0 + |profile.dirs| <= |stamps| == |exits|
      requires DistinctStamps(stamps) && Safe(before.root, stamps, k0)
      requires ProfileSynced(Progress(Root(stores, junk), rsyncFlags.items), before, cfg, profile, j, exits, stamps, k0)
      modifies this, rsyncFlags
      requires success <==> AllZero(exits, k0, k0 + j)
      ensures success' <==> AllZero(exits, k0, k0 + j + 1)
      ensures ProfileSynced(Progress(Root(stores, junk), rsyncFlags.items), before, cfg, profile, j + 1, exits, stamps, k0)
    {
      var path := profile.dirs[j];
      ghost var base := StoreDir(cfg, profile, path);
      assert base in stores ==>
        WellFormed(stores[base]) && stores[base].snapshots !! junk && stamps[k0 + j] !in stores[base].snapshots
      by {
        ProfileSafe(before, Progress(Root(stores, junk), rsyncFlags.items), cfg, profile, j, exits, stamps, k0);
      }
      var ok, command := RunRsync(cfg, profile, rsyncFlags, path, exits[k0 + j], stamps[k0 + j]);
      success' := ok && success;
      AllZeroSplit(exits, k0, k0 + j, k0 + j + 1);
    }
  }

  /**
    The entries of a store directory as `mkdir_p` sees them: snapshots and
    `incomplete` are directories, and `current` links to one, which
    `os.path.isdir` follows.
   */
  function EntryKinds(d: TargetDir): map<string, Kind>
  {
    map n | n in Listing(d) :: Directory
  }

  /**
    `Staged` is `mkdir_p` of `incomplete` inside the store directory (a store
    that does not exist yet has no entries): it never raises, because every
    entry already there is a directory, and it leaves exactly the entries of
    the staged store.
   */
  lemma StagingIsMkdirP(stores: map<string, TargetDir>, base: string)
    ensures var before := if base in stores then EntryKinds(stores[base]) else map[];
      MkdirP(before, StagingName) == Ok(EntryKinds(Staged(stores, base)))
  {
    var before := if base in stores then EntryKinds(stores[base]) else map[];
    var staged := Staged(stores, base);
    assert Listing(staged) == before.Keys + {StagingName};
    assert EntryKinds(staged) == before[StagingName := Directory];
    if StagingName in before {
      assert before[StagingName := Directory] == before;
    }
  }

  /**
    `after` differs from `before` only at the keys in `dirs`, which it holds
    whether or not `before` did.
   */
  ghost predicate Touched(before: map<string, TargetDir>, after: map<string, TargetDir>, dirs: set<string>)
  {
    after.Keys == before.Keys + dirs && forall b :: b in before && b !in dirs ==> after[b] == before[b]
  }

  lemma TouchedTrans(s0: map<string, TargetDir>, s1: map<string, TargetDir>, s2: map<string, TargetDir>,
                     a: set<string>, b: set<string>)
    requires Touched(s0, s1, a) && Touched(s1, s2, b)
    ensures Touched(s0, s2, a + b)
  {
  }

  /** Two writes to the same key leave only the second. */
  lemma MapOverwrite<K, V>(m: map<K, V>, k: K, a: V, b: V)
    ensures m[k := a][k := b] == m[k := b]
  {
  }

  /** Every exit code in `lo..hi` is zero. */
  predicate AllZero(exits: seq<int>, lo: nat, hi: nat)
    requires lo <= hi <= |exits|
  {
    forall m :: lo <= m < hi ==> exits[m] == 0
  }

  /** Splitting a range of exit codes: all are zero iff all in both parts are. */
  lemma AllZeroSplit(exits: seq<int>, lo: nat, mid: nat, hi: nat)
    requires lo <= mid <= hi <= |exits|
    ensures AllZero(exits, lo, hi) <==> AllZero(exits, lo, mid) && AllZero(exits, mid, hi)
  {
  }

  /** The number of targets of the first `i` profiles: where profile `i`'s targets start. */
  function Offset(profiles: seq<Profile>, i: nat): nat
    requires i <= |profiles|
  {
    if i == 0 then 0 else Offset(profiles, i - 1) + |profiles[i - 1].dirs|
  }

  lemma {:induction false} OffsetMonotone(profiles: seq<Profile>, i: nat, i': nat)
    requires i <= i' <= |profiles|
    ensures Offset(profiles, i) <= Offset(profiles, i')
    decreases i' - i
  {
    if i < i' {
      OffsetMonotone(profiles, i + 1, i');
    }
  }

  /** Every clock reading is a valid time with a four-digit year. */
  ghost predicate ValidTimes(clock: seq<DateTime>)
  {
    forall m :: 0 <= m < |clock| ==> ValidDateTime(clock[m])
  }

  /** The clock readings are valid times, no two the same. */
  ghost predicate ValidClock(clock: seq<DateTime>)
  {
    ValidTimes(clock) && forall m, n :: 0 <= m < n < |clock| ==> clock[m] != clock[n]
  }

  /** The names `timestr` the run gives its snapshots, target by target. */
  function Stamps(clock: seq<DateTime>): (stamps: seq<string>)
    requires ValidTimes(clock)
    ensures |stamps| == |clock|
  {
    if clock == [] then [] else Stamps(clock[..|clock| - 1]) + [FormatStamp(clock[|clock| - 1])]
  }

  /** The `m`-th name is the `m`-th clock reading, formatted. */
  lemma {:induction false} StampsAt(clock: seq<DateTime>, m: nat)
    requires ValidTimes(clock) && m < |clock|
    ensures Stamps(clock)[m] == FormatStamp(clock[m])
    decreases |clock|
  {
    if m < |clock| - 1 {
      var init := clock[..|clock| - 1];
      StampsAt(init, m);
      assert init[m] == clock[m];
    }
  }

  /** Snapshot names that are ordinary and pairwise different. */
  ghost predicate DistinctStamps(stamps: seq<string>)
  {
    (forall m :: 0 <= m < |stamps| ==> OrdinaryName(stamps[m])) &&
    forall m, n :: 0 <= m < n < |stamps| ==> stamps[m] != stamps[n]
  }

  /** Distinct clock readings give distinct snapshot names, none of them reserved. */
  lemma ClockStamps(clock: seq<DateTime>)
    requires ValidClock(clock)
    ensures DistinctStamps(Stamps(clock))
  {
    var stamps := Stamps(clock);
    forall m | 0 <= m < |stamps|
      ensures OrdinaryName(stamps[m])
    {
      StampsAt(clock, m);
      StampShape(clock[m]);
    }
    forall m, n | 0 <= m < n < |stamps|
      ensures stamps[m] != stamps[n]
    {
      StampsAt(clock, m);
      StampsAt(clock, n);
      StampInjective(clock[m], clock[n]);
    }
  }

  /**
    The backup root is safe to sync from the `k`-th target on: no foreign
    entries, no name in two places, and none of the remaining snapshot
    names taken yet.
   */
  ghost predicate Safe(r: Root, stamps: seq<string>, k: nat)
  {
    AllWellFormed(r.stores) && Disjoint(r.stores, r.junk) &&
    forall m :: k <= m < |stamps| ==> Fresh(stamps[m], r.stores, r.junk)
  }

  /** What the run has produced so far: the backup root and the shared flag list. */
  datatype Progress = Progress(root: Root, flags: seq<string>)

  /**
    One `run_rsync` call: the store directory `base` is synced, and the
    profile's excludes and the link-dest flag naming the newest snapshot
    found in the staged store are appended to the flag list.
   */
  ghost function SyncProgress(p: Progress, base: string, excludes: seq<string>,
                              exitCode: int, stamp: string, cap: int): Progress
  {
    var newest := Max(SnapshotNames(Listing(Staged(p.root.stores, base))), "");
    Progress(SyncRoot(p.root, base, exitCode, stamp, cap), p.flags + ExcludeFlags(excludes) + [LinkDestFlag(base, newest)])
  }

  /**
    The flag list after one `run_rsync` call: the earlier flags unchanged,
    then one exclude flag per profile exclude in order, then one link-dest
    flag.  It names the newest snapshot of the store, or the store
    directory itself followed by `/` when the store has no snapshot.
   */
  lemma SyncFlags(p: Progress, base: string, excludes: seq<string>, exitCode: int, stamp: string, cap: int)
    requires base in p.root.stores ==> WellFormed(p.root.stores[base])
    ensures var flags := SyncProgress(p, base, excludes, exitCode, stamp, cap).flags;
      var n := |p.flags|;
      var snapshots := if base in p.root.stores then p.root.stores[base].snapshots else {};
      |flags| == n + |excludes| + 1 && flags[..n] == p.flags &&
      (forall i :: 0 <= i < |excludes| ==> flags[n + i] == ExcludeFlag(excludes[i])) &&
      (snapshots == {} ==> flags[n + |excludes|] == "--link-dest=" + base + "/") &&
      (snapshots != {} ==>
         exists newest :: newest in snapshots && flags[n + |excludes|] == LinkDestFlag(base, newest) &&
                          forall s :: s in snapshots ==> AtMost(s, newest))
  {
    var d := Staged(p.root.stores, base);
    BaselineChoice(d);
    var flags := SyncProgress(p, base, excludes, exitCode, stamp, cap).flags;
    var n := |p.flags|;
    assert flags == p.flags + ExcludeFlags(excludes) + [LinkDestFlag(base, Max(SnapshotNames(Listing(d)), ""))];
    assert flags[..n] == p.flags;
    forall i | 0 <= i < |excludes|
      ensures flags[n + i] == ExcludeFlag(excludes[i])
    {
      assert flags[n + i] == ExcludeFlags(excludes)[i];
    }
  }

  /** The syncs of the first `j` directories of `profile`, starting at target `k0`. */
  ghost function ProfileProgress(p: Progress, cfg: Config, profile: Profile, j: nat,
                                 exits: seq<int>, stamps: seq<string>, k0: nat): Progress
    requires j <= |profile.dirs| && k0 + j <= |stamps| == |exits|
  {
    if j == 0 then p
    else
      SyncProgress(ProfileProgress(p, cfg, profile, j - 1, exits, stamps, k0),
                   StoreDir(cfg, profile, profile.dirs[j - 1]), profile.excludes,
                   exits[k0 + j - 1], stamps[k0 + j - 1], cfg.backupCount)
  }

  /** The state `q` is where the syncs of the first `j` directories of `profile` take the run from `p`. */
  ghost predicate ProfileSynced(q: Progress, p: Progress, cfg: Config, profile: Profile, j: nat,
                                exits: seq<int>, stamps: seq<string>, k0: nat)
    requires j <= |profile.dirs| && k0 + j <= |stamps| == |exits|
  {
    q == ProfileProgress(p, cfg, profile, j, exits, stamps, k0)
  }

  /** The state `q` is where the syncs of every target of the first `i` profiles take the run from `p`. */
  ghost predicate RunSynced(q: Progress, p: Progress, cfg: Config, profiles: seq<Profile>, i: nat,
                             exits: seq<int>, stamps: seq<string>)
    requires i <= |profiles| && Offset(profiles, i) <= |stamps| == |exits|
  {
    q == RunProgress(p, cfg, profiles, i, exits, stamps)
  }

  /** The syncs of every target of the first `i` profiles, in configuration order. */
  ghost function RunProgress(p: Progress, cfg: Config, profiles: seq<Profile>, i: nat,
                             exits: seq<int>, stamps: seq<string>): Progress
    requires i <= |profiles| && Offset(profiles, i) <= |stamps| == |exits|
  {
    if i == 0 then p
    else
      ProfileProgress(RunProgress(p, cfg, profiles, i - 1, exits, stamps), cfg, profiles[i - 1],
                      |profiles[i - 1].dirs|, exits, stamps, Offset(profiles, i - 1))
  }

  /** The store directories of the first `j` directories of one profile. */
  function DirsOf(cfg: Config, profile: Profile, j: nat): set<string>
    requires j <= |profile.dirs|
  {
    if j == 0 then {} else DirsOf(cfg, profile, j - 1) + {StoreDir(cfg, profile, profile.dirs[j - 1])}
  }

  /** The store directories of the targets of the first `i` profiles. */
  function TargetDirs(cfg: Config, profiles: seq<Profile>, i: nat): set<string>
    requires i <= |profiles|
  {
    if i == 0 then {} else TargetDirs(cfg, profiles, i - 1) + DirsOf(cfg, profiles[i - 1], |profiles[i - 1].dirs|)
  }

  /** One sync keeps the root safe for the remaining targets and keeps every store within the cap. */
  lemma SafeStep(r: Root, r': Root, base: string, exitCode: int, stamps: seq<string>, k: nat, cap: int)
    requires cap >= 1 && k < |stamps| && DistinctStamps(stamps) && Safe(r, stamps, k)
    requires r' == SyncRoot(r, base, exitCode, stamps[k], cap)
    ensures Safe(r', stamps, k + 1)
    ensures Bounded(r.stores, cap) ==> Bounded(r'.stores, cap)
  {
    SyncStep(r.stores, r.junk, base, exitCode, stamps[k], cap);
    forall m | k + 1 <= m < |stamps|
      ensures Fresh(stamps[m], r'.stores, r'.junk)
    {
      assert stamps[k] != stamps[m];
    }
  }

  /** The root after `j` syncs of one profile is the root after `j - 1` syncs, synced once more. */
  lemma ProfileStepRoot(p: Progress, q: Progress, cfg: Config, profile: Profile, j: nat,
                        exits: seq<int>, stamps: seq<string>, k0: nat)
    requires 0 < j <= |profile.dirs| && k0 + j <= |stamps| == |exits|
    requires ProfileSynced(q, p, cfg, profile, j, exits, stamps, k0)
    ensures q.root == SyncRoot(ProfileProgress(p, cfg, profile, j - 1, exits, stamps, k0).root,
                               StoreDir(cfg, profile, profile.dirs[j - 1]), exits[k0 + j - 1], stamps[k0 + j - 1],
                               cfg.backupCount)
  {
  }

  /** The `j`-th sync of one profile keeps the root safe and the stores within the cap. */
  lemma ProfileSafeStep(p: Progress, before: Progress, q: Progress, cfg: Config, profile: Profile, j: nat,
                        exits: seq<int>, stamps: seq<string>, k0: nat)
    requires cfg.backupCount >= 1 && DistinctStamps(stamps)
    requires 0 < j <= |profile.dirs| && k0 + j <= |stamps| == |exits|
    requires before == ProfileProgress(p, cfg, profile, j - 1, exits, stamps, k0)
    requires ProfileSynced(q, p, cfg, profile, j, exits, stamps, k0)
    requires Safe(before.root, stamps, k0 + j - 1)
    ensures Safe(q.root, stamps, k0 + j)
    ensures Bounded(before.root.stores, cfg.backupCount) ==> Bounded(q.root.stores, cfg.backupCount)
  {
    ProfileStepRoot(p, q, cfg, profile, j, exits, stamps, k0);
    SafeStep(before.root, q.root, StoreDir(cfg, profile, profile.dirs[j - 1]), exits[k0 + j - 1], stamps, k0 + j - 1,
             cfg.backupCount);
  }

  /** The syncs of one profile's directories keep the root safe and the stores within the cap. */
  lemma {:induction false} ProfileSafe(p: Progress, q: Progress, cfg: Config, profile: Profile, j: nat,
                                       exits: seq<int>, stamps: seq<string>, k0: nat)
    requires cfg.backupCount >= 1 && DistinctStamps(stamps) && Safe(p.root, stamps, k0)
    requires j <= |profile.dirs| && k0 + j <= |stamps| == |exits|
    requires ProfileSynced(q, p, cfg, profile, j, exits, stamps, k0)
    ensures Safe(q.root, stamps, k0 + j)
    ensures Bounded(p.root.stores, cfg.backupCount) ==> Bounded(q.root.stores, cfg.backupCount)
    decreases j
  {
    if j > 0 {
      var before := ProfileProgress(p, cfg, profile, j - 1, exits, stamps, k0);
      ProfileSafe(p, before, cfg, profile, j - 1, exits, stamps, k0);
      ProfileSafeStep(p, before, q, cfg, profile, j, exits, stamps, k0);
    } else {
      assert q == p;
    }
  }

  /** The syncs of one profile change only the store directories of its targets, creating each if missing. */
  lemma {:induction false} ProfileTouches(p: Progress, cfg: Config, profile: Profile, j: nat,
                                          exits: seq<int>, stamps: seq<string>, k0: nat)
    requires j <= |profile.dirs| && k0 + j <= |stamps| == |exits|
    ensures Touched(p.root.stores, ProfileProgress(p, cfg, profile, j, exits, stamps, k0).root.stores, DirsOf(cfg, profile, j))
  {
    if j > 0 {
      ProfileTouches(p, cfg, profile, j - 1, exits, stamps, k0);
      var before := ProfileProgress(p, cfg, profile, j - 1, exits, stamps, k0).root;
      TouchedTrans(p.root.stores, before.stores, ProfileProgress(p, cfg, profile, j, exits, stamps, k0).root.stores,
                   DirsOf(cfg, profile, j - 1), {StoreDir(cfg, profile, profile.dirs[j - 1])});
    }
  }

  /** Each sync of one profile appends one flag per profile exclude plus the link-dest flag. */
  lemma {:induction false} ProfileFlagCount(p: Progress, cfg: Config, profile: Profile, j: nat,
                                            exits: seq<int>, stamps: seq<string>, k0: nat)
    requires j <= |profile.dirs| && k0 + j <= |stamps| == |exits|
    ensures |ProfileProgress(p, cfg, profile, j, exits, stamps, k0).flags| == |p.flags| + ProfileGrowth(profile, j)
  {
    if j > 0 {
      ProfileFlagCount(p, cfg, profile, j - 1, exits, stamps, k0);
    }
  }

  /** The whole run, by induction over the profiles: the root stays safe and every store within the cap. */
  lemma {:induction false} RunSafe(p: Progress, q: Progress, cfg: Config, profiles: seq<Profile>, i: nat,
                                   exits: seq<int>, stamps: seq<string>)
    requires cfg.backupCount >= 1 && DistinctStamps(stamps) && Safe(p.root, stamps, 0)
    requires i <= |profiles| && Offset(profiles, i) <= |stamps| == |exits|
    requires RunSynced(q, p, cfg, profiles, i, exits, stamps)
    ensures Safe(q.root, stamps, Offset(profiles, i))
    ensures Bounded(p.root.stores, cfg.backupCount) ==> Bounded(q.root.stores, cfg.backupCount)
    decreases i
  {
    if i > 0 {
      var before := RunProgress(p, cfg, profiles, i - 1, exits, stamps);
      RunSafe(p, before, cfg, profiles, i - 1, exits, stamps);
      var last := profiles[i - 1];
      ProfileSafe(before, q, cfg, last, |last.dirs|, exits, stamps, Offset(profiles, i - 1));
    }
  }

  /** The whole run changes only the targets' store directories, creating each if missing. */
  lemma {:induction false} RunTouches(p: Progress, cfg: Config, profiles: seq<Profile>, i: nat,
                                      exits: seq<int>, stamps: seq<string>)
    requires i <= |profiles| && Offset(profiles, i) <= |stamps| == |exits|
    ensures Touched(p.root.stores, RunProgress(p, cfg, profiles, i, exits, stamps).root.stores, TargetDirs(cfg, profiles, i))
  {
    if i > 0 {
      RunTouches(p, cfg, profiles, i - 1, exits, stamps);
      var before := RunProgress(p, cfg, profiles, i - 1, exits, stamps);
      var q := profiles[i - 1];
      ProfileTouches(before, cfg, q, |q.dirs|, exits, stamps, Offset(profiles, i - 1));
      TouchedTrans(p.root.stores, before.root.stores, RunProgress(p, cfg, profiles, i, exits, stamps).root.stores,
                   TargetDirs(cfg, profiles, i - 1), DirsOf(cfg, q, |q.dirs|));
    }
  }

  /** The shared flag list grows by one flag per profile exclude plus one link-dest flag, for every target. */
  lemma {:induction false} RunFlagCount(p: Progress, cfg: Config, profiles: seq<Profile>, i: nat,
                                        exits: seq<int>, stamps: seq<string>)
    requires i <= |profiles| && Offset(profiles, i) <= |stamps| == |exits|
    ensures |RunProgress(p, cfg, profiles, i, exits, stamps).flags| == |p.flags| + FlagGrowth(profiles, i)
  {
    if i > 0 {
      RunFlagCount(p, cfg, profiles, i - 1, exits, stamps);
      var q := profiles[i - 1];
      ProfileFlagCount(RunProgress(p, cfg, profiles, i - 1, exits, stamps), cfg, q, |q.dirs|, exits, stamps, Offset(profiles, i - 1));
    }
  }

  /** How many flags the syncs of the first `i` profiles append to the shared list. */
  function FlagGrowth(profiles: seq<Profile>, i: nat): nat
    requires i <= |profiles|
  {
    if i == 0 then 0 else FlagGrowth(profiles, i - 1) + ProfileGrowth(profiles[i - 1], |profiles[i - 1].dirs|)
  }

  /** How many flags the syncs of the first `j` directories of one profile append. */
  function ProfileGrowth(profile: Profile, j: nat): nat
  {
    if j == 0 then 0 else ProfileGrowth(profile, j - 1) + |profile.excludes| + 1
  }

  /** Each sync appends the profile's excludes and one link-dest flag. */
  lemma {:induction false} ProfileGrowthIsProduct(profile: Profile, j: nat)
    ensures ProfileGrowth(profile, j) == j * (|profile.excludes| + 1)
  {
    if j > 0 {
      ProfileGrowthIsProduct(profile, j - 1);
    }
  }
}
