# ezbackup snapshot lifecycle in Dafny

`ezbackup.py` backs up remote directory trees into a local snapshot store.
For every configured target (a profile's user and host, and one of its
directories) it creates a staging directory `incomplete/` inside the
target's store directory and asks `rsync` to mirror the source into it,
hard-linking unchanged files from the newest existing snapshot. When the
engine succeeds, the script:

- renames `incomplete` to a UTC timestamp name;
- repoints the `current` symbolic link at the new snapshot;
- if the store already held at least `backup_count` snapshots, moves the oldest one
  into the run-wide quarantine directory `junk/`.

The quarantine directory is deleted when the run ends.

This project models that lifecycle and proves its properties:

- `Lex`: Python's string order, and the running maximum and minimum that
  `backup_stats` folds over a directory listing. The folds are stated for
  any visiting order.
- `Timestamps`: the `%Y-%m-%d__%H-%M-%S` snapshot names. For four-digit
  years, string order of two names is chronological order.
- `Layout`:
  - the store and staging paths;
  - the remote source;
  - the exclude and link-dest flags;
  - the initial flag list of the main block;
  - `mkdir_p`.
- `Store`: one target's store directory as a value (snapshot names,
  whether `incomplete` exists, where `current` points). It also holds
  `backup_stats` as a loop over the listing, and what one sync does to a
  store and to the whole backup root.
- `Backup`:
  - the backup root as an object whose store map and quarantine set the
    operations change in place;
  - the shared flag list as an object that `run_rsync` extends, as the one
    aliased Python list is;
  - `run_rsync`;
  - the main block's loops over profiles and directories, each specified
    by a function of the inputs (`SyncProgress`, `ProfileProgress`,
    `RunProgress`), with the run-wide invariants proved about those
    functions.

The engine's exit code and the clock readings are parameters. The run
receives one exit code and one UTC time per target, in configuration
order.

Points where the code's behaviour is easy to misread:

- `backup_stats` starts its running minimum at `'Z'`, so on a store
  without snapshots it reports `oldest == 'Z'` (ezbackup.py:62).
- With no snapshot, `newest` stays `''`, so the link-dest flag is the
  store directory itself followed by `/` (ezbackup.py:93).
- Rotation renames the oldest snapshot out of the store right after
  promotion (ezbackup.py:121-124). The evicted snapshot then waits in the
  quarantine directory until the end of the run.
  - A store that held at most `cap` snapshots before `run_rsync` still does
    after it returns (`Store.RetentionBound`).
  - A store already above the cap, for instance after `backup_count` was
    lowered, gains one snapshot and loses one on each successful sync. So
    it keeps its size and never comes back down to the cap
    (`Store.SuccessfulSync`).
- The flag list is not rebuilt per target. `flags` is the module-level
  list (ezbackup.py:146), and every call appends its excludes and a
  link-dest flag to it (ezbackup.py:89, 93). So each target's command
  carries the excludes and link-dest flags of every earlier target.
- Exclude patterns are wrapped in literal double quotes that become part
  of the argument (ezbackup.py:88, 148).
- Flattening a path replaces `/` by `_`, so `a/b` and `a_b` of one host
  share a store directory (`Layout.FlatteningCollides`).
- `mkdir_p` on the staging directory never raises, because everything
  already in a store directory is a directory or a link to one
  (`Backup.StagingIsMkdirP`).

## Model

| member | source | states |
|---|---|---|
| Lex.Below | ezbackup.py:69-72 | definition: Python's `<` on strings, comparing code points left to right, with a proper prefix first |
| Lex.MaxIsGreatest | ezbackup.py:61-71 | the running maximum from `''`, in whatever order the entries are visited, is a visited name or `''`, and no name and not `''` is greater |
| Lex.MinIsLeast | ezbackup.py:62-72 | the running minimum from `'Z'`, in whatever order, is a visited name or `'Z'`, and no name and not `'Z'` is smaller |
| Lex.GreatestStep | ezbackup.py:69-70 | one `if dir > newest: newest = dir` step keeps `newest` the maximum of what was seen |
| Lex.LeastStep | ezbackup.py:71-72 | one `if dir < oldest: oldest = dir` step keeps `oldest` the minimum of what was seen |
| Lex.GreatestUnique | ezbackup.py:69-70 | the maximum is unique, so the listing order does not change `newest` |
| Lex.LeastUnique | ezbackup.py:71-72 | the minimum is unique, so the listing order does not change `oldest` |
| Lex.BelowTotal | ezbackup.py:69-72 | Python string comparison is total: two strings are equal or one is below the other |
| Lex.BelowTransitive | ezbackup.py:69-72 | Python string comparison is transitive |
| Timestamps.Digits | ezbackup.py:111 | a zero-padded field has exactly its width and only digits |
| Timestamps.FormatStamp | ezbackup.py:111 | a snapshot name has 20 characters and starts with a digit |
| Timestamps.StampOrder | ezbackup.py:111 | one name is below another iff its time is earlier, and two names are equal iff the times are |
| Timestamps.StampInjective | ezbackup.py:110-112 | promotions at different seconds get different names |
| Timestamps.StampShape | ezbackup.py:111 | a snapshot name is neither `incomplete` nor `current` and sorts strictly between `''` and `'Z'` |
| Layout.Source | ezbackup.py:76-78 | definition: `username@hostname:path` |
| Layout.BaseDir | ezbackup.py:80-84 | definition: `backup_path`, then `username/`, `hostname/` and the flattened path followed by `/` |
| Layout.StagingDir | ezbackup.py:85 | definition: the store directory followed by `incomplete/` |
| Layout.LinkDestFlag | ezbackup.py:93 | definition: `--link-dest=`, the store directory, `/` and the newest name |
| Layout.InitialFlags | ezbackup.py:146-152 | definition: the base flags, then one exclude flag per global exclude, then the verbose flags when asked for, then `-n` for a dry run |
| Layout.ReplaceSlashes | ezbackup.py:83 | the flattened path has the same length, maps each `/` to `_` and keeps every other character, and contains no `/` |
| Layout.ExcludeFlags | ezbackup.py:88 | one `--exclude="e"` flag per pattern, in the listed order |
| Layout.StoreDepth | ezbackup.py:80-84 | the store directory extends `backup_path` by exactly three `/`-separated levels, however deep the backed-up path |
| Layout.FlatteningCollides | ezbackup.py:83 | the paths `a/b` and `a_b` of one host map to the same store directory |
| Layout.MkdirP | ezbackup.py:31-37 | `mkdir_p` succeeds iff nothing is at the path or a directory is. On success the path is a directory and nothing else changes |
| Layout.MkdirPIdempotent | ezbackup.py:31-37 | creating a directory a second time changes nothing |
| Store.Staged | ezbackup.py:85-86 | definition: the store with `incomplete` present, or a new store holding only `incomplete` |
| Store.Promoted | ezbackup.py:112-119 | definition: `incomplete` becomes the snapshot `timestr`, and `current` names it |
| Store.Evicted | ezbackup.py:122-124 | definition: the pre-sync oldest name when the pre-sync count reached the cap, otherwise nothing |
| Store.Rotated | ezbackup.py:122-124 | definition: the store without the evicted name |
| Store.Synced | ezbackup.py:103-124 | definition: on a nonzero exit code the staged store unchanged. Otherwise it is promoted and then rotated, using the count and oldest name that `backup_stats` gives on the staged store |
| Store.Quarantined | ezbackup.py:121-124 | definition: on success the evicted name of the staged store, on failure nothing |
| Store.SyncRoot | ezbackup.py:86-124 | definition: the target's store becomes `Synced` of its staged version, and the quarantined names join `junk/` |
| Store.BackupStats | ezbackup.py:58-73 | the loop returns the number of entries other than `incomplete` and `current` (the counting fold `Count`, which equals the set's size), their maximum from `''` and their minimum from `'Z'` |
| Store.ScanStep | ezbackup.py:64-72 | visiting one entry skips the two reserved names and otherwise counts and ranks the entry |
| Store.FoldResults | ezbackup.py:69-73 | a running maximum and minimum that bound everything seen equal the folds' results |
| Store.CountIsSize | ezbackup.py:68 | the running count counts every listed name exactly once, whatever the visiting order |
| Store.ListedSnapshots | ezbackup.py:60-66 | in a store without foreign entries, the names `backup_stats` counts are exactly the snapshots |
| Store.BaselineChoice | ezbackup.py:91-93 | the link-dest name is `''` when there is no snapshot, otherwise the snapshot with the greatest name |
| Store.VictimIsOldest | ezbackup.py:121-124 | when the store has a snapshot, the reported oldest is the snapshot with the smallest name, never `'Z'` |
| Store.SuccessfulSync | ezbackup.py:106-124 | after success, `incomplete` is gone, the new snapshot exists and `current` points at it. Exactly the old oldest snapshot is evicted iff the old count reached the cap, so the count grows by one below the cap and stays put at or above it |
| Store.SyncedShape | ezbackup.py:103-124 | whatever the exit code, a sync adds at most the new name, evicts only old snapshots, keeps the store free of foreign names and keeps it within the cap |
| Store.RetentionBound | ezbackup.py:121-124 | a sync never takes a store above the cap |
| Store.FailedSync | ezbackup.py:103-106 | a failed sync leaves the snapshots and `current` alone, leaves `incomplete` in place, quarantines nothing and touches no other store |
| Store.SyncStep | ezbackup.py:121-124 | one sync keeps every store free of foreign names, names unique across stores and quarantine, stores within the cap, and other fresh names fresh |
| Store.NewestIsLatest | ezbackup.py:91-93 | among timestamp names, the string maximum is the name of the latest promotion |
| Store.OldestIsEarliest | ezbackup.py:121-124 | among timestamp names, the string minimum is the name of the earliest promotion |
| Backup.StoreDir | ezbackup.py:80-84 | definition: `BaseDir` of the configuration's `backup_path` and the profile's user and host |
| Backup.StagingIsMkdirP | ezbackup.py:85-86 | `mkdir_p` of `incomplete` in a store directory, or in a store that does not exist yet, never raises. Afterwards the entries are exactly those of `Staged` |
| Backup.FlagList.Extend | ezbackup.py:88-93 | `flags +=` appends in place, keeping the earlier items |
| Backup.BackupRoot.MakeStaging | ezbackup.py:85-86 | the store gains `incomplete`, or is created holding only it |
| Backup.BackupRoot.RenameStaging | ezbackup.py:112 | `incomplete` becomes the snapshot `timestr` |
| Backup.BackupRoot.RemoveCurrent | ezbackup.py:115-118 | afterwards there is no `current` link, whether or not there was one |
| Backup.BackupRoot.LinkCurrent | ezbackup.py:119 | `current` now names the new snapshot |
| Backup.BackupRoot.Evict | ezbackup.py:122-124 | the named snapshot leaves its store and enters the quarantine directory |
| Backup.BackupRoot.Promote | ezbackup.py:109-119 | the store becomes `Promoted(pre, timestr)`: new snapshot present, no `incomplete`, `current` at it |
| Backup.BackupRoot.Rotate | ezbackup.py:121-124 | the pre-sync oldest snapshot is quarantined iff the pre-sync count reached the cap |
| Backup.BackupRoot.Commit | ezbackup.py:106-126 | promotion followed by rotation takes the store to `Synced(pre, 0, timestr, cap)` and quarantines `Quarantined(pre, 0, cap)` |
| Backup.BackupRoot.PurgeJunk | ezbackup.py:175 | the quarantine directory ends up empty and no store changes |
| Backup.BackupRoot.RunRsync | ezbackup.py:75-129 | returns true iff the exit code is 0. The root and the flag list become `SyncProgress` of the old ones. The command is `rsync`, the whole current flag list, the source and the staging directory |
| Backup.SyncProgress | ezbackup.py:86-124 | definition: `SyncRoot` on the root, and the flag list extended by the profile's excludes and a link-dest flag. That flag names the greatest snapshot of the staged store |
| Backup.ProfileProgress | ezbackup.py:164-165 | definition: `SyncProgress` over the first `j` directories of a profile in order. The `m`-th directory takes exit code and name number `k0 + m` |
| Backup.RunProgress | ezbackup.py:163-165 | definition: `ProfileProgress` over each of the first `i` profiles in order, with the target numbering carried across profiles |
| Backup.SyncFlags | ezbackup.py:88-93 | after a call the flag list is the old list, then one exclude flag per profile exclude, then one link-dest flag naming the greatest snapshot, or the store directory plus `/` when there is none |
| Backup.BackupRoot.Run | ezbackup.py:145-175 | succeeds iff every exit code is 0. The stores and flag list end as `RunProgress` from the initial flags, and the quarantine directory is empty |
| Backup.BackupRoot.SyncAll | ezbackup.py:162-165 | the loop over profiles succeeds iff every exit code is 0 and leaves the root and flags at `RunProgress` over all profiles |
| Backup.BackupRoot.SyncNextProfile | ezbackup.py:163-165 | one pass of the outer loop takes the run from profile `i` to `i + 1` and ANDs that profile's results in |
| Backup.BackupRoot.SyncProfile | ezbackup.py:164-165 | the loop over one profile's directories succeeds iff each of their exit codes is 0 and leaves the state at `ProfileProgress` over all of them |
| Backup.BackupRoot.SyncNextDir | ezbackup.py:165 | `run_rsync(...) and success` runs the sync whatever `success` was, and the result is true iff this exit code and all earlier ones are 0 |
| Backup.AllZeroSplit | ezbackup.py:165 | the conjunction over a range of results is the conjunction over its two parts |
| Backup.Stamps | ezbackup.py:110-111 | one snapshot name per clock reading |
| Backup.StampsAt | ezbackup.py:110-111 | the `m`-th name is the `m`-th reading formatted |
| Backup.ClockStamps | ezbackup.py:110-112 | distinct clock readings give pairwise distinct names, none of them reserved |
| Backup.SafeStep | ezbackup.py:121-124 | one sync keeps the root safe for the remaining names and keeps every store within the cap |
| Backup.ProfileSafeStep | ezbackup.py:165 | the `j`-th sync of a profile keeps the root safe and the stores within the cap |
| Backup.ProfileSafe | ezbackup.py:164-165 | the syncs of one profile keep the root safe for the remaining targets and every store within the cap |
| Backup.RunSafe | ezbackup.py:162-165 | retention over a whole run: if every store was within the cap, every store still is, and no rename into a snapshot name or into `junk/` collides |
| Backup.ProfileTouches | ezbackup.py:164-165 | the syncs of one profile change only that profile's store directories, each of which then exists |
| Backup.RunTouches | ezbackup.py:162-165 | a run changes only the configured targets' store directories, each of which then exists |
| Backup.ProfileFlagCount | ezbackup.py:88-93 | the syncs of one profile lengthen the shared flag list by its exclude count plus one, per directory |
| Backup.RunFlagCount | ezbackup.py:146-165 | across a run the shared flag list grows by every profile's excludes plus one link-dest flag for every target |
| Backup.ProfileGrowthIsProduct | ezbackup.py:88-93 | `j` syncs of one profile add `j * (excludes + 1)` flags |

## Left out

- The `rsync` subprocess, its command execution and timing (ezbackup.py:95-104): the exit code is a parameter, and the mirroring itself is not modelled.
- `send_email` and the `--email` option (ezbackup.py:47-53, 167-172): network I/O.
- `parse_args`, the JSON configuration file and logging (ezbackup.py:39-45, 131-141): glue. The configuration arrives as a `Config` value and a profile list, with a missing `excludes` given as the empty list.
- The `--username` option is parsed but never filters the profiles (ezbackup.py:41, 163). The model syncs every profile, as the code does.
- `datetime.utcnow()` (ezbackup.py:110): one reading per target is a parameter of `Run`. Readings must have four-digit years.
- Backup.BackupRoot.Run requires the clock readings to be pairwise distinct, and no snapshot name to be in two stores or in a store and `junk/` (`Backup.Safe`, `Store.Disjoint`). The program is less strict, and the model does not capture the states it excludes:
  - Two targets of different stores can promote in the same second. Each `os.rename('incomplete', timestr)` runs inside its own store directory (ezbackup.py:112), so both renames succeed, and two stores then share a snapshot name.
  - The program tolerates shared names until both copies are evicted in one run. Then the second rename into the flat `junk/` directory raises and the run aborts (ezbackup.py:123-124).
  - The model instead rules such states out from the start.
- Backup.BackupRoot.RunRsync receives the already formatted name `timestr`. `Run` formats each clock reading with `FormatStamp`, so the clock read and the formatting are not inside `RunRsync`.
- `os.chdir` (ezbackup.py:107-108, 126): the model uses the store directory's path directly.
- Backup.BackupRoot.RunRsync and `Run` assume an absolute `backup_path`. The program computes the quarantine path `backup_path + 'junk/' + oldest` (ezbackup.py:123) after `os.chdir(base_dir)`. With a relative `backup_path`, that path resolves inside the store directory, where no `junk/` exists. So the rename at ezbackup.py:124 raises on the first eviction and the run aborts, without restoring the working directory. The model evicts into the run-wide `junk/` whatever form `backup_path` has.
- Backup.BackupRoot.Run and `RunRsync` require `backup_count >= 1`, and the program never checks it. With `backup_count` 0, the first successful sync of an empty store passes the test `0 >= 0` (ezbackup.py:122). It then tries to rename the sentinel `'Z'`, which does not exist, so `os.rename` raises (ezbackup.py:124) and the run aborts.
- `shutil.rmtree` (ezbackup.py:175) is modelled only as the quarantine set becoming empty.
- Operating-system failures are preconditions rather than exceptions. This covers a rename onto an existing snapshot of the same store (ezbackup.py:112) and a rename onto a name already in `junk/` (ezbackup.py:124). `Run` requires that:
  - every snapshot name is ordinary: neither `incomplete` nor `current`, and strictly between `''` and `'Z'` in string order. So `ABC` or `.DS_Store` qualify, but `Zoo` does not;
  - no name is in two stores or in a store and `junk/`;
  - no clock reading's name is taken yet.
- A profile whose user is named `junk` would put its stores inside the quarantine directory, which the final deletion would remove (ezbackup.py:157). The model keeps the quarantine directory apart from the stores.
- `os.makedirs` creating missing intermediate directories, and the `errno` values other than `EEXIST`: `Layout.MkdirP` models one path with the directory-or-not distinction only, and `Backup.StagingIsMkdirP` ties it to `Store.Staged`. The `mkdir_p` of the quarantine directory (ezbackup.py:159) keeps `junk/` as it is.
- A `junk` path that exists but is not a directory makes `mkdir_p` raise at ezbackup.py:159. `Run` does not model that failure.
- The elapsed-time log line (ezbackup.py:128) and the error log line (ezbackup.py:103-104).
- The process exit status: the script never uses `success` for it, only for the email subject.
