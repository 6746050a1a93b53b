/**
  Where a target's snapshots live and which flags the synchronisation engine
  is given: the string building at the top of `run_rsync`, the constant flag
  lists and the flag building of the main block, and the idempotent
  directory creation `mkdir_p`.
 */
module Layout {
  import opened Wrappers

  /** `path.replace('/', '_')`. */
  function ReplaceSlashes(path: string): (r: string)
    ensures |r| == |path|
    ensures forall i :: 0 <= i < |path| ==> r[i] == (if path[i] == '/' then '_' else path[i])
    ensures '/' !in r
  {
    if path == [] then []
    else [if path[0] == '/' then '_' else path[0]] + ReplaceSlashes(path[1..])
  }

  /** The store directory of one target: `backup_path/username/hostname/flattened_path/`. */
  function BaseDir(backupPath: string, username: string, hostname: string, path: string): string
  {
    backupPath + username + "/" + hostname + "/" + ReplaceSlashes(path) + "/"
  }

  /** The staging directory that the engine writes into. */
  function StagingDir(base: string): string
  {
    base + "incomplete/"
  }

  /** The remote side of the transfer, `username@hostname:path`. */
  function Source(username: string, hostname: string, path: string): string
  {
    username + "@" + hostname + ":" + path
  }

  /** `'--exclude="%s"' % e`: the quotes are part of the argument. */
  function ExcludeFlag(pattern: string): string
  {
    "--exclude=\"" + pattern + "\""
  }

  /** One exclude flag per pattern, in the order the patterns are listed. */
  function ExcludeFlags(patterns: seq<string>): (r: seq<string>)
    ensures |r| == |patterns|
    ensures forall i :: 0 <= i < |patterns| ==> r[i] == ExcludeFlag(patterns[i])
  {
    if patterns == [] then [] else [ExcludeFlag(patterns[0])] + ExcludeFlags(patterns[1..])
  }

  /** `'--link-dest=%s/%s' % (base_dir, newest)`. */
  function LinkDestFlag(base: string, newest: string): string
  {
    "--link-dest=" + base + "/" + newest
  }

  /** `rsync_flags`, the list every run starts from. */
  const BaseFlags: seq<string> := ["--archive", "--one-file-system", "--hard-links",
    "--human-readable", "--inplace", "--numeric-ids", "--delete", "--delete-excluded"]

  /** `rsync_flags_verbose`. */
  const VerboseFlags: seq<string> := ["--verbose", "--progress", "--itemize-changes"]

  /** The flag list the main block has built before the first target is synced. */
  function InitialFlags(globalExcludes: seq<string>, verbose: bool, dry: bool): seq<string>
  {
    BaseFlags + ExcludeFlags(globalExcludes) + (if verbose then VerboseFlags else [])
      + (if dry then ["-n"] else [])
  }

  function SlashCount(s: string): nat
  {
    if s == [] then 0 else (if s[0] == '/' then 1 else 0) + SlashCount(s[1..])
  }

  lemma {:induction false} SlashCountAppend(a: string, b: string)
    ensures SlashCount(a + b) == SlashCount(a) + SlashCount(b)
    decreases |a|
  {
    if a != [] {
      assert (a + b)[1..] == a[1..] + b;
      SlashCountAppend(a[1..], b);
    } else {
      assert a + b == b;
    }
  }

  lemma {:induction false} NoSlashNoCount(s: string)
    requires '/' !in s
    ensures SlashCount(s) == 0
    decreases |s|
  {
    if s != [] {
      NoSlashNoCount(s[1..]);
    }
  }

  /**
    However deep the backed-up path is, its store directory lies exactly
    three levels below the backup root (for user and host names without a
    slash): the path is flattened into a single component.
   */
  lemma StoreDepth(backupPath: string, username: string, hostname: string, path: string)
    requires '/' !in username && '/' !in hostname
    ensures var base := BaseDir(backupPath, username, hostname, path);
      |backupPath| <= |base| && base[..|backupPath|] == backupPath &&
      SlashCount(base[|backupPath|..]) == 3
  {
    var flat := ReplaceSlashes(path);
    var base := BaseDir(backupPath, username, hostname, path);
    assert base[|backupPath|..] == username + ("/" + (hostname + ("/" + (flat + "/"))));
    SlashCountAppend(username, "/" + (hostname + ("/" + (flat + "/"))));
    SlashCountAppend("/", hostname + ("/" + (flat + "/")));
    SlashCountAppend(hostname, "/" + (flat + "/"));
    SlashCountAppend("/", flat + "/");
    SlashCountAppend(flat, "/");
    NoSlashNoCount(username);
    NoSlashNoCount(hostname);
    NoSlashNoCount(flat);
  }

  /**
    Flattening is not injective: the paths `a/b` and `a_b` of the same host
    share one store directory, and so share snapshots and retention.
   */
  lemma FlatteningCollides(backupPath: string, username: string, hostname: string)
    ensures BaseDir(backupPath, username, hostname, "a/b") == BaseDir(backupPath, username, hostname, "a_b")
  {
    assert ReplaceSlashes("a/b") == "a_b";
    assert ReplaceSlashes("a_b") == "a_b";
  }

  /** What a path names in the file system, as far as `mkdir_p` cares. */
  datatype Kind = Directory | NotDirectory

  /** `os.makedirs` fails with EEXIST and `mkdir_p` re-raises it. */
  datatype MkdirError = FileExists

  /**
    `mkdir_p(path)`: create `path` as a directory; if something is there
    already, succeed when it is a directory and raise otherwise.
   */
  function MkdirP(fs: map<string, Kind>, path: string): (r: Result<map<string, Kind>, MkdirError>)
    ensures r.Ok? <==> path !in fs || fs[path] == Directory
    ensures r.Ok? ==> r.value.Keys == fs.Keys + {path} && r.value[path] == Directory
    ensures r.Ok? ==> forall q :: q in fs && q != path ==> r.value[q] == fs[q]
  {
    if path !in fs then Ok(fs[path := Directory])
    else if fs[path] == Directory then Ok(fs)
    else Err(FileExists)
  }

  /** Creating a directory twice is the same as creating it once. */
  lemma MkdirPIdempotent(fs: map<string, Kind>, path: string)
    requires MkdirP(fs, path).Ok?
    ensures MkdirP(MkdirP(fs, path).value, path) == MkdirP(fs, path)
  {
  }
}
