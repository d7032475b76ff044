/**
 * The Jenkins monitoring run: the plugin check and the build-log purge of
 * a Jenkins host (an Ubuntu host with two more checks), and the
 * monitoring object that runs the checks, files each under passed or
 * failed, and ends with a summary whose exit status says whether any
 * check failed.
 *
 * The plugin directory listing, the jobs directory (each job with its
 * build directories and their ages in whole days) and the `df` outputs
 * are inputs; removal is the list of (job, build directory) pairs chosen.
 */
module JenkinsMonitor {
  import opened Common
  import opened HostUtils

  // ---------------------------------------------------------------------
  // Plugins
  // ---------------------------------------------------------------------

  /** The plugins the check looks for, in order, each with its `required`
      flag (1: mandatory, 0: optional). */
  const RequiredPlugins: seq<(string, int)> := [
    ("svn-importer-plugin.jpi", 1),
    ("build-blocker-plugin.jpi", 1),
    ("purge-build-queue-plugin.jpi", 0),
    ("purge-job-history.jpi", 0),
    ("push-master-flash.jpi", 0)
  ]

  /** `re.match(r'.+\.jpi', f)`: at least one character other than a
      newline, then `.jpi`; whatever follows is allowed. */
  predicate IsPluginFile(f: string)
  {
    exists j | 1 <= j <= |f| - 4 :: OccursAt(f, ".jpi", j) && '\n' !in f[..j]
  }

  /** `re.match(pattern, subject)` for a file name used as the pattern:
      each `.` stands for any character but a newline, every other
      character for itself, and the subject only has to start with a
      match. */
  predicate PatternMatches(pattern: string, subject: string)
  {
    |pattern| <= |subject| &&
    forall i | 0 <= i < |pattern| :: if pattern[i] == '.' then subject[i] != '\n' else pattern[i] == subject[i]
  }

  /** The installed plugins: the listed names that look like plugin files,
      in listing order. */
  function InstalledPlugins(listing: seq<string>): (r: seq<string>)
  {
    if listing == [] then []
    else
      var r := InstalledPlugins(listing[..|listing| - 1]);
      var f := listing[|listing| - 1];
      if IsPluginFile(f) then r + [f] else r
  }

  /** Only names that look like plugin files count as installed, and every
      such name does. */
  lemma {:induction false} InstalledPluginsSpec(listing: seq<string>)
    ensures forall f :: f in InstalledPlugins(listing) <==> f in listing && IsPluginFile(f)
    decreases |listing|
  {
    if listing != [] {
      var init := listing[..|listing| - 1];
      InstalledPluginsSpec(init);
      assert listing == init + [listing[|listing| - 1]];
    }
  }

  /** Any name of one or more characters on one line followed by `.jpi` is
      a plugin file, including a renamed backup such as `x.jpi.bak`. */
  lemma PluginFileName(name: string, suffix: string)
    requires name != [] && '\n' !in name
    ensures IsPluginFile(name + ".jpi" + suffix)
  {
    var f := name + ".jpi" + suffix;
    assert OccursAt(f, ".jpi", |name|) && f[..|name|] == name;
  }

  /** The first installed plugin whose name, read as a pattern, matches the
      wanted plugin. */
  function FirstMatch(installed: seq<string>, plugin: string): (r: Option<string>)
    ensures r.None? <==> forall i :: 0 <= i < |installed| ==> !PatternMatches(installed[i], plugin)
    ensures r.Some? ==> exists i :: 0 <= i < |installed| && installed[i] == r.value && PatternMatches(r.value, plugin) &&
                          forall j :: 0 <= j < i ==> !PatternMatches(installed[j], plugin)
  {
    if installed == [] then None
    else if PatternMatches(installed[0], plugin) then Some(installed[0])
    else
      var r := FirstMatch(installed[1..], plugin);
      assert forall i :: 1 <= i < |installed| ==> installed[1..][i - 1] == installed[i];
      r
  }

  /** `fplugins`: the installed name found for each plugin that has one. */
  function FoundPlugins(plugins: seq<(string, int)>, installed: seq<string>): seq<string>
  {
    if plugins == [] then []
    else
      var r := FoundPlugins(plugins[..|plugins| - 1], installed);
      match FirstMatch(installed, plugins[|plugins| - 1].0)
      case Some(x) => r + [x]
      case None => r
  }

  /** `mplugins`: the plugins without an installed match, mandatory or not. */
  function MissingPlugins(plugins: seq<(string, int)>, installed: seq<string>): seq<string>
  {
    if plugins == [] then []
    else
      var r := MissingPlugins(plugins[..|plugins| - 1], installed);
      var p := plugins[|plugins| - 1].0;
      if FirstMatch(installed, p).None? then r + [p] else r
  }

  /** The verdict of the plugin check: every mandatory plugin is installed. */
  predicate RequiredAllFound(plugins: seq<(string, int)>, installed: seq<string>)
  {
    forall i :: 0 <= i < |plugins| && plugins[i].1 != 0 ==> FirstMatch(installed, plugins[i].0).Some?
  }

  /** Found and missing together have one entry per listed plugin. */
  lemma {:induction false} PluginCounts(plugins: seq<(string, int)>, installed: seq<string>)
    ensures |FoundPlugins(plugins, installed)| + |MissingPlugins(plugins, installed)| == |plugins|
    decreases |plugins|
  {
    if plugins != [] {
      PluginCounts(plugins[..|plugins| - 1], installed);
    }
  }

  /** A plugin without an installed match is missing. */
  lemma {:induction false} MissingComplete(plugins: seq<(string, int)>, installed: seq<string>)
    ensures forall i :: 0 <= i < |plugins| && FirstMatch(installed, plugins[i].0).None? ==>
              plugins[i].0 in MissingPlugins(plugins, installed)
    decreases |plugins|
  {
    if plugins != [] {
      var n := |plugins| - 1;
      var init := plugins[..n];
      MissingComplete(init, installed);
      var m, mi := MissingPlugins(plugins, installed), MissingPlugins(init, installed);
      assert forall p :: p in mi ==> p in m;
      forall i | 0 <= i < n && FirstMatch(installed, plugins[i].0).None?
        ensures plugins[i].0 in m
      {
        assert init[i] == plugins[i];
      }
    }
  }

  /** Every missing name is a listed plugin without an installed match. */
  lemma {:induction false} MissingSound(plugins: seq<(string, int)>, installed: seq<string>)
    ensures forall p :: p in MissingPlugins(plugins, installed) ==>
              exists i :: 0 <= i < |plugins| && plugins[i].0 == p && FirstMatch(installed, p).None?
    decreases |plugins|
  {
    if plugins != [] {
      var n := |plugins| - 1;
      var init := plugins[..n];
      MissingSound(init, installed);
      var m, mi := MissingPlugins(plugins, installed), MissingPlugins(init, installed);
      forall p | p in m
        ensures exists i :: 0 <= i < |plugins| && plugins[i].0 == p && FirstMatch(installed, p).None?
      {
        if p !in mi {
          assert plugins[n].0 == p;
        } else {
          var i :| 0 <= i < |init| && init[i].0 == p && FirstMatch(installed, p).None?;
          assert plugins[i].0 == p;
        }
      }
    }
  }

  /** Every found name is an installed plugin file. */
  lemma {:induction false} FoundInstalled(plugins: seq<(string, int)>, installed: seq<string>)
    ensures forall x :: x in FoundPlugins(plugins, installed) ==> x in installed
    decreases |plugins|
  {
    if plugins != [] {
      FoundInstalled(plugins[..|plugins| - 1], installed);
    }
  }

  /** A name that is not a plugin file never changes the plugin check. */
  lemma NonPluginFileIgnored(listing: seq<string>, f: string)
    requires !IsPluginFile(f)
    ensures InstalledPlugins(listing + [f]) == InstalledPlugins(listing)
  {
    assert (listing + [f])[..|listing|] == listing;
  }

  // ---------------------------------------------------------------------
  // Build-log purge
  // ---------------------------------------------------------------------

  /** A directory under a job's `builds`: its name and its age in whole
      days, or nothing when `stat` on it fails. */
  datatype BuildDir = BuildDir(name: string, age: Option<int>)

  /** A job directory, with the listing of its `builds` directory when it
      has one. */
  datatype Job = Job(name: string, builds: Option<seq<BuildDir>>)

  /** `re.match(r'\d+', name)`: the name starts with a digit. */
  predicate StartsWithDigit(s: string)
  {
    s != [] && IsDigit(s[0])
  }

  /** A directory whose age gets compared: a numbered build that `stat`
      could read. */
  predicate Candidate(d: BuildDir)
  {
    StartsWithDigit(d.name) && d.age.Some?
  }

  /** The purge rule: a numbered build strictly older than `days`. */
  predicate Selected(d: BuildDir, days: int)
  {
    Candidate(d) && d.age.value > days
  }

  /** `oldDirs` of one job. */
  function OldDirs(dirs: seq<BuildDir>, days: int): seq<string>
  {
    if dirs == [] then []
    else
      var r := OldDirs(dirs[..|dirs| - 1], days);
      var d := dirs[|dirs| - 1];
      if Selected(d, days) then r + [d.name] else r
  }

  /** A name is selected iff some build directory of that name is a
      numbered build whose age could be read and is over `days`. */
  lemma {:induction false} OldDirsSpec(dirs: seq<BuildDir>, days: int, b: string)
    ensures b in OldDirs(dirs, days) <==> exists k :: 0 <= k < |dirs| && dirs[k].name == b && Selected(dirs[k], days)
    decreases |dirs|
  {
    if dirs != [] {
      var n := |dirs| - 1;
      var init := dirs[..n];
      OldDirsSpec(init, days, b);
      assert forall k :: 0 <= k < n ==> init[k] == dirs[k];
      if b in OldDirs(dirs, days) && b !in OldDirs(init, days) {
        assert dirs[n].name == b && Selected(dirs[n], days);
      }
      if exists k :: 0 <= k < |dirs| && dirs[k].name == b && Selected(dirs[k], days) {
        var k :| 0 <= k < |dirs| && dirs[k].name == b && Selected(dirs[k], days);
        if k < n {
          assert init[k].name == b && Selected(init[k], days);
        }
      }
    }
  }

  predicate HasCandidate(dirs: seq<BuildDir>)
  {
    exists k :: 0 <= k < |dirs| && Candidate(dirs[k])
  }

  /** Some job with a `builds` directory has a directory whose age gets
      compared with `days`. */
  predicate AnyCandidate(jobs: seq<Job>)
  {
    exists i :: 0 <= i < |jobs| && jobs[i].builds.Some? && HasCandidate(jobs[i].builds.value)
  }

  function Tagged(job: string, names: seq<string>): (r: seq<(string, string)>)
    ensures |r| == |names|
    ensures forall i :: 0 <= i < |names| ==> r[i] == (job, names[i])
  {
    seq(|names|, i requires 0 <= i < |names| => (job, names[i]))
  }

  /** Every (job, build directory) pair the purge removes, job by job. */
  function Purged(jobs: seq<Job>, days: int): seq<(string, string)>
  {
    if jobs == [] then []
    else
      PurgeOne(Purged(jobs[..|jobs| - 1], days), jobs[|jobs| - 1], days)
  }

  /** The pairs removed so far, followed by those of one more job. */
  function PurgeOne(r: seq<(string, string)>, job: Job, days: int): seq<(string, string)>
  {
    if job.builds.None? then r else r + Tagged(job.name, OldDirs(job.builds.value, days))
  }

  lemma PurgedNext(jobs: seq<Job>, i: nat, days: int)
    requires i < |jobs|
    ensures Purged(jobs[..i + 1], days) == PurgeOne(Purged(jobs[..i], days), jobs[i], days)
  {
    assert jobs[..i + 1][..i] == jobs[..i];
  }

  lemma AnyCandidateNext(jobs: seq<Job>, i: nat)
    requires i < |jobs|
    ensures AnyCandidate(jobs[..i + 1]) <==>
              AnyCandidate(jobs[..i]) || (jobs[i].builds.Some? && HasCandidate(jobs[i].builds.value))
  {
    var pre := jobs[..i + 1];
    assert forall k | 0 <= k < i :: pre[k] == jobs[..i][k];
    if AnyCandidate(pre) {
      var k :| 0 <= k < |pre| && pre[k].builds.Some? && HasCandidate(pre[k].builds.value);
      if k < i {
        assert jobs[..i][k] == pre[k];
      }
    }
    if jobs[i].builds.Some? && HasCandidate(jobs[i].builds.value) {
      assert pre[i] == jobs[i];
    }
  }

  /** A pair is removed iff it names a job that has a `builds` directory
      and one of its selected directories; jobs without one are skipped. */
  lemma TaggedMember(job: string, names: seq<string>, j: string, b: string)
    ensures (j, b) in Tagged(job, names) <==> job == j && b in names
  {
    var t := Tagged(job, names);
    if (j, b) in t {
      var k :| 0 <= k < |t| && t[k] == (j, b);
    }
    if job == j && b in names {
      var k :| 0 <= k < |names| && names[k] == b;
      assert t[k] == (j, b);
    }
  }

  /** The pair names job `i`, which has a `builds` directory in which `b`
      is selected. */
  predicate PurgedBy(jobs: seq<Job>, days: int, j: string, b: string, i: int)
    requires 0 <= i < |jobs|
  {
    jobs[i].name == j && jobs[i].builds.Some? && b in OldDirs(jobs[i].builds.value, days)
  }

  /** A pair is removed iff it names a job that has a `builds` directory
      and one of its selected directories; jobs without one are skipped. */
  lemma {:induction false} PurgedSpec(jobs: seq<Job>, days: int, j: string, b: string)
    ensures (j, b) in Purged(jobs, days) <==> exists i :: 0 <= i < |jobs| && PurgedBy(jobs, days, j, b, i)
    decreases |jobs|
  {
    if jobs != [] {
      var n := |jobs| - 1;
      var init := jobs[..n];
      var job := jobs[n];
      PurgedSpec(init, days, j, b);
      assert forall i | 0 <= i < n :: PurgedBy(init, days, j, b, i) == PurgedBy(jobs, days, j, b, i);
      assert Purged(jobs, days) == PurgeOne(Purged(init, days), job, days);
      if job.builds.Some? {
        TaggedMember(job.name, OldDirs(job.builds.value, days), j, b);
        if (j, b) in Tagged(job.name, OldDirs(job.builds.value, days)) {
          assert PurgedBy(jobs, days, j, b, n);
        }
      }
      if (j, b) in Purged(init, days) {
        var i :| 0 <= i < n && PurgedBy(init, days, j, b, i);
        assert PurgedBy(jobs, days, j, b, i);
      }
      if exists i :: 0 <= i < |jobs| && PurgedBy(jobs, days, j, b, i) {
        var i :| 0 <= i < |jobs| && PurgedBy(jobs, days, j, b, i);
        if i < n {
          assert PurgedBy(init, days, j, b, i);
        }
      }
    }
  }

  /** The default for the purge age and the two usage thresholds, and the
      environment variable that overrides each when set to something
      non-empty. */
  const DefaultPurgeDays := 45
  const DefaultThreshold := 90

  /** A setting taken from the environment when it is set and not empty,
      else the default. */
  function Setting(vars: map<string, string>, name: string, default: int): (r: Num)
    ensures name in vars && vars[name] != "" ==> r == Text(vars[name])
    ensures !(name in vars && vars[name] != "") ==> r == Num(default)
  {
    if name in vars && vars[name] != "" then Text(vars[name]) else Num(default)
  }

  /** A Jenkins host: an Ubuntu host with a plugin check and a build-log
      purge. */
  class JenkinsHost {
    const base: Host

    constructor(cmd: Command?)
      ensures base.kind == UbuntuHost
      ensures cmd != null ==> base.cmd == cmd
    {
      base := new Host(UbuntuHost, cmd);
    }

    /** `check_jenkins_plugins`, given the names in the plugin directory
        (None when the directory does not exist, which `os.listdir` raises
        on): whether every mandatory plugin is installed, with the found and
        missing lists it reports. */
    method CheckJenkinsPlugins(listing: Option<seq<string>>)
      returns (r: Result<bool, HostError>, found: seq<string>, missing: seq<string>)
      ensures listing.None? ==> r == Err(FileNotFound) && found == [] && missing == []
      ensures listing.Some? ==> r == Ok(RequiredAllFound(RequiredPlugins, InstalledPlugins(listing.value)))
      ensures listing.Some? ==> found == FoundPlugins(RequiredPlugins, InstalledPlugins(listing.value))
      ensures listing.Some? ==> missing == MissingPlugins(RequiredPlugins, InstalledPlugins(listing.value))
    {
      if listing.None? {
        return Err(FileNotFound), [], [];
      }
      var installed := ListPlugins(listing.value);
      var ok;
      ok, found, missing := CheckPlugins(RequiredPlugins, installed);
      r := Ok(ok);
    }

    /** The loop over the wanted plugins: each is found or missing, and a
        missing mandatory plugin clears `ok`. */
    static method CheckPlugins(plugins: seq<(string, int)>, installed: seq<string>)
      returns (ok: bool, found: seq<string>, missing: seq<string>)
      ensures ok == RequiredAllFound(plugins, installed)
      ensures found == FoundPlugins(plugins, installed)
      ensures missing == MissingPlugins(plugins, installed)
    {
      ok, found, missing := true, [], [];
      var i := 0;
      while i < |plugins|
        invariant 0 <= i <= |plugins|
        invariant ok == RequiredAllFound(plugins[..i], installed)
        invariant found == FoundPlugins(plugins[..i], installed)
        invariant missing == MissingPlugins(plugins[..i], installed)
      {
        var (plugin, required) := plugins[i];
        var pre := plugins[..i + 1];
        assert pre[..i] == plugins[..i];
        assert forall k | 0 <= k < i :: pre[k] == plugins[..i][k];
        var m := FindPlugin(installed, plugin);
        if m.Some? {
          found := found + [m.value];
        } else {
          if required != 0 {
            ok := false;
          }
          missing := missing + [plugin];
        }
        i := i + 1;
      }
      assert plugins[..i] == plugins;
    }

    /** The listing loop: keep the names that look like plugin files. */
    static method ListPlugins(listing: seq<string>) returns (installed: seq<string>)
      ensures installed == InstalledPlugins(listing)
    {
      installed := [];
      var i := 0;
      while i < |listing|
        invariant 0 <= i <= |listing|
        invariant installed == InstalledPlugins(listing[..i])
      {
        assert listing[..i + 1][..i] == listing[..i];
        if IsPluginFile(listing[i]) {
          installed := installed + [listing[i]];
        }
        i := i + 1;
      }
      assert listing[..i] == listing;
    }

    /** The inner loop: the first installed name that matches `plugin`. */
    static method FindPlugin(installed: seq<string>, plugin: string) returns (m: Option<string>)
      ensures m == FirstMatch(installed, plugin)
    {
      var i := 0;
      while i < |installed|
        invariant 0 <= i <= |installed|
        invariant FirstMatch(installed, plugin) == FirstMatch(installed[i..], plugin)
      {
        if PatternMatches(installed[i], plugin) {
          return Some(installed[i]);
        }
        assert installed[i..][1..] == installed[i + 1..];
        i := i + 1;
      }
      m := None;
    }

    /** `purge_jenkins_build_logs`: `jobs` is the listing of the jobs
        directory, or nothing when it does not exist. The age limit goes
        through `int()` the first time a build directory is compared, so
        an unusable limit raises only when some job has a numbered build
        whose age could be read; no job has had anything removed by then. */
    method PurgeJenkinsBuildLogs(days: Num, jobs: Option<seq<Job>>) returns (r: Result<bool, HostError>, removed: seq<(string, string)>)
      ensures jobs.None? ==> r == Err(ExitFailure) && removed == []
      ensures jobs.Some? && IntOf(days).Ok? ==> r == Ok(true) && removed == Purged(jobs.value, IntOf(days).value)
      ensures jobs.Some? && IntOf(days).Err? ==>
                removed == [] && r == if AnyCandidate(jobs.value) then Err(ValueError) else Ok(true)
    {
      removed := [];
      if jobs.None? {
        return Err(ExitFailure), [];
      }
      r, removed := PurgeJobs(jobs.value, IntOf(days));
    }

    /** The loop over the jobs, with `limit` the outcome of `int(days)`. */
    static method PurgeJobs(js: seq<Job>, limit: Result<int, HostError>) returns (r: Result<bool, HostError>, removed: seq<(string, string)>)
      ensures limit.Ok? ==> r == Ok(true) && removed == Purged(js, limit.value)
      ensures limit.Err? ==> removed == [] && r == if AnyCandidate(js) then Err(limit.error) else Ok(true)
    {
      removed := [];
      var i := 0;
      while i < |js|
        invariant 0 <= i <= |js|
        invariant limit.Ok? ==> removed == Purged(js[..i], limit.value)
        invariant limit.Err? ==> removed == [] && !AnyCandidate(js[..i])
      {
        if limit.Ok? {
          PurgedNext(js, i, limit.value);
        }
        AnyCandidateNext(js, i);
        var t := PurgeJob(js[i], limit);
        if t.Err? {
          assert AnyCandidate(js) by {
            assert js[i].builds.Some? && HasCandidate(js[i].builds.value);
          }
          return Err(t.error), [];
        }
        removed := removed + t.value;
        i := i + 1;
      }
      assert js[..i] == js;
      r := Ok(true);
    }

    /** One job: its selected build directories, when it has a `builds`
        directory. */
    static method PurgeJob(job: Job, limit: Result<int, HostError>) returns (r: Result<seq<(string, string)>, HostError>)
      ensures limit.Ok? ==> r.Ok? && PurgeOne([], job, limit.value) == r.value
      ensures limit.Err? ==> r == if job.builds.Some? && HasCandidate(job.builds.value) then Err(limit.error) else Ok([])
    {
      if job.builds.None? {
        return Ok([]);
      }
      var oldDirs := SelectOldDirs(job.builds.value, limit);
      if oldDirs.Err? {
        return Err(oldDirs.error);
      }
      r := Ok(Tagged(job.name, oldDirs.value));
    }

    /** The loop over one job's build directories: numbered builds whose
        `stat` succeeds are compared with `int(days)`, whose outcome is
        `limit`; a failed conversion raises at the first such build. */
    static method SelectOldDirs(dirs: seq<BuildDir>, limit: Result<int, HostError>) returns (r: Result<seq<string>, HostError>)
      ensures limit.Ok? ==> r == Ok(OldDirs(dirs, limit.value))
      ensures limit.Err? ==> r == if HasCandidate(dirs) then Err(limit.error) else Ok([])
    {
      var oldDirs := [];
      var i := 0;
      while i < |dirs|
        invariant 0 <= i <= |dirs|
        invariant limit.Ok? ==> oldDirs == OldDirs(dirs[..i], limit.value)
        invariant limit.Err? ==> oldDirs == [] && !HasCandidate(dirs[..i])
      {
        assert dirs[..i + 1][..i] == dirs[..i];
        var d := dirs[i];
        if StartsWithDigit(d.name) && d.age.Some? {
          if limit.Err? {
            assert HasCandidate(dirs) by { assert Candidate(dirs[i]); }
            return Err(limit.error);
          }
          if d.age.value > limit.value {
            oldDirs := oldDirs + [d.name];
          }
        }
        if limit.Err? {
          var pre := dirs[..i + 1];
          assert forall k | 0 <= k < i :: pre[k] == dirs[..i][k];
          assert !HasCandidate(pre);
        }
        i := i + 1;
      }
      assert dirs[..i] == dirs;
      r := Ok(oldDirs);
    }
  }

  // ---------------------------------------------------------------------
  // The monitoring run
  // ---------------------------------------------------------------------

  /** Everything the run reads from outside: the property files, what
      `df -h` and `df -i` print, the plugin directory listing and the jobs
      directory. */
  datatype World = World(
    files: map<string, seq<string>>,
    diskspace: Proc,
    inodes: Proc,
    plugins: Option<seq<string>>,
    jobs: Option<seq<Job>>)

  const DiskspaceCheck := "check_diskspace"
  const InodesCheck := "check_inodes"
  const PluginsCheck := "check_jenkins_plugins"
  const PurgeCheck := "purge_jenkins_build_logs"

  /** The checks a run performs, in order: only the diskspace check in
      debug mode, all four otherwise. */
  function ChecksRun(debug: bool): (r: seq<string>)
    ensures DiskspaceCheck in r
    ensures debug <==> |r| == 1
  {
    if debug then [DiskspaceCheck] else [DiskspaceCheck, InodesCheck, PluginsCheck, PurgeCheck]
  }

  /** A check named `fct` was filed under exactly one of failed and passed. */
  predicate Filed(f0: seq<string>, p0: seq<string>, f1: seq<string>, p1: seq<string>, fct: string)
  {
    (f1 == f0 + [fct] && p1 == p0) || (f1 == f0 && p1 == p0 + [fct])
  }

  /** Filing one check adds its name once to the two lists taken together. */
  lemma FiledCounts(f0: seq<string>, p0: seq<string>, f1: seq<string>, p1: seq<string>, fct: string)
    requires Filed(f0, p0, f1, p1, fct)
    ensures multiset(f1) + multiset(p1) == multiset(f0) + multiset(p0) + multiset([fct])
  {
  }

  /** Filing the plugins and purge checks one after the other adds the two
      names once each. */
  lemma FiledTwo(f0: seq<string>, p0: seq<string>, f1: seq<string>, p1: seq<string>,
                 f2: seq<string>, p2: seq<string>)
    requires Filed(f0, p0, f1, p1, PluginsCheck) && Filed(f1, p1, f2, p2, PurgeCheck)
    ensures multiset(f2) + multiset(p2) == multiset(f0) + multiset(p0) + multiset([PluginsCheck, PurgeCheck])
  {
    FiledCounts(f0, p0, f1, p1, PluginsCheck);
    FiledCounts(f1, p1, f2, p2, PurgeCheck);
    assert multiset([PluginsCheck, PurgeCheck]) == multiset([PluginsCheck]) + multiset([PurgeCheck]);
  }

  /** Filing the inodes check and then the last two adds the three names
      once each. */
  lemma FiledCons(f0: seq<string>, p0: seq<string>, f1: seq<string>, p1: seq<string>,
                  f2: seq<string>, p2: seq<string>)
    requires Filed(f0, p0, f1, p1, InodesCheck)
    requires multiset(f2) + multiset(p2) == multiset(f1) + multiset(p1) + multiset([PluginsCheck, PurgeCheck])
    ensures multiset(f2) + multiset(p2) == multiset(f0) + multiset(p0) + multiset([InodesCheck, PluginsCheck, PurgeCheck])
  {
    FiledCounts(f0, p0, f1, p1, InodesCheck);
    assert [InodesCheck, PluginsCheck, PurgeCheck] == [InodesCheck] + [PluginsCheck, PurgeCheck];
  }

  /** The diskspace check, then the other three outside debug mode, add the
      names of the checks run once each. */
  lemma RunCounts(f0: seq<string>, p0: seq<string>, f1: seq<string>, p1: seq<string>,
                  f2: seq<string>, p2: seq<string>, debug: bool)
    requires Filed(f0, p0, f1, p1, DiskspaceCheck)
    requires debug ==> f2 == f1 && p2 == p1
    requires !debug ==> multiset(f2) + multiset(p2) ==
                        multiset(f1) + multiset(p1) + multiset([InodesCheck, PluginsCheck, PurgeCheck])
    ensures multiset(f2) + multiset(p2) == multiset(f0) + multiset(p0) + multiset(ChecksRun(debug))
  {
    FiledCounts(f0, p0, f1, p1, DiskspaceCheck);
    if !debug {
      assert ChecksRun(debug) == [DiskspaceCheck] + [InodesCheck, PluginsCheck, PurgeCheck];
    }
  }

  /** What a run files: each check performed, in order, with its verdict,
      and the exception that ended the run early, if any. */
  datatype RunLog = RunLog(verdicts: seq<(string, bool)>, error: Option<HostError>)

  /** The names of the checks whose verdict is a failure, in order. */
  function FailedOf(vs: seq<(string, bool)>): (r: seq<string>)
    ensures |r| <= |vs|
  {
    if vs == [] then [] else (if vs[0].1 then [] else [vs[0].0]) + FailedOf(vs[1..])
  }

  /** The names of the checks whose verdict is a pass, in order. */
  function PassedOf(vs: seq<(string, bool)>): (r: seq<string>)
    ensures |r| <= |vs|
  {
    if vs == [] then [] else (if vs[0].1 then [vs[0].0] else []) + PassedOf(vs[1..])
  }

  /** Filing two runs of checks one after the other fails the failures of
      both, in order. */
  lemma {:induction false} FailedAppend(a: seq<(string, bool)>, b: seq<(string, bool)>)
    ensures FailedOf(a + b) == FailedOf(a) + FailedOf(b)
  {
    if a == [] {
      assert a + b == b;
    } else {
      assert (a + b)[1..] == a[1..] + b;
      FailedAppend(a[1..], b);
    }
  }

  /** Filing two runs of checks one after the other passes the passes of
      both, in order. */
  lemma {:induction false} PassedAppend(a: seq<(string, bool)>, b: seq<(string, bool)>)
    ensures PassedOf(a + b) == PassedOf(a) + PassedOf(b)
  {
    if a == [] {
      assert a + b == b;
    } else {
      assert (a + b)[1..] == a[1..] + b;
      PassedAppend(a[1..], b);
    }
  }

  /** Nothing is filed as failed exactly when every verdict is a pass, and
      nothing as passed exactly when every verdict is a failure. */
  lemma {:induction false} FiledNone(vs: seq<(string, bool)>)
    ensures FailedOf(vs) == [] <==> forall i | 0 <= i < |vs| :: vs[i].1
    ensures PassedOf(vs) == [] <==> forall i | 0 <= i < |vs| :: !vs[i].1
  {
    if vs != [] {
      FiledNone(vs[1..]);
      assert forall i | 1 <= i < |vs| :: vs[i] == vs[1..][i - 1];
    }
  }

  /** Every check is filed under exactly one of the two lists. */
  lemma {:induction false} FiledSplit(vs: seq<(string, bool)>)
    ensures |FailedOf(vs)| + |PassedOf(vs)| == |vs|
  {
    if vs != [] {
      FiledSplit(vs[1..]);
    }
  }

  /** The lists `f1` and `p1` are `f0` and `p0` with the verdicts `vs`
      filed in order. */
  predicate FiledRun(f0: seq<string>, p0: seq<string>, f1: seq<string>, p1: seq<string>, vs: seq<(string, bool)>)
  {
    f1 == f0 + FailedOf(vs) && p1 == p0 + PassedOf(vs)
  }

  /** After a run is filed, no check has failed exactly when none had before
      and every verdict of the run is a pass: the summary's exit status is 0
      in that case only. */
  lemma RunStatus(f0: seq<string>, p0: seq<string>, f1: seq<string>, p1: seq<string>, vs: seq<(string, bool)>)
    requires FiledRun(f0, p0, f1, p1, vs)
    ensures f1 == [] <==> f0 == [] && forall i | 0 <= i < |vs| :: vs[i].1
  {
    FiledNone(vs);
  }

  /** Filing one more check by its verdict extends the run by that verdict. */
  lemma FiledRunNext(f0: seq<string>, p0: seq<string>, f1: seq<string>, p1: seq<string>, vs: seq<(string, bool)>,
                     f2: seq<string>, p2: seq<string>, fct: string, ok: bool)
    requires FiledRun(f0, p0, f1, p1, vs)
    requires f2 == f1 + (if ok then [] else [fct]) && p2 == p1 + (if ok then [fct] else [])
    ensures FiledRun(f0, p0, f2, p2, vs + [(fct, ok)])
  {
    FailedAppend(vs, [(fct, ok)]);
    PassedAppend(vs, [(fct, ok)]);
    assert [(fct, ok)][1..] == [];
    AppendAssoc(f0, FailedOf(vs), FailedOf([(fct, ok)]));
    AppendAssoc(p0, PassedOf(vs), PassedOf([(fct, ok)]));
  }

  /** Two runs filed one after the other file their concatenation. */
  lemma FiledRunJoin(f0: seq<string>, p0: seq<string>, f1: seq<string>, p1: seq<string>, a: seq<(string, bool)>,
                     f2: seq<string>, p2: seq<string>, b: seq<(string, bool)>)
    requires FiledRun(f0, p0, f1, p1, a) && FiledRun(f1, p1, f2, p2, b)
    ensures FiledRun(f0, p0, f2, p2, a + b)
  {
    FailedAppend(a, b);
    PassedAppend(a, b);
    AppendAssoc(f0, FailedOf(a), FailedOf(b));
    AppendAssoc(p0, PassedOf(a), PassedOf(b));
  }

  /** Filing one check by its verdict and then a run files the run with
      that verdict in front. */
  lemma FiledRunCons(f0: seq<string>, p0: seq<string>, f1: seq<string>, p1: seq<string>, fct: string, ok: bool,
                     f2: seq<string>, p2: seq<string>, rest: seq<(string, bool)>)
    requires f1 == f0 + (if ok then [] else [fct]) && p1 == p0 + (if ok then [fct] else [])
    requires FiledRun(f1, p1, f2, p2, rest)
    ensures FiledRun(f0, p0, f2, p2, [(fct, ok)] + rest)
  {
    assert ([(fct, ok)] + rest)[1..] == rest;
    AppendAssoc(f0, if ok then [] else [fct], FailedOf(rest));
    AppendAssoc(p0, if ok then [fct] else [], PassedOf(rest));
  }

  /** Filing nothing is the empty run. */
  lemma FiledRunNone(f0: seq<string>, p0: seq<string>)
    ensures FiledRun(f0, p0, f0, p0, [])
  {
    assert f0 + [] == f0 && p0 + [] == p0;
  }

  /** Filing one check by its verdict is a run of that one verdict. */
  lemma FiledRunOne(f0: seq<string>, p0: seq<string>, f1: seq<string>, p1: seq<string>, fct: string, ok: bool)
    requires f1 == f0 + (if ok then [] else [fct]) && p1 == p0 + (if ok then [fct] else [])
    ensures FiledRun(f0, p0, f1, p1, [(fct, ok)])
  {
    assert [(fct, ok)][1..] == [];
  }

  lemma AppendAssoc(x: seq<string>, y: seq<string>, z: seq<string>)
    ensures (x + y) + z == x + (y + z)
  {
  }

  /** What the run reads from the host: the two `df` verdicts and the purge
      age setting. */
  datatype Probes = Probes(disk: Result<bool, HostError>, inodes: Result<bool, HostError>, days: Num)

  /** The probes of a run with the thresholds and purge age taken from the
      environment. */
  function ProbesOf(kind: OsKind, vars: map<string, string>, w: World): (p: Probes)
    ensures p.disk == DfCheck(kind, Setting(vars, "DISKSPACE_THRESHOLD", DefaultThreshold), w.diskspace)
    ensures p.inodes == DfCheck(kind, Setting(vars, "INODE_THRESHOLD", DefaultThreshold), w.inodes)
    ensures p.days == Setting(vars, "JENKINS_BUILD_LOG_PURGE_DAYS", DefaultPurgeDays)
  {
    Probes(DfCheck(kind, Setting(vars, "DISKSPACE_THRESHOLD", DefaultThreshold), w.diskspace),
           DfCheck(kind, Setting(vars, "INODE_THRESHOLD", DefaultThreshold), w.inodes),
           Setting(vars, "JENKINS_BUILD_LOG_PURGE_DAYS", DefaultPurgeDays))
  }

  /** Every check of the run completes without an exception: the diskspace
      `df` probe succeeds and, outside debug mode, so does the inode probe,
      the plugin directory exists, and the job directory exists with a
      usable purge age or nothing to purge. */
  predicate ChecksPass(p: Probes, w: World, debug: bool)
  {
    p.disk.Ok? &&
    (!debug ==>
       p.inodes.Ok? && w.plugins.Some? && w.jobs.Some? &&
       (IntOf(p.days).Ok? || !AnyCandidate(w.jobs.value)))
  }

  /** The plugins and purge checks, the last two of a run outside debug
      mode. */
  function LastChecked(days: Num, w: World): (r: RunLog)
    ensures |r.verdicts| <= 2
    ensures forall i | 0 <= i < |r.verdicts| :: r.verdicts[i].0 == [PluginsCheck, PurgeCheck][i]
    ensures r.error.None? <==> |r.verdicts| == 2
  {
    if w.plugins.None? then RunLog([], Some(FileNotFound))
    else
      var vs := [(PluginsCheck, RequiredAllFound(RequiredPlugins, InstalledPlugins(w.plugins.value)))];
      if w.jobs.None? then RunLog(vs, Some(ExitFailure))
      else if IntOf(days).Err? && AnyCandidate(w.jobs.value) then RunLog(vs, Some(ValueError))
      else RunLog(vs + [(PurgeCheck, true)], None)
  }

  /** The inodes, plugins and purge checks of a run outside debug mode. */
  function OtherChecked(p: Probes, w: World): (r: RunLog)
    ensures |r.verdicts| <= 3
    ensures forall i | 0 <= i < |r.verdicts| :: r.verdicts[i].0 == [InodesCheck, PluginsCheck, PurgeCheck][i]
    ensures r.error.None? <==> |r.verdicts| == 3
  {
    if p.inodes.Err? then RunLog([], Some(p.inodes.error))
    else
      var l := LastChecked(p.days, w);
      RunLog([(InodesCheck, p.inodes.value)] + l.verdicts, l.error)
  }

  /** Outside debug mode, a run whose inode probe succeeds files the inodes
      verdict and then the last two checks. */
  lemma OtherCheckedCons(p: Probes, w: World)
    requires p.inodes.Ok?
    ensures OtherChecked(p, w).verdicts == [(InodesCheck, p.inodes.value)] + LastChecked(p.days, w).verdicts
    ensures OtherChecked(p, w).error == LastChecked(p.days, w).error
  {
  }

  /** A run whose diskspace probe succeeds files the diskspace verdict and
      then, outside debug mode, the other three checks. */
  lemma CheckedCons(p: Probes, w: World, debug: bool)
    requires p.disk.Ok?
    ensures Checked(p, w, debug).verdicts ==
              [(DiskspaceCheck, p.disk.value)] + (if debug then [] else OtherChecked(p, w).verdicts)
    ensures Checked(p, w, debug).error == if debug then None else OtherChecked(p, w).error
  {
  }

  /** A whole run after the properties are loaded. The checks filed are
      always the first ones of `ChecksRun(debug)`, and all of them exactly
      when no exception ends the run. */
  function Checked(p: Probes, w: World, debug: bool): (r: RunLog)
    ensures |r.verdicts| <= |ChecksRun(debug)|
    ensures forall i | 0 <= i < |r.verdicts| :: r.verdicts[i].0 == ChecksRun(debug)[i]
    ensures r.error.None? <==> |r.verdicts| == |ChecksRun(debug)|
  {
    if p.disk.Err? then RunLog([], Some(p.disk.error))
    else if debug then RunLog([(DiskspaceCheck, p.disk.value)], None)
    else
      var o := OtherChecked(p, w);
      RunLog([(DiskspaceCheck, p.disk.value)] + o.verdicts, o.error)
  }

  /** A run ends without an exception exactly when every check passes. */
  lemma CheckedPasses(p: Probes, w: World, debug: bool)
    ensures Checked(p, w, debug).error.None? <==> ChecksPass(p, w, debug)
  {
  }

  /** Each exception that ends a run early is the one its failing step
      raises: the `df` probe's error, `FileNotFoundError` for a missing
      plugin directory, a nonzero exit for a missing job directory, and
      `ValueError` for an unusable purge age with something to purge. */
  lemma CheckedErrors(p: Probes, w: World, debug: bool)
    ensures p.disk.Err? ==> Checked(p, w, debug).error == Some(p.disk.error)
    ensures !debug && p.disk.Ok? && p.inodes.Err? ==> Checked(p, w, debug).error == Some(p.inodes.error)
    ensures !debug && p.disk.Ok? && p.inodes.Ok? && w.plugins.None? ==> Checked(p, w, debug).error == Some(FileNotFound)
    ensures !debug && p.disk.Ok? && p.inodes.Ok? && w.plugins.Some? && w.jobs.None? ==>
              Checked(p, w, debug).error == Some(ExitFailure)
    ensures !debug && p.disk.Ok? && p.inodes.Ok? && w.plugins.Some? && w.jobs.Some? &&
            IntOf(p.days).Err? && AnyCandidate(w.jobs.value) ==>
              Checked(p, w, debug).error == Some(ValueError)
  {
  }

  class JenkinsMonitoring {
    /** The environment and the `--property_file` argument. */
    const utils: Utils
    const host: JenkinsHost
    /** `args.debug`. */
    const debug: bool
    var failedFcts: seq<string>
    var passedFcts: seq<string>

    constructor(env: Environ, propertyFileArg: Option<string>, debug: bool)
      ensures utils.env == env && utils.propertyFileArg == propertyFileArg
      ensures host.base.kind == UbuntuHost && this.debug == debug
      ensures failedFcts == [] && passedFcts == []
    {
      utils := new Utils(env, propertyFileArg);
      var cmd := new Command();
      host := new JenkinsHost(cmd);
      this.debug := debug;
      failedFcts, passedFcts := [], [];
    }

    /** File the check `fct` under failed or passed, never both. */
    method Record(fct: string, ok: bool)
      modifies this
      ensures failedFcts == old(failedFcts) + (if ok then [] else [fct])
      ensures passedFcts == old(passedFcts) + (if ok then [fct] else [])
      ensures Filed(old(failedFcts), old(passedFcts), failedFcts, passedFcts, fct)
    {
      if !ok {
        failedFcts := failedFcts + [fct];
      } else {
        passedFcts := passedFcts + [fct];
      }
    }

    /** `check_jenkins_plugins`, filed by its verdict; a missing plugin
        directory raises out of the run with nothing filed. */
    method CheckJenkinsPlugins(listing: Option<seq<string>>) returns (r: Result<(), HostError>)
      modifies this
      ensures listing.None? ==> r == Err(FileNotFound) && failedFcts == old(failedFcts) && passedFcts == old(passedFcts)
      ensures listing.Some? ==> r == Ok(())
      ensures listing.Some? ==>
                var ok := RequiredAllFound(RequiredPlugins, InstalledPlugins(listing.value));
                failedFcts == old(failedFcts) + (if ok then [] else [PluginsCheck]) &&
                passedFcts == old(passedFcts) + (if ok then [PluginsCheck] else [])
    {
      var ok, _, _ := host.CheckJenkinsPlugins(listing);
      if ok.Err? {
        return Err(ok.error);
      }
      Record(PluginsCheck, ok.value);
      r := Ok(());
    }

    /** `check_inodes`: threshold 90 unless `INODE_THRESHOLD` says otherwise. */
    method CheckInodes(p: Proc) returns (r: Result<(), HostError>)
      modifies this, host.base.cmd
      ensures var res := DfCheck(host.base.kind, Setting(utils.env.vars, "INODE_THRESHOLD", DefaultThreshold), p);
              (res.Err? ==> r == Err(res.error) && failedFcts == old(failedFcts) && passedFcts == old(passedFcts)) &&
              (res.Ok? ==>
                 r.Ok? &&
                 failedFcts == old(failedFcts) + (if res.value then [] else [InodesCheck]) &&
                 passedFcts == old(passedFcts) + (if res.value then [InodesCheck] else []))
    {
      var thr := Setting(utils.env.vars, "INODE_THRESHOLD", DefaultThreshold);
      var res := host.base.CheckInodes(thr, p);
      if res.Err? {
        return Err(res.error);
      }
      Record(InodesCheck, res.value);
      r := Ok(());
    }

    /** `check_diskspace`: threshold 90 unless `DISKSPACE_THRESHOLD` says
        otherwise. */
    method CheckDiskspace(p: Proc) returns (r: Result<(), HostError>)
      modifies this, host.base.cmd
      ensures var res := DfCheck(host.base.kind, Setting(utils.env.vars, "DISKSPACE_THRESHOLD", DefaultThreshold), p);
              (res.Err? ==> r == Err(res.error) && failedFcts == old(failedFcts) && passedFcts == old(passedFcts)) &&
              (res.Ok? ==>
                 r.Ok? &&
                 failedFcts == old(failedFcts) + (if res.value then [] else [DiskspaceCheck]) &&
                 passedFcts == old(passedFcts) + (if res.value then [DiskspaceCheck] else []))
    {
      var thr := Setting(utils.env.vars, "DISKSPACE_THRESHOLD", DefaultThreshold);
      var res := host.base.CheckDiskspace(thr, p);
      if res.Err? {
        return Err(res.error);
      }
      Record(DiskspaceCheck, res.value);
      r := Ok(());
    }

    /** `purge_jenkins_build_logs`: 45 days unless
        `JENKINS_BUILD_LOG_PURGE_DAYS` says otherwise. The host's purge
        always reports success when it returns. */
    method PurgeJenkinsBuildLogs(jobs: Option<seq<Job>>) returns (r: Result<seq<(string, string)>, HostError>)
      modifies this
      ensures r.Ok? ==> failedFcts == old(failedFcts) && passedFcts == old(passedFcts) + [PurgeCheck]
      ensures r.Err? ==> failedFcts == old(failedFcts) && passedFcts == old(passedFcts)
      ensures var days := Setting(utils.env.vars, "JENKINS_BUILD_LOG_PURGE_DAYS", DefaultPurgeDays);
              r.Ok? <==> jobs.Some? && (IntOf(days).Ok? || !AnyCandidate(jobs.value))
      ensures r.Err? ==> r.error == if jobs.None? then ExitFailure else ValueError
    {
      var days := Setting(utils.env.vars, "JENKINS_BUILD_LOG_PURGE_DAYS", DefaultPurgeDays);
      var res, removed := host.PurgeJenkinsBuildLogs(days, jobs);
      if res.Err? {
        return Err(res.error);
      }
      Record(PurgeCheck, res.value);
      r := Ok(removed);
    }

    /** `summary_report`: the exit status is 1 iff some check failed. */
    method SummaryReport() returns (status: int)
      ensures status == if failedFcts == [] then 0 else 1
      ensures status == 0 <==> failedFcts == []
    {
      status := if failedFcts != [] then 1 else 0;
    }

    /** `execute`: load the properties, run the diskspace check and, unless
        in debug mode, the other three, then report. An exception in any
        step ends the run before the summary. */
    method Execute(w: World) returns (r: Result<int, HostError>)
      modifies this, utils.env, host.base.cmd
      ensures r.Ok? ==> multiset(failedFcts) + multiset(passedFcts) ==
                          multiset(old(failedFcts)) + multiset(old(passedFcts)) + multiset(ChecksRun(debug))
      ensures r.Ok? ==> r.value == if failedFcts == [] then 0 else 1
      ensures r.Ok? && debug ==>
                var res := DfCheck(host.base.kind, Setting(utils.env.vars, "DISKSPACE_THRESHOLD", DefaultThreshold), w.diskspace);
                res.Ok? &&
                failedFcts == old(failedFcts) + (if res.value then [] else [DiskspaceCheck]) &&
                passedFcts == old(passedFcts) + (if res.value then [DiskspaceCheck] else [])
      ensures var (vars, loaded) := PropertiesLoaded(old(utils.env.vars), utils.propertyFileArg, w.files);
              utils.env.vars == vars &&
              (loaded.Err? ==> r == Err(loaded.error) && failedFcts == old(failedFcts) && passedFcts == old(passedFcts))
      ensures PropertiesLoaded(old(utils.env.vars), utils.propertyFileArg, w.files).1.Ok? ==>
                var run := Checked(ProbesOf(host.base.kind, utils.env.vars, w), w, debug);
                FiledRun(old(failedFcts), old(passedFcts), failedFcts, passedFcts, run.verdicts) &&
                r == if run.error.None? then Ok(if failedFcts == [] then 0 else 1) else Err(run.error.value)
      ensures r.Ok? <==> PropertiesLoaded(old(utils.env.vars), utils.propertyFileArg, w.files).1.Ok? &&
                         ChecksPass(ProbesOf(host.base.kind, utils.env.vars, w), w, debug)
    {
      var loaded := utils.LoadProperties(w.files);
      if loaded.Err? {
        return Err(loaded.error);
      }
      r := RunChecks(w);
      CheckedPasses(ProbesOf(host.base.kind, utils.env.vars, w), w, debug);
    }

    /** The part of `execute` after the properties are loaded. */
    method RunChecks(w: World) returns (r: Result<int, HostError>)
      modifies this, host.base.cmd
      ensures r.Ok? ==> multiset(failedFcts) + multiset(passedFcts) ==
                          multiset(old(failedFcts)) + multiset(old(passedFcts)) + multiset(ChecksRun(debug))
      ensures r.Ok? ==> r.value == if failedFcts == [] then 0 else 1
      ensures r.Ok? && debug ==>
                var res := DfCheck(host.base.kind, Setting(utils.env.vars, "DISKSPACE_THRESHOLD", DefaultThreshold), w.diskspace);
                res.Ok? &&
                failedFcts == old(failedFcts) + (if res.value then [] else [DiskspaceCheck]) &&
                passedFcts == old(passedFcts) + (if res.value then [DiskspaceCheck] else [])
      ensures var run := Checked(ProbesOf(host.base.kind, utils.env.vars, w), w, debug);
              FiledRun(old(failedFcts), old(passedFcts), failedFcts, passedFcts, run.verdicts) &&
              r == if run.error.None? then Ok(if failedFcts == [] then 0 else 1) else Err(run.error.value)
    {
      ghost var pr := ProbesOf(host.base.kind, utils.env.vars, w);
      ghost var f0, p0 := failedFcts, passedFcts;
      var d := CheckDiskspace(w.diskspace);
      if d.Err? {
        FiledRunNone(f0, p0);
        return Err(d.error);
      }
      assert Filed(f0, p0, failedFcts, passedFcts, DiskspaceCheck);
      ghost var f1, p1 := failedFcts, passedFcts;
      CheckedCons(pr, w, debug);
      if !debug {
        var more := RunOtherChecks(w);
        FiledRunCons(f0, p0, f1, p1, DiskspaceCheck, pr.disk.value, failedFcts, passedFcts, OtherChecked(pr, w).verdicts);
        if more.Err? {
          return Err(more.error);
        }
      } else {
        FiledRunOne(f0, p0, f1, p1, DiskspaceCheck, pr.disk.value);
      }
      RunCounts(f0, p0, f1, p1, failedFcts, passedFcts, debug);
      var status := SummaryReport();
      r := Ok(status);
    }

    /** The three checks that only run outside debug mode, in order. */
    method RunOtherChecks(w: World) returns (r: Result<(), HostError>)
      modifies this, host.base.cmd
      ensures r.Ok? ==> multiset(failedFcts) + multiset(passedFcts) ==
                          multiset(old(failedFcts)) + multiset(old(passedFcts)) + multiset([InodesCheck, PluginsCheck, PurgeCheck])
      ensures var run := OtherChecked(ProbesOf(host.base.kind, utils.env.vars, w), w);
              FiledRun(old(failedFcts), old(passedFcts), failedFcts, passedFcts, run.verdicts) &&
              r == if run.error.None? then Ok(()) else Err(run.error.value)
    {
      ghost var pr := ProbesOf(host.base.kind, utils.env.vars, w);
      ghost var f0, p0 := failedFcts, passedFcts;
      var n := CheckInodes(w.inodes);
      if n.Err? {
        FiledRunNone(f0, p0);
        return Err(n.error);
      }
      ghost var f1, p1 := failedFcts, passedFcts;
      r := RunLastChecks(w);
      FiledRunCons(f0, p0, f1, p1, InodesCheck, pr.inodes.value, failedFcts, passedFcts, LastChecked(pr.days, w).verdicts);
      OtherCheckedCons(pr, w);
      if r.Ok? {
        FiledCons(f0, p0, f1, p1, failedFcts, passedFcts);
      }
    }

    /** The plugins check, then the purge, in order. */
    method RunLastChecks(w: World) returns (r: Result<(), HostError>)
      modifies this
      ensures r.Ok? ==> multiset(failedFcts) + multiset(passedFcts) ==
                          multiset(old(failedFcts)) + multiset(old(passedFcts)) + multiset([PluginsCheck, PurgeCheck])
      ensures var run := LastChecked(Setting(utils.env.vars, "JENKINS_BUILD_LOG_PURGE_DAYS", DefaultPurgeDays), w);
              FiledRun(old(failedFcts), old(passedFcts), failedFcts, passedFcts, run.verdicts) &&
              r == if run.error.None? then Ok(()) else Err(run.error.value)
    {
      ghost var f0, p0 := failedFcts, passedFcts;
      var q := CheckJenkinsPlugins(w.plugins);
      if q.Err? {
        FiledRunNone(f0, p0);
        return Err(q.error);
      }
      assert Filed(f0, p0, failedFcts, passedFcts, PluginsCheck);
      ghost var ok := RequiredAllFound(RequiredPlugins, InstalledPlugins(w.plugins.value));
      FiledRunOne(f0, p0, failedFcts, passedFcts, PluginsCheck, ok);
      ghost var v1 := [(PluginsCheck, ok)];
      ghost var f1, p1 := failedFcts, passedFcts;
      var g := PurgeJenkinsBuildLogs(w.jobs);
      if g.Err? {
        return Err(g.error);
      }
      assert Filed(f1, p1, failedFcts, passedFcts, PurgeCheck);
      FiledRunNext(f0, p0, f1, p1, v1, failedFcts, passedFcts, PurgeCheck, true);
      FiledTwo(f0, p0, f1, p1, failedFcts, passedFcts);
      r := Ok(());
    }
  }
}
