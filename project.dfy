/**
 * The project life cycle of the Ruby build tooling (ruby.tools/lib/project.rb):
 * reading the build tokens when a project is set up, choosing the next
 * release version from the central release history, recording it, and
 * naming the tag a finished task writes.
 */
module ProjectTasks {
  import opened Common
  import opened RubyUtils

  // ---------------------------------------------------------------------
  // Ruby conversions
  // ---------------------------------------------------------------------

  /** `"#{v}"` for a token: a string as is, an integer in decimal, nil as
      nothing. A list or hash interpolates here as the empty text, where Ruby
      would give its `inspect` form. */
  function ToS(v: Value): string
  {
    match v
    case Str(s) => s
    case Int(i) => IntToString(i)
    case _ => ""
  }

  /** The length of the run of digits at the start of `s`. */
  function DigitRun(s: string): (n: nat)
    ensures n <= |s| && AllDigits(s[..n]) && (n == |s| || !IsDigit(s[n]))
  {
    if s == [] || !IsDigit(s[0]) then 0
    else
      var n := 1 + DigitRun(s[1..]);
      assert s[..n] == [s[0]] + s[1..][..n - 1];
      n
  }

  /** Ruby's `String#to_i`: leading white space, an optional sign and the
      longest run of digits; 0 when there are none. An underscore between
      two digits, which Ruby skips, ends the run here. */
  function RubyToI(s: string): int
  {
    var t := LStrip(s);
    var signed := |t| > 0 && (t[0] == '-' || t[0] == '+');
    var body := if signed then t[1..] else t;
    var n := DigitsValue(body[..DigitRun(body)]) as int;
    if signed && t[0] == '-' then -n else n
  }

  /** A text made of digits is one run of digits. */
  lemma {:induction false} DigitRunAll(s: string)
    requires AllDigits(s)
    ensures DigitRun(s) == |s|
  {
    if s != [] {
      DigitRunAll(s[1..]);
    }
  }

  /** `to_i` reads back every integer written in decimal. */
  lemma ToIOfDecimal(i: int)
    ensures RubyToI(IntToString(i)) == i
  {
    var n: nat := if i < 0 then -i else i;
    var digits := NatToString(n);
    var s := IntToString(i);
    assert RunEnd(s, 0) == 0;
    assert LStrip(s) == s;
    DigitRunAll(digits);
    if i < 0 {
      assert s[1..] == digits;
    } else {
      assert s[0] != '-' && s[0] != '+';
    }
    assert digits[..|digits|] == digits;
  }

  /** Ruby `chomp`: one trailing line ending removed. */
  function Chomp(s: string): (r: string)
    ensures StartsWith(s, r)
    ensures var tail := s[|r|..]; tail == "" || tail == "\n" || tail == "\r" || tail == "\r\n"
  {
    if |s| >= 2 && s[|s| - 2..] == "\r\n" then s[..|s| - 2]
    else if |s| >= 1 && (s[|s| - 1] == '\n' || s[|s| - 1] == '\r') then s[..|s| - 1]
    else s
  }

  /** Some line is one of the words. */
  predicate AnyLineIn(lines: seq<string>, words: seq<string>)
  {
    lines != [] && (lines[0] in words || AnyLineIn(lines[1..], words))
  }

  /** `task =~ /^(w1|w2|...)$/`: `^` and `$` match at line boundaries, so the
      pattern matches when some line of the task is one of the words. A value
      that is not a string never matches. */
  predicate MatchesLine(task: Value, words: seq<string>)
  {
    task.Str? && AnyLineIn(SplitChar(task.s, '\n'), words)
  }

  /** On a one-line task, matching the words as whole lines is equality with
      one of them. */
  lemma MatchesOneLine(text: string, words: seq<string>)
    requires '\n' !in text
    ensures MatchesLine(Str(text), words) <==> text in words
  {
    assert SplitChar(text, '\n') == [text];
    assert [text][1..] == [];
    assert !AnyLineIn([], words);
    assert AnyLineIn([text], words) == (text in words);
  }

  // ---------------------------------------------------------------------
  // get_git_branch
  // ---------------------------------------------------------------------

  const BranchPrefix: string := "On branch "

  /** The branch named by the first line of `lines` that reads `On branch <name>`. */
  function FirstBranch(lines: seq<string>): (r: Option<string>)
    ensures r.Some? ==> exists i | 0 <= i < |lines| :: lines[i] == BranchPrefix + r.value && r.value != []
    ensures r.None? ==> forall i | 0 <= i < |lines| :: !(StartsWith(lines[i], BranchPrefix) && |lines[i]| > |BranchPrefix|)
  {
    if lines == [] then None
    else if StartsWith(lines[0], BranchPrefix) && |lines[0]| > |BranchPrefix| then
      assert lines[0] == BranchPrefix + lines[0][|BranchPrefix|..];
      Some(lines[0][|BranchPrefix|..])
    else
      var r := FirstBranch(lines[1..]);
      assert forall i | 1 <= i < |lines| :: lines[i] == lines[1..][i - 1];
      r
  }

  /** `get_git_branch` on the output of `git status | head -n 1`. */
  function GitBranch(out: string): (r: Result<string, RubyError>)
    ensures r.Ok? ==> (r.value != [] &&
                        exists i | 0 <= i < |SplitChar(out, '\n')| :: SplitChar(out, '\n')[i] == BranchPrefix + r.value)
    ensures r.Err? ==> (r == Err(UnrecognizedOutput) &&
                        forall i | 0 <= i < |SplitChar(out, '\n')| ::
                          !(StartsWith(SplitChar(out, '\n')[i], BranchPrefix) && |SplitChar(out, '\n')[i]| > |BranchPrefix|))
  {
    match FirstBranch(SplitChar(out, '\n'))
    case None => Err(UnrecognizedOutput)
    case Some(b) => Ok(b)
  }

  /** The branch `git status` reports is the branch read back. */
  lemma GitBranchRoundTrip(branch: string)
    requires branch != [] && '\n' !in branch
    ensures GitBranch(BranchPrefix + branch + "\n") == Ok(branch)
  {
    var line := BranchPrefix + branch;
    assert '\n' !in BranchPrefix;
    assert '\n' !in line;
    SplitJoin([line, ""], '\n');
    assert Join([line, ""], ['\n']) == BranchPrefix + branch + "\n";
    assert line[..|BranchPrefix|] == BranchPrefix;
    assert line[|BranchPrefix|..] == branch;
  }

  // ---------------------------------------------------------------------
  // Release versions
  // ---------------------------------------------------------------------

  /** The last dot-separated field of a version, `nil` (read as 0) when none. */
  function LastField(version: string): string
  {
    var fields := RubySplit(version, '.');
    if fields == [] then "" else fields[|fields| - 1]
  }

  /** The number the next release version gets: 0 without history, otherwise
      one more than the last field of the last recorded version. */
  function NextNumber(history: OMap<Value>): int
  {
    if history.keys == [] then 0
    else RubyToI(LastField(history.keys[|history.keys| - 1])) + 1
  }

  /** `"#{release}.#{n}"` for the next number. */
  function NextVersion(release: string, history: OMap<Value>): string
  {
    release + "." + IntToString(NextNumber(history))
  }

  /** A version whose last field is a decimal number reads that number back. */
  lemma {:induction false} LastFieldOfVersion(stem: string, i: int)
    ensures RubyToI(LastField(stem + "." + IntToString(i))) == i
  {
    var num := IntToString(i);
    assert '.' !in num by {
      if i < 0 { assert num == "-" + NatToString(-i); }
    }
    var v := stem + "." + num;
    assert v == stem + ['.'] + num;
    SplitCharLast(stem, num, '.');
    var parts := SplitChar(v, '.');
    assert parts[|parts| - 1] == num;
    RubySplitKeepsAll(v, '.');
    assert LastField(v) == num;
    ToIOfDecimal(i);
  }

  /** Recording the next version, when it is new, moves the following one
      up by one. */
  lemma NextAfterRecord(release: string, history: OMap<Value>, rev: Value)
    requires WellFormed(history)
    requires NextVersion(release, history) !in history.vals
    ensures NextNumber(Put(history, NextVersion(release, history), rev)) == NextNumber(history) + 1
  {
    LastFieldOfVersion(release, NextNumber(history));
  }

  /** Recording a version the history already holds leaves the next version
      where it was, so the same version is produced again. */
  lemma NextAfterOverwrite(release: string, history: OMap<Value>, rev: Value)
    requires WellFormed(history)
    requires NextVersion(release, history) in history.vals
    ensures NextVersion(release, Put(history, NextVersion(release, history), rev)) == NextVersion(release, history)
  {
    var v := NextVersion(release, history);
    var recorded := Put(history, v, rev);
    SameKeysSameNumber(recorded, history);
  }

  /** The next number depends on the keys alone. */
  lemma SameKeysSameNumber(a: OMap<Value>, b: OMap<Value>)
    requires a.keys == b.keys
    ensures NextNumber(a) == NextNumber(b)
  {
  }

  /** Without history the version is `<release>.0`; a history whose last
      version ends in number n gives `<release>.<n+1>`. */
  lemma NextVersionSpec(release: string, history: OMap<Value>, stem: string, n: int)
    requires history.keys != [] ==> history.keys[|history.keys| - 1] == stem + "." + IntToString(n)
    ensures history.keys == [] ==> NextVersion(release, history) == release + ".0"
    ensures history.keys != [] ==> NextVersion(release, history) == release + "." + IntToString(n + 1)
  {
    if history.keys != [] {
      LastFieldOfVersion(stem, n);
    } else {
      assert IntToString(0) == "0";
    }
  }

  /** Ruby's `empty?` on a loaded YAML value; None when it has no such method. */
  function IsEmptyValue(v: Value): Option<bool>
  {
    match v
    case Hash(m) => Some(m.keys == [])
    case List(items) => Some(items == [])
    case Str(s) => Some(s == [])
    case _ => None
  }

  /** `get_next_release_version` on the release-history file, if there is one. */
  function NextFromFile(release: string, file: Option<Value>): (r: Result<string, RubyError>)
    ensures file.None? ==> r == Ok(release + ".0")
    ensures file.Some? && file.value.Hash? ==> r == Ok(NextVersion(release, file.value.entries))
  {
    match file
    case None => Ok(release + ".0")
    case Some(Hash(m)) =>
      if m.keys == [] then
        assert DigitChar(0) == '0';
        assert NatToString(0) == "0";
        assert NextVersion(release, m) == release + ".0";
        Ok(release + ".0")
      else Ok(NextVersion(release, m))
    case Some(v) =>
      match IsEmptyValue(v)
      case Some(true) => Ok(release + ".0")
      case _ => Err(NoSuchMethod)
  }

  /** The file at `path`, if it exists. */
  function FileAt(files: map<string, Value>, path: string): Option<Value>
  {
    if path in files then Some(files[path]) else None
  }

  /** A history file that is a hash has distinct keys. */
  predicate WellFormedFile(file: Option<Value>)
  {
    file.Some? && file.value.Hash? ==> WellFormed(file.value.entries)
  }

  /** The history `update_release_version` starts from. */
  function HistoryOf(file: Option<Value>): (h: OMap<Value>)
    ensures WellFormedFile(file) ==> WellFormed(h)
  {
    if file.Some? && file.value.Hash? then file.value.entries else EmptyMap()
  }

  /** A one-entry hash `{k => v}`. */
  function Single(k: string, v: Value): (m: OMap<Value>)
    ensures WellFormed(m)
  {
    OMap([k], map[k := v])
  }

  /** The configuration after `load_build_token(cfg, {k => v})`. */
  function SetToken(cfg: Value, k: string, v: Value): (r: Value)
    requires HasTokenHash(cfg)
    ensures HasTokenHash(r)
  {
    Hash(Put(cfg.entries, "build_tokens", Hash(Put(cfg.entries.vals["build_tokens"].entries, k, v))))
  }

  /** A token set by `load_build_token` reads back; every other token is kept. */
  lemma SetTokenSpec(cfg: Value, k: string, v: Value, t: string)
    requires HasTokenHash(cfg) && v != Nil
    ensures GetBuildToken(SetToken(cfg, k, v), t) == if t == k then Ok(v) else GetBuildToken(cfg, t)
  {
  }

  // ---------------------------------------------------------------------
  // Task tags
  // ---------------------------------------------------------------------

  /** The tag `<prefix><STAGE>-<PARTITION>` from the upper-cased environment
      fields; a missing stage is an error, a missing partition is empty. */
  function StageTag(prefix: string, fields: seq<string>): Result<string, RubyError>
  {
    if fields == [] then Err(NoSuchMethod)
    else Ok(prefix + fields[0] + "-" + (if |fields| >= 2 then fields[1] else ""))
  }

  /** The tag suffix from the environment: upper-cased and split at dashes. */
  function EnvTag(prefix: string, env: Option<Value>): Result<string, RubyError>
  {
    match env
    case None => Err(NilField)
    case Some(Str(e)) => StageTag(prefix, RubySplit(Upcase(e), '-'))
    case Some(_) => Err(NoSuchMethod)
  }

  /** The `{release_version, git_revision}` tag contents. */
  function ReleaseTagHash(cfg: Value): Result<Value, RubyError>
  {
    match GetBuildToken(cfg, "RELEASE_VERSION")
    case Err(e) => Err(e)
    case Ok(rv) =>
      match GetBuildToken(cfg, "GIT_REVISION")
      case Err(e) => Err(e)
      case Ok(gr) => Ok(Hash(OMap(["release_version", "git_revision"], map["release_version" := rv, "git_revision" := gr])))
  }

  /** The tag name and contents `update_task_tag` writes for a task; a task
      matching none of the keywords writes a nil tag. */
  function TaskTag(task: Value, env: Option<Value>, cfg: Value): (r: Result<(string, Value), RubyError>)
    ensures !task.Str? ==> r == Err(NoSuchMethod)
    ensures (task.Str? && !Contains(task.s, "build") && !Contains(task.s, "assemble") &&
             !Contains(task.s, "deploy") && !Contains(task.s, "test")) ==> r == Ok(("", Nil))
    ensures r.Ok? ==> (r.value.0 == "" <==> r.value.1 == Nil)
    ensures task.Str? && Contains(task.s, "build") ==>
              (r.Ok? <==> GetBuildToken(cfg, "MAVEN_ARTIFACT_ID").Ok? && GetBuildToken(cfg, "PACKAGE_VERSION").Ok?)
    ensures task.Str? && !Contains(task.s, "build") && r.Ok? && r.value.0 != "" ==> ReleaseTagHash(cfg) == Ok(r.value.1)
  {
    if !task.Str? then Err(NoSuchMethod)
    else if Contains(task.s, "build") then
      match GetBuildToken(cfg, "MAVEN_ARTIFACT_ID")
      case Err(e) => Err(e)
      case Ok(a) =>
        match GetBuildToken(cfg, "PACKAGE_VERSION")
        case Err(e) => Err(e)
        case Ok(v) =>
          Ok(("LAST_BUILT", Hash(Single("packages", List([Hash(OMap(["name", "version"], map["name" := a, "version" := v]))])))))
    else if Contains(task.s, "assemble") then
      match ReleaseTagHash(cfg)
      case Err(e) => Err(e)
      case Ok(h) => Ok(("LAST_ASSEMBLED", h))
    else if Contains(task.s, "deploy") || Contains(task.s, "test") then
      var prefix := if Contains(task.s, "deploy") then "LAST_DEPLOYED_" else "LAST_TESTED_";
      match EnvTag(prefix, env)
      case Err(e) => Err(e)
      case Ok(tag) =>
        match ReleaseTagHash(cfg)
        case Err(e) => Err(e)
        case Ok(h) => Ok((tag, h))
    else Ok(("", Nil))
  }

  /** Tag names are chosen by the first keyword the task contains, in the order
      build, assemble, deploy, test; a build task always gets `LAST_BUILT`. */
  lemma TaskTagNames(task: string, env: Option<Value>, cfg: Value)
    ensures TaskTag(Str(task), env, cfg).Ok? && Contains(task, "build")
      ==> TaskTag(Str(task), env, cfg).value.0 == "LAST_BUILT"
    ensures TaskTag(Str(task), env, cfg).Ok? && !Contains(task, "build") && Contains(task, "assemble")
      ==> TaskTag(Str(task), env, cfg).value.0 == "LAST_ASSEMBLED"
    ensures TaskTag(Str(task), env, cfg).Ok? && !Contains(task, "build") && !Contains(task, "assemble") &&
      Contains(task, "deploy")
      ==> StartsWith(TaskTag(Str(task), env, cfg).value.0, "LAST_DEPLOYED_")
    ensures TaskTag(Str(task), env, cfg).Ok? && !Contains(task, "build") && !Contains(task, "assemble") &&
      !Contains(task, "deploy") && Contains(task, "test")
      ==> StartsWith(TaskTag(Str(task), env, cfg).value.0, "LAST_TESTED_")
    ensures !Contains(task, "build") && !Contains(task, "assemble") &&
      (Contains(task, "deploy") || Contains(task, "test")) && env.None?
      ==> TaskTag(Str(task), env, cfg) == Err(NilField)
  {
    var t := TaskTag(Str(task), env, cfg);
    if !Contains(task, "build") && !Contains(task, "assemble") && (Contains(task, "deploy") || Contains(task, "test")) {
      var prefix := if Contains(task, "deploy") then "LAST_DEPLOYED_" else "LAST_TESTED_";
      EnvTagPrefix(prefix, env);
      assert t.Ok? ==> t.value.0 == EnvTag(prefix, env).value;
    }
  }

  /** An environment tag starts with its prefix. */
  lemma EnvTagPrefix(prefix: string, env: Option<Value>)
    ensures EnvTag(prefix, env).Ok? ==> StartsWith(EnvTag(prefix, env).value, prefix)
  {
    if EnvTag(prefix, env).Ok? {
      var fields := RubySplit(Upcase(env.value.s), '-');
      var tag := prefix + fields[0] + "-" + (if |fields| >= 2 then fields[1] else "");
      assert tag[..|prefix|] == prefix;
    }
  }

  /** Upper-casing keeps a dash-free text dash-free. */
  lemma UpcaseNoDash(s: string)
    requires '-' !in s
    ensures '-' !in Upcase(s)
  {
    forall i | 0 <= i < |s|
      ensures Upcase(s)[i] != '-'
    {
      assert s[i] != '-';
    }
  }

  /** Upper-casing `a-b` upper-cases both sides and keeps the dash. */
  lemma UpcaseDashed(a: string, b: string)
    ensures Upcase(a + "-" + b) == Upcase(a) + "-" + Upcase(b)
  {
    var l := a + "-" + b;
    var ul, ua, ub := Upcase(l), Upcase(a), Upcase(b);
    var r := ua + "-" + ub;
    forall i | 0 <= i < |l|
      ensures ul[i] == r[i]
    {
      assert ul[i] == UpChar(l[i]);
      if i < |a| {
        assert l[i] == a[i] && r[i] == ua[i];
      } else if i == |a| {
        assert l[i] == '-' && r[i] == '-';
      } else {
        assert l[i] == b[i - |a| - 1] && r[i] == ub[i - |a| - 1];
      }
    }
    assert ul == r;
  }

  /** For an environment `<stage>-<partition>` the tag is the prefix followed
      by the stage and the partition in capitals. */
  lemma EnvTagShape(prefix: string, stage: string, partition: string)
    requires stage != [] && partition != [] && '-' !in stage && '-' !in partition
    ensures EnvTag(prefix, Some(Str(stage + "-" + partition))) == Ok(prefix + Upcase(stage) + "-" + Upcase(partition))
  {
    UpcasedFields(stage, partition);
    EnvTagOfFields(prefix, stage + "-" + partition, Upcase(stage), Upcase(partition));
  }

  lemma EnvTagOfFields(prefix: string, e: string, stage: string, partition: string)
    requires RubySplit(Upcase(e), '-') == [stage, partition]
    ensures EnvTag(prefix, Some(Str(e))) == Ok(prefix + stage + "-" + partition)
  {
  }

  /** The upper-cased fields of an environment `<stage>-<partition>`. */
  lemma UpcasedFields(stage: string, partition: string)
    requires stage != [] && partition != [] && '-' !in stage && '-' !in partition
    ensures RubySplit(Upcase(stage + "-" + partition), '-') == [Upcase(stage), Upcase(partition)]
  {
    var us, up := Upcase(stage), Upcase(partition);
    var u := Upcase(stage + "-" + partition);
    UpcaseDashed(stage, partition);
    assert u == us + "-" + up;
    UpcaseNoDash(stage);
    UpcaseNoDash(partition);
    DashedFields(us, up);
  }

  /** Ruby's split of `a-b`, both sides non-empty and dash-free, is `[a, b]`. */
  lemma DashedFields(a: string, b: string)
    requires a != [] && b != [] && '-' !in a && '-' !in b
    ensures RubySplit(a + "-" + b, '-') == [a, b]
  {
    var parts := [a, b];
    assert parts[1..] == [b];
    assert Join(parts, "-") == a + "-" + b;
    RubySplitJoin(parts);
  }

  // ---------------------------------------------------------------------
  // initialize and run
  // ---------------------------------------------------------------------

  const CentralPath: string := "/data/central/projects"

  /** What `initialize` reads from the configuration. */
  datatype Settings = Settings(domain: Value, project: Value, release: Value, task: Value,
                               env: Option<Value>, branch: Option<string>)
  {
    function Namespace(): string
    {
      ToS(project) + "-" + ToS(release)
    }

    function CentralDir(): string
    {
      CentralPath + "/" + ToS(domain) + "/" + Namespace()
    }
  }

  /** The environment token, read only for a `deploy` or `test` task. */
  function EnvFor(cfg: Value, task: Value): Result<Option<Value>, RubyError>
  {
    if !MatchesLine(task, ["deploy", "test"]) then Ok(None)
    else match GetBuildToken(cfg, "ENVIRONMENT")
      case Err(e) => Err(e)
      case Ok(v) => Ok(Some(v))
  }

  /** The git branch, read only for a build, dev build or assemble task. */
  function BranchFor(task: Value, gitStatus: string): Result<Option<string>, RubyError>
  {
    if !MatchesLine(task, ["build", "devbuild", "assemble"]) then Ok(None)
    else match GitBranch(gitStatus)
      case Err(e) => Err(e)
      case Ok(b) => Ok(Some(b))
  }

  /** The four tokens every project needs: domain, project, release and task. */
  function TokensOf(cfg: Value): Result<(Value, Value, Value, Value), RubyError>
  {
    match GetBuildToken(cfg, "DOMAIN")
    case Err(e) => Err(e)
    case Ok(domain) =>
      match GetBuildToken(cfg, "PROJECT")
      case Err(e) => Err(e)
      case Ok(project) =>
        match GetBuildToken(cfg, "RELEASE")
        case Err(e) => Err(e)
        case Ok(release) =>
          match GetBuildToken(cfg, "TASK")
          case Err(e) => Err(e)
          case Ok(task) => Ok((domain, project, release, task))
  }

  /** `initialize`: the four tokens are required, the environment is read for
      a `deploy` or `test` task and the git branch for a build, dev build or
      assemble task. */
  function Setup(cfg: Value, gitStatus: string): (r: Result<Settings, RubyError>)
    ensures (GetBuildToken(cfg, "DOMAIN").Err? || GetBuildToken(cfg, "PROJECT").Err? ||
             GetBuildToken(cfg, "RELEASE").Err? || GetBuildToken(cfg, "TASK").Err?) ==> r.Err?
    ensures r.Ok? ==> Ok(r.value.domain) == GetBuildToken(cfg, "DOMAIN") && Ok(r.value.project) == GetBuildToken(cfg, "PROJECT") &&
                      Ok(r.value.release) == GetBuildToken(cfg, "RELEASE") && Ok(r.value.task) == GetBuildToken(cfg, "TASK")
    ensures r.Ok? ==> (r.value.env.Some? <==> MatchesLine(r.value.task, ["deploy", "test"]))
    ensures r.Ok? && r.value.env.Some? ==> GetBuildToken(cfg, "ENVIRONMENT") == Ok(r.value.env.value)
    ensures r.Ok? ==> (r.value.branch.Some? <==> MatchesLine(r.value.task, ["build", "devbuild", "assemble"]))
    ensures r.Ok? && r.value.branch.Some? ==> GitBranch(gitStatus) == Ok(r.value.branch.value)
  {
    match TokensOf(cfg)
    case Err(e) => Err(e)
    case Ok((domain, project, release, task)) =>
      match EnvFor(cfg, task)
      case Err(e) => Err(e)
      case Ok(env) =>
        match BranchFor(task, gitStatus)
        case Err(e) => Err(e)
        case Ok(branch) => Ok(Settings(domain, project, release, task, env, branch))
  }

  /** The environment is read exactly when a one-line task is `deploy` or
      `test`; a task that merely contains one of them gets none. */
  lemma SetupEnv(cfg: Value, gitStatus: string)
    requires Setup(cfg, gitStatus).Ok?
    requires GetBuildToken(cfg, "TASK").value.Str? && '\n' !in GetBuildToken(cfg, "TASK").value.s
    ensures var s := Setup(cfg, gitStatus).value;
      s.env.Some? <==> s.task.s == "deploy" || s.task.s == "test"
    ensures var s := Setup(cfg, gitStatus).value;
      s.env.Some? ==> s.env.value == GetBuildToken(cfg, "ENVIRONMENT").value
  {
    var t := GetBuildToken(cfg, "TASK").value.s;
    MatchesOneLine(t, ["deploy", "test"]);
  }

  /** A deploy or test task that is not exactly `deploy` or `test` (such as
      `redeploy`) is set up without an environment, so writing its tag fails. */
  lemma DeployVariantFails(cfg: Value, gitStatus: string)
    requires Setup(cfg, gitStatus).Ok?
    requires var t := GetBuildToken(cfg, "TASK").value;
      t.Str? && '\n' !in t.s && t.s != "deploy" && t.s != "test" &&
      !Contains(t.s, "build") && !Contains(t.s, "assemble") && (Contains(t.s, "deploy") || Contains(t.s, "test"))
    ensures TaskTag(Setup(cfg, gitStatus).value.task, Setup(cfg, gitStatus).value.env, cfg) == Err(NilField)
  {
    SetupEnv(cfg, gitStatus);
    var s := Setup(cfg, gitStatus).value;
    TaskTagNames(s.task.s, s.env, cfg);
  }

  /** The task `run` hands over to. */
  datatype Step = BuildStep | DevbuildStep | AssembleStep | DeployStep | TestStep | NoStep

  /** `run` compares the task with each name exactly. */
  function RunStep(task: Value): (s: Step)
    ensures s == NoStep <==> task !in {Str("build"), Str("devbuild"), Str("assemble"), Str("deploy"), Str("test")}
    ensures s == DeployStep <==> task == Str("deploy")
    ensures s == BuildStep <==> task == Str("build")
  {
    if task == Str("build") then BuildStep
    else if task == Str("devbuild") then DevbuildStep
    else if task == Str("assemble") then AssembleStep
    else if task == Str("deploy") then DeployStep
    else if task == Str("test") then TestStep
    else NoStep
  }

  /** `load_build_token(h, {k => v})` merges exactly one token. */
  lemma MergedSingle(tokens: OMap<Value>, k: string, v: Value)
    requires WellFormed(tokens)
    ensures Merged(tokens, Single(k, v), |Single(k, v).keys|) == Put(tokens, k, v)
  {
    assert |Single(k, v).keys| == 1;
    assert Merged(tokens, Single(k, v), 0) == tokens;
  }

  /** The two `load_build_token` calls of `update_release_version`. */
  method SetReleaseTokens(cfg: Config, ver: string, rev: string) returns (r: Result<(), RubyError>)
    modifies cfg
    ensures HasTokenHash(old(cfg.data)) ==>
      r.Ok? && cfg.data == SetToken(SetToken(old(cfg.data), "RELEASE_VERSION", Str(ver)), "GIT_REVISION", Str(rev))
    ensures !HasTokenHash(old(cfg.data)) ==> r.Err? && cfg.data == old(cfg.data)
  {
    if HasTokenHash(cfg.data) {
      MergedSingle(cfg.data.entries.vals["build_tokens"].entries, "RELEASE_VERSION", Str(ver));
      MergedSingle(SetToken(cfg.data, "RELEASE_VERSION", Str(ver)).entries.vals["build_tokens"].entries, "GIT_REVISION", Str(rev));
    }
    r := cfg.LoadBuildToken(Single("RELEASE_VERSION", Str(ver)));
    if r.Err? { return; }
    r := cfg.LoadBuildToken(Single("GIT_REVISION", Str(rev)));
  }

  /** A project: the settings `initialize` stores in class variables, the
      configuration it shares with the caller, and the YAML files under the
      central path, by file name. */
  class Project {
    var config: Config
    var domain: Value
    var project: Value
    var release: Value
    var task: Value
    var env: Option<Value>
    var namespace: string
    var gitbranch: Option<string>
    var stage: Option<string>
    var partition: Option<string>
    var centralEnvs: string
    var centralTags: string
    var centralMeta: string
    var centralConfig: string
    var centralRelhist: string
    var files: map<string, Value>

    /** The class variables before `initialize` has run. */
    constructor (cfg: Config, files: map<string, Value>)
      ensures config == cfg && this.files == files
      ensures domain == Nil && task == Nil && env.None? && gitbranch.None? && stage.None? && partition.None?
    {
      config := cfg;
      domain, project, release, task := Nil, Nil, Nil, Nil;
      env, namespace, gitbranch, stage, partition := None, "", None, None, None;
      centralEnvs, centralTags, centralMeta, centralConfig, centralRelhist := "", "", "", "", "";
      this.files := files;
    }

    /** The class variables hold the settings `s`, the namespace and the
        central paths built from them, nil stage and partition, and the git
        branch of `s` or, when it has none, `branch`. */
    predicate Holds(s: Settings, branch: Option<string>)
      reads this
    {
      && domain == s.domain && project == s.project && release == s.release && task == s.task
      && env == s.env && namespace == s.Namespace()
      && gitbranch == (if s.branch.Some? then s.branch else branch)
      && stage.None? && partition.None?
      && centralEnvs == s.CentralDir() + "/envs" && centralTags == s.CentralDir() + "/tags"
      && centralMeta == s.CentralDir() + "/meta" && centralConfig == centralMeta + "/config.yml"
      && centralRelhist == centralMeta + "/relhist.yml"
    }

    /** `initialize`: store the settings; the stage and the partition stay
        nil because the test guarding them reads `@env`, which is never set.
        A missing token stops it, keeping what it had stored so far. */
    method Initialize(cfg: Config, gitStatus: string) returns (r: Result<(), RubyError>)
      modifies this
      ensures config == cfg && files == old(files)
      ensures r.Ok? <==> Setup(cfg.data, gitStatus).Ok?
      ensures r.Err? ==> r.error == Setup(cfg.data, gitStatus).error
      ensures r.Ok? ==> Holds(Setup(cfg.data, gitStatus).value, old(gitbranch))
    {
      config := cfg;
      var data := cfg.data;
      r := ReadTokens(data);
      if r.Err? {
        assert Setup(data, gitStatus) == Err(r.error);
        return;
      }
      assert TokensOf(data) == Ok((domain, project, release, task));
      r := ReadSelectors(data, gitStatus);
      if r.Err? {
        assert Setup(data, gitStatus) == Err(r.error);
        return;
      }
      assert Setup(data, gitStatus) == Ok(Settings(domain, project, release, task, EnvFor(data, task).value, BranchFor(task, gitStatus).value));
      SetPaths();
    }

    /** The first lines of `initialize`: the four required tokens, one by one. */
    method ReadTokens(cfg: Value) returns (r: Result<(), RubyError>)
      modifies this
      ensures unchanged(this`config, this`files, this`gitbranch, this`env)
      ensures r.Ok? <==> TokensOf(cfg).Ok?
      ensures r.Err? ==> r.error == TokensOf(cfg).error
      ensures r.Ok? ==> (domain, project, release, task) == TokensOf(cfg).value
    {
      var d := GetBuildToken(cfg, "DOMAIN");
      if d.Err? { return Err(d.error); }
      domain := d.value;
      var p := GetBuildToken(cfg, "PROJECT");
      if p.Err? { return Err(p.error); }
      project := p.value;
      var rl := GetBuildToken(cfg, "RELEASE");
      if rl.Err? { return Err(rl.error); }
      release := rl.value;
      var t := GetBuildToken(cfg, "TASK");
      if t.Err? { return Err(t.error); }
      task := t.value;
      r := Ok(());
    }

    /** The middle of `initialize`: the environment for a deploy or test
        task, the namespace, and the git branch for a build task. */
    method ReadSelectors(cfg: Value, gitStatus: string) returns (r: Result<(), RubyError>)
      modifies this
      ensures unchanged(this`config, this`files, this`domain, this`project, this`release, this`task)
      ensures r.Ok? <==> EnvFor(cfg, task).Ok? && BranchFor(task, gitStatus).Ok?
      ensures r.Err? ==> r.error == if EnvFor(cfg, task).Err? then EnvFor(cfg, task).error else BranchFor(task, gitStatus).error
      ensures r.Ok? ==> env == EnvFor(cfg, task).value && namespace == ToS(project) + "-" + ToS(release)
      ensures r.Ok? ==> gitbranch == if BranchFor(task, gitStatus).value.Some? then BranchFor(task, gitStatus).value else old(gitbranch)
    {
      env := None;
      var e := EnvFor(cfg, task);
      if e.Err? { return Err(e.error); }
      env := e.value;
      namespace := ToS(project) + "-" + ToS(release);
      var b := BranchFor(task, gitStatus);
      if b.Err? { return Err(b.error); }
      if b.value.Some? {
        gitbranch := b.value;
      }
      r := Ok(());
    }

    /** The end of `initialize`: nil stage and partition, and the central paths. */
    method SetPaths()
      modifies this
      ensures unchanged(this`config, this`files, this`gitbranch, this`env, this`domain, this`project)
      ensures unchanged(this`release, this`task, this`namespace)
      ensures stage.None? && partition.None?
      ensures var dir := CentralPath + "/" + ToS(domain) + "/" + namespace;
        && centralEnvs == dir + "/envs" && centralTags == dir + "/tags" && centralMeta == dir + "/meta"
        && centralConfig == centralMeta + "/config.yml" && centralRelhist == centralMeta + "/relhist.yml"
    {
      var dir := CentralPath + "/" + ToS(domain) + "/" + namespace;
      var meta := dir + "/meta";
      stage, partition, centralEnvs, centralTags, centralMeta, centralConfig, centralRelhist :=
        None, None, dir + "/envs", dir + "/tags", meta, meta + "/config.yml", meta + "/relhist.yml";
    }

    /** `get_next_release_version`. */
    method GetNextReleaseVersion() returns (r: Result<string, RubyError>)
      ensures r == NextFromFile(ToS(release), FileAt(files, centralRelhist))
    {
      var ver := ToS(release) + ".0";
      if centralRelhist in files {
        var relhash := files[centralRelhist];
        var empty := IsEmptyValue(relhash);
        if empty.None? { return Err(NoSuchMethod); }
        if !empty.value {
          if !relhash.Hash? { return Err(NoSuchMethod); }
          ver := NextVersion(ToS(release), relhash.entries);
        }
      }
      r := Ok(ver);
    }

    /** `update_release_version`: record the next version against the central
        revision in the history file and set the `RELEASE_VERSION` and
        `GIT_REVISION` tokens. */
    method UpdateReleaseVersion(revOutput: string) returns (r: Result<string, RubyError>)
      requires WellFormedFile(FileAt(files, centralRelhist))
      modifies this, config
      ensures unchanged(this`config, this`release, this`centralRelhist)
      ensures r.Ok? <==> HasTokenHash(old(config.data)) && (FileAt(old(files), centralRelhist).None? || FileAt(old(files), centralRelhist).value.Hash?)
      ensures r.Ok? ==>
        var h := HistoryOf(FileAt(old(files), centralRelhist));
        && r.value == NextVersion(ToS(release), h)
        && files == old(files)[centralRelhist := Hash(Put(h, r.value, Str(Chomp(revOutput))))]
        && config.data == SetToken(SetToken(old(config.data), "RELEASE_VERSION", Str(r.value)),
                                   "GIT_REVISION", Str(Chomp(revOutput)))
      ensures r.Err? ==> files == old(files) && config.data == old(config.data)
    {
      var h: OMap<Value> := EmptyMap();
      if centralRelhist in files {
        var loaded := files[centralRelhist];
        if !loaded.Hash? { return Err(NoSuchMethod); }
        h := loaded.entries;
      }
      var rev := Chomp(revOutput);
      var ver := ToS(release) + ".0";
      if h.keys != [] {
        ver := NextVersion(ToS(release), h);
      } else {
        assert DigitChar(0) == '0' && NatToString(0) == "0";
      }
      assert h == HistoryOf(FileAt(files, centralRelhist)) && ver == NextVersion(ToS(release), h);
      var updated := Put(h, ver, Str(rev));
      var loaded := SetReleaseTokens(config, ver, rev);
      if loaded.Err? { return Err(loaded.error); }
      files := files[centralRelhist := Hash(updated)];
      r := Ok(ver);
    }

    /** `update_task_tag`: write the task's tag file under the central tags. */
    method UpdateTaskTag() returns (r: Result<string, RubyError>)
      modifies this`files
      ensures r.Ok? <==> TaskTag(task, env, config.data).Ok?
      ensures r.Ok? ==>
        var (tag, contents) := TaskTag(task, env, config.data).value;
        r.value == tag && files == old(files)[centralTags + "/" + tag + ".yml" := contents]
      ensures r.Err? ==> files == old(files)
    {
      var t := TaskTag(task, env, config.data);
      if t.Err? { return Err(t.error); }
      var (tag, contents) := t.value;
      files := files[centralTags + "/" + tag + ".yml" := contents];
      r := Ok(tag);
    }

    /** `run` on a plain `Project`: its step methods take a task definition
        that `run` does not pass, so every recognised task fails with an
        argument error; any other task ends the run. A subclass that
        overrides the steps with argument-less methods is not modelled. */
    method Run() returns (r: Result<Step, RubyError>)
      ensures r.Ok? <==> RunStep(task) == NoStep
      ensures r.Err? ==> r.error == WrongArgumentCount
    {
      var step := RunStep(task);
      if step != NoStep {
        return Err(WrongArgumentCount);
      }
      r := Ok(NoStep);
    }
  }
}
