/**
 * The shared helpers of the Ruby build tooling (ruby.tools/lib/utils.rb):
 * reading a Jenkins job name as build arguments, looking values up in the
 * project configuration, merging build tokens, choosing a package build
 * number, retrying a command, and substituting `[KEY]` tokens in a file.
 */
module RubyUtils {
  import opened Common

  /** A value loaded from the project's YAML configuration. */
  datatype Value = Nil | Str(s: string) | Int(i: int) | List(items: seq<Value>) | Hash(entries: OMap<Value>)

  datatype RubyError =
    | MissingJobName
    | NilField               // a method called on a missing job-name field
    | MissingEnvParam(task: string)
    | MissingKey(key: string)
    | MissingToken(token: string)
    | NotAHash
    | NotAList
    | NotText
    | MissingDeployTag
    | MissingPackage(pkg: string)
    | NoErrorOutput
    | Unrescued
    | MissingFile(name: string)
    | NoSuchMethod           // a method the value's class does not have
    | WrongArgumentCount
    | UnrecognizedOutput

  // ---------------------------------------------------------------------
  // Ruby text primitives
  // ---------------------------------------------------------------------

  /** Ruby's `^` matches at the start of the text and after every newline. */
  predicate LineStart(s: string, p: int)
  {
    p == 0 || (0 < p <= |s| && s[p - 1] == '\n')
  }

  /** Ruby `split` drops trailing empty fields. */
  function DropTrailingEmpty(parts: seq<string>): (r: seq<string>)
    ensures |r| <= |parts| && r == parts[..|r|]
    ensures r == [] || r[|r| - 1] != ""
  {
    if parts == [] then []
    else if parts[|parts| - 1] == "" then DropTrailingEmpty(parts[..|parts| - 1])
    else parts
  }

  /** `s.split(c)` for a one-character separator. */
  function RubySplit(s: string, c: char): seq<string>
  {
    DropTrailingEmpty(SplitChar(s, c))
  }

  // ---------------------------------------------------------------------
  // parse_job_name
  // ---------------------------------------------------------------------

  /** `f.match(/^\d+\.\d+/)`: at some line start, digits, a dot and a digit. */
  predicate ReleasePrefix(f: string)
  {
    exists p, q | 0 <= p < q < |f| - 1 :: LineStart(f, p) && AllDigits(f[p..q]) && f[q] == '.' && IsDigit(f[q + 1])
  }

  const EnvNames: seq<string> := ["dev", "int", "stg", "prod"]

  /** `param =~ /^(dev|int|stg|prod)-(.+)$/`: some line of the parameter starts
      with an environment name, a dash and at least one more character. */
  predicate EnvParam(param: string)
  {
    exists p, e | 0 <= p < |param| && e in EnvNames ::
      LineStart(param, p) && OccursAt(param, e + "-", p) && p + |e| + 1 < |param| && param[p + |e| + 1] != '\n'
  }

  /** The build arguments a job name carries. */
  datatype JobName = JobName(domain: string, project: string, release: string, task: string, env: Option<string>)

  /** A deploy or test job (`task.match('deploy|test')`). */
  predicate DeployOrTest(task: string)
  {
    Contains(task, "deploy") || Contains(task, "test")
  }

  /** The job name read field by field: domain, project, an optional release
      (default `1.0`), the task and the rest as parameter, which a deploy or
      test job must carry as its environment. */
  function JobNameOf(jobname: Option<string>): Result<JobName, RubyError>
  {
    match jobname
    case None => Err(MissingJobName)
    case Some(n) =>
      var f := RubySplit(n, '-');
      if |f| < 3 then Err(NilField)
      else
        var hasRelease := ReleasePrefix(f[2]);
        var rest := if hasRelease then f[3..] else f[2..];
        if rest == [] then Err(NilField)
        else
          var task := rest[0];
          var param := Join(rest[1..], "-");
          var release := if hasRelease then f[2] else "1.0";
          if !DeployOrTest(task) then Ok(JobName(f[0], f[1], release, task, None))
          else if EnvParam(param) then Ok(JobName(f[0], f[1], release, task, Some(param)))
          else Err(MissingEnvParam(task))
  }

  /** `parse_job_name`: shift the fields off the split name one by one. */
  method ParseJobName(jobname: Option<string>) returns (r: Result<JobName, RubyError>)
    ensures r == JobNameOf(jobname)
  {
    if jobname.None? {
      return Err(MissingJobName);
    }
    var jargs := RubySplit(jobname.value, '-');
    var fields := jargs;
    if |jargs| < 2 {
      return Err(NilField);
    }
    var domain := jargs[0];
    jargs := jargs[1..];
    var project := jargs[0];
    jargs := jargs[1..];
    if jargs == [] {
      return Err(NilField);
    }
    var release := "";
    var hasRelease := false;
    if ReleasePrefix(jargs[0]) {
      release := jargs[0];
      hasRelease := true;
      jargs := jargs[1..];
    }
    if jargs == [] {
      return Err(NilField);
    }
    var task := jargs[0];
    jargs := jargs[1..];
    var param := Join(jargs, "-");
    if !hasRelease {
      release := "1.0";
    }
    assert jargs == (if hasRelease then fields[3..] else fields[2..])[1..];
    if DeployOrTest(task) {
      if !EnvParam(param) {
        return Err(MissingEnvParam(task));
      }
      return Ok(JobName(domain, project, release, task, Some(param)));
    }
    r := Ok(JobName(domain, project, release, task, None));
  }

  /** A text that does not end with the separator splits into pieces whose
      last one is not empty. */
  lemma {:induction false} SplitCharLastNonEmpty(s: string, c: char)
    requires s != [] && s[|s| - 1] != c
    ensures SplitChar(s, c)[|SplitChar(s, c)| - 1] != []
    decreases |s|
  {
    match SplitOnce(s, c)
    case None =>
    case Some((a, b)) =>
      assert s == a + [c] + b;
      assert b != [];
      assert b[|b| - 1] == s[|s| - 1];
      SplitCharLastNonEmpty(b, c);
      var parts := SplitChar(b, c);
      assert SplitChar(s, c) == [a] + parts;
      LastOfCons(a, parts);
  }

  lemma LastOfCons<T>(x: T, s: seq<T>)
    requires s != []
    ensures ([x] + s)[|s|] == s[|s| - 1]
  {
  }

  /** Splitting a text with a non-empty last piece drops nothing. */
  lemma RubySplitKeepsAll(s: string, c: char)
    requires SplitChar(s, c)[|SplitChar(s, c)| - 1] != []
    ensures RubySplit(s, c) == SplitChar(s, c)
  {
  }

  /** Ruby's split of dash-joined fields without dashes and with a non-empty
      last field gives the fields back. */
  lemma RubySplitJoin(fields: seq<string>)
    requires fields != [] && fields[|fields| - 1] != []
    requires forall i | 0 <= i < |fields| :: '-' !in fields[i]
    ensures RubySplit(Join(fields, "-"), '-') == fields
  {
    SplitJoin(fields, '-');
  }

  /** The fields of a job name: domain, project, an optional release, the task
      and the pieces of the environment parameter. */
  function JobFields(domain: string, project: string, release: Option<string>, task: string, envParts: seq<string>): seq<string>
  {
    if release.Some? then [domain, project, release.value, task] + envParts
    else [domain, project, task] + envParts
  }

  /** No field contains a dash. */
  predicate NoDash(fields: seq<string>)
  {
    forall i | 0 <= i < |fields| :: '-' !in fields[i]
  }

  /** A name that splits into domain, project, an optional release, the task
      and further fields parses into those parts: the release is `1.0` when
      the third field is not a release, and the further fields joined by `-`
      are the environment of a deploy or test job. */
  lemma JobNameOfSplit(n: string, domain: string, project: string, release: Option<string>, task: string, rest: seq<string>)
    requires RubySplit(n, '-') == JobFields(domain, project, release, task, rest)
    requires release.Some? ==> ReleasePrefix(release.value)
    requires release.None? ==> !ReleasePrefix(task)
    requires DeployOrTest(task) ==> EnvParam(Join(rest, "-"))
    ensures JobNameOf(Some(n)) == Ok(JobName(domain, project, if release.Some? then release.value else "1.0", task,
                                             if DeployOrTest(task) then Some(Join(rest, "-")) else None))
  {
    if release.Some? {
      JobNameWithRelease(n, domain, project, release.value, task, rest);
    } else {
      JobNameWithoutRelease(n, domain, project, task, rest);
    }
  }

  lemma JobNameWithRelease(n: string, domain: string, project: string, release: string, task: string, rest: seq<string>)
    requires RubySplit(n, '-') == [domain, project, release, task] + rest
    requires ReleasePrefix(release)
    requires DeployOrTest(task) ==> EnvParam(Join(rest, "-"))
    ensures JobNameOf(Some(n)) == Ok(JobName(domain, project, release, task,
                                             if DeployOrTest(task) then Some(Join(rest, "-")) else None))
  {
    var f := RubySplit(n, '-');
    assert f[2] == release;
    var tail := f[3..];
    assert tail[0] == task && tail[1..] == rest;
  }

  lemma JobNameWithoutRelease(n: string, domain: string, project: string, task: string, rest: seq<string>)
    requires RubySplit(n, '-') == [domain, project, task] + rest
    requires !ReleasePrefix(task)
    requires DeployOrTest(task) ==> EnvParam(Join(rest, "-"))
    ensures JobNameOf(Some(n)) == Ok(JobName(domain, project, "1.0", task,
                                             if DeployOrTest(task) then Some(Join(rest, "-")) else None))
  {
    var f := RubySplit(n, '-');
    assert f[2] == task;
    var tail := f[2..];
    assert tail[0] == task && tail[1..] == rest;
  }

  /** Joining the fields of a job name with dashes and parsing the name gives
      the fields back; without a release field the release is `1.0`. */
  lemma JobNameRoundTrip(domain: string, project: string, release: Option<string>, task: string, envParts: seq<string>)
    requires NoDash(JobFields(domain, project, release, task, envParts))
    requires release.Some? ==> ReleasePrefix(release.value)
    requires release.None? ==> !ReleasePrefix(task)
    requires envParts != [] && envParts[|envParts| - 1] != []
    requires DeployOrTest(task) && EnvParam(Join(envParts, "-"))
    ensures JobNameOf(Some(Join(JobFields(domain, project, release, task, envParts), "-"))) ==
      Ok(JobName(domain, project, if release.Some? then release.value else "1.0", task, Some(Join(envParts, "-"))))
  {
    var front := if release.Some? then [domain, project, release.value, task] else [domain, project, task];
    JoinedFieldsSplit(front, envParts);
    JobNameOfSplit(Join(front + envParts, "-"), domain, project, release, task, envParts);
  }

  /** Fixed leading fields followed by a non-empty tail whose last piece is
      not empty split back apart. */
  lemma JoinedFieldsSplit(front: seq<string>, tail: seq<string>)
    requires NoDash(front + tail)
    requires tail != [] && tail[|tail| - 1] != []
    ensures RubySplit(Join(front + tail, "-"), '-') == front + tail
  {
    var fields := front + tail;
    assert fields[|fields| - 1] == tail[|tail| - 1];
    RubySplitJoin(fields);
  }

  /** A deploy or test job without an environment parameter is refused, and a
      job of any other kind carries no environment. */
  lemma JobNameEnv(jobname: string)
    ensures JobNameOf(Some(jobname)).Ok? && DeployOrTest(JobNameOf(Some(jobname)).value.task) ==>
      JobNameOf(Some(jobname)).value.env.Some? && EnvParam(JobNameOf(Some(jobname)).value.env.value)
    ensures JobNameOf(Some(jobname)).Ok? && !DeployOrTest(JobNameOf(Some(jobname)).value.task) ==>
      JobNameOf(Some(jobname)).value.env.None?
    ensures JobNameOf(Some(jobname)).Ok? ==>
      var j := JobNameOf(Some(jobname)).value;
      j.release == "1.0" || ReleasePrefix(j.release)
  {
  }

  // ---------------------------------------------------------------------
  // Configuration lookups
  // ---------------------------------------------------------------------

  /** `h[key]` with a text key: on a Hash the value, or nil when the key is
      absent; on a String (`String#[]`) the key itself when it occurs in the
      text, else nil. Any other receiver raises. */
  function Index(h: Value, key: string): (r: Result<Value, RubyError>)
    ensures r.Err? <==> !h.Hash? && !h.Str?
    ensures h.Hash? ==> r == Ok(if key in h.entries.vals then h.entries.vals[key] else Nil)
    ensures h.Str? ==> r == Ok(if Contains(h.s, key) then Str(key) else Nil)
  {
    match h
    case Hash(m) => Ok(if key in m.vals then m.vals[key] else Nil)
    case Str(s) => Ok(if Contains(s, key) then Str(key) else Nil)
    case _ => Err(NotAHash)
  }

  /** `get_hash_value`: a present, non-nil value or an error. */
  function GetHashValue(cfg: Value, key: string): (r: Result<Value, RubyError>)
    ensures cfg.Hash? ==> (r.Ok? <==> key in cfg.entries.vals && cfg.entries.vals[key] != Nil)
    ensures cfg.Hash? && r.Ok? ==> r.value == cfg.entries.vals[key]
    ensures cfg.Str? ==> r == if Contains(cfg.s, key) then Ok(Str(key)) else Err(MissingKey(key))
    ensures !cfg.Hash? && !cfg.Str? ==> r.Err?
    ensures (cfg.Hash? || cfg.Str?) && r.Err? ==> r.error == MissingKey(key)
  {
    match Index(cfg, key)
    case Err(e) => Err(e)
    case Ok(v) => if v == Nil then Err(MissingKey(key)) else Ok(v)
  }

  /** `get_build_token`: a present, non-nil token of `build_tokens`. */
  function GetBuildToken(cfg: Value, token: string): (r: Result<Value, RubyError>)
    ensures r.Ok? <==> GetHashValue(cfg, "build_tokens").Ok? && GetHashValue(GetHashValue(cfg, "build_tokens").value, token).Ok?
    ensures r.Ok? ==> r.value != Nil
    ensures cfg.Hash? && "build_tokens" in cfg.entries.vals && cfg.entries.vals["build_tokens"].Hash? && r.Ok? ==>
      r.value == cfg.entries.vals["build_tokens"].entries.vals[token]
  {
    match GetHashValue(cfg, "build_tokens")
    case Err(e) => Err(e)
    case Ok(tokens) =>
      match Index(tokens, token)
      case Err(e) => Err(e)
      case Ok(v) => if v == Nil then Err(MissingToken(token)) else Ok(v)
  }

  /** `h.merge!(extra)` on the entries of a Hash: later keys overwrite,
      new keys go last. */
  function Merged(tokens: OMap<Value>, extra: OMap<Value>, upto: nat): (r: OMap<Value>)
    requires WellFormed(tokens) && WellFormed(extra) && upto <= |extra.keys|
    ensures WellFormed(r)
  {
    if upto == 0 then tokens
    else MergeOne(Merged(tokens, extra, upto - 1), extra, upto - 1)
  }

  /** One step of `merge!`: the `i`-th extra key and its value. */
  function MergeOne(m: OMap<Value>, extra: OMap<Value>, i: nat): (r: OMap<Value>)
    requires WellFormed(m) && WellFormed(extra) && i < |extra.keys|
    ensures WellFormed(r)
  {
    Put(m, extra.keys[i], extra.vals[extra.keys[i]])
  }

  /** After merging, the keys are the old keys and the merged ones. */
  lemma {:induction false} MergedKeys(tokens: OMap<Value>, extra: OMap<Value>, upto: nat)
    requires WellFormed(tokens) && WellFormed(extra) && upto <= |extra.keys|
    ensures forall k :: k in Merged(tokens, extra, upto).vals <==> k in tokens.vals || k in extra.keys[..upto]
  {
    if upto > 0 {
      MergedKeys(tokens, extra, upto - 1);
      assert extra.keys[..upto] == extra.keys[..upto - 1] + [extra.keys[upto - 1]];
    }
  }

  /** After merging, a key has the extra value when the extra hash has it and
      its old value otherwise. */
  lemma {:induction false} MergedValues(tokens: OMap<Value>, extra: OMap<Value>, upto: nat)
    requires WellFormed(tokens) && WellFormed(extra) && upto <= |extra.keys|
    ensures forall k | k in extra.keys[..upto] ::
      k in Merged(tokens, extra, upto).vals && Merged(tokens, extra, upto).vals[k] == extra.vals[k]
    ensures forall k | k in tokens.vals && k !in extra.keys[..upto] ::
      k in Merged(tokens, extra, upto).vals && Merged(tokens, extra, upto).vals[k] == tokens.vals[k]
  {
    if upto > 0 {
      MergedValues(tokens, extra, upto - 1);
      MergedKeys(tokens, extra, upto - 1);
      assert extra.keys[..upto] == extra.keys[..upto - 1] + [extra.keys[upto - 1]];
    }
  }

  /** `a` is a prefix of `b`. */
  predicate Prefix(a: seq<string>, b: seq<string>)
  {
    |a| <= |b| && b[..|a|] == a
  }

  lemma PrefixTrans(a: seq<string>, b: seq<string>, c: seq<string>)
    requires Prefix(a, b) && Prefix(b, c)
    ensures Prefix(a, c)
  {
    assert c[..|a|] == c[..|b|][..|a|];
  }

  lemma MergeOnePrefix(m: OMap<Value>, extra: OMap<Value>, i: nat)
    requires WellFormed(m) && WellFormed(extra) && i < |extra.keys|
    ensures Prefix(m.keys, MergeOne(m, extra, i).keys)
  {
    var r := Put(m, extra.keys[i], extra.vals[extra.keys[i]]);
    if extra.keys[i] !in m.vals {
      assert r.keys[..|m.keys|] == m.keys;
    }
  }

  lemma MergedStepPrefix(tokens: OMap<Value>, extra: OMap<Value>, k: nat)
    requires WellFormed(tokens) && WellFormed(extra) && k < |extra.keys|
    ensures Prefix(Merged(tokens, extra, k).keys, Merged(tokens, extra, k + 1).keys)
  {
    MergeOnePrefix(Merged(tokens, extra, k), extra, k);
  }

  /** Merging keeps the old keys in their places. */
  lemma {:induction false} MergedOrder(tokens: OMap<Value>, extra: OMap<Value>, upto: nat)
    requires WellFormed(tokens) && WellFormed(extra) && upto <= |extra.keys|
    ensures Prefix(tokens.keys, Merged(tokens, extra, upto).keys)
  {
    if upto > 0 {
      var k := upto - 1;
      MergedOrder(tokens, extra, k);
      MergedStepPrefix(tokens, extra, k);
      PrefixTrans(tokens.keys, Merged(tokens, extra, k).keys, Merged(tokens, extra, k + 1).keys);
    }
  }

  /** The loop of `merge!`. */
  method MergeTokens(tokens: OMap<Value>, extra: OMap<Value>) returns (r: OMap<Value>)
    requires WellFormed(tokens) && WellFormed(extra)
    ensures r == Merged(tokens, extra, |extra.keys|)
  {
    r := tokens;
    var i := 0;
    while i < |extra.keys|
      invariant 0 <= i <= |extra.keys|
      invariant r == Merged(tokens, extra, i)
    {
      r := MergeOne(r, extra, i);
      i := i + 1;
    }
  }

  /** A configuration hash with a `build_tokens` hash in it. */
  predicate HasTokenHash(cfg: Value)
  {
    cfg.Hash? && WellFormed(cfg.entries) && "build_tokens" in cfg.entries.vals &&
    cfg.entries.vals["build_tokens"].Hash? && WellFormed(cfg.entries.vals["build_tokens"].entries)
  }

  /** The configuration hash that build steps read and extend. */
  class Config {
    var data: Value

    constructor (data: Value)
      ensures this.data == data
    {
      this.data := data;
    }

    /** `load_build_token`: merge `extra` into `build_tokens` in place; a
        configuration without `build_tokens` fails. */
    method LoadBuildToken(extra: OMap<Value>) returns (r: Result<(), RubyError>)
      requires WellFormed(extra)
      modifies this
      ensures HasTokenHash(old(data)) ==>
        r.Ok? && data == Hash(Put(old(data).entries, "build_tokens",
                                  Hash(Merged(old(data).entries.vals["build_tokens"].entries, extra, |extra.keys|))))
      ensures !HasTokenHash(old(data)) ==> r.Err? && data == old(data)
    {
      if !HasTokenHash(data) {
        return Err(NotAHash);
      }
      var tokens := MergeTokens(data.entries.vals["build_tokens"].entries, extra);
      data := Hash(Put(data.entries, "build_tokens", Hash(tokens)));
      r := Ok(());
    }
  }

  /** The first entry of `entries` whose `name` is `env`, giving its
      `deploy_tag` (nil when it has none). */
  function FindDeployTag(entries: seq<Value>, env: Value): Result<Value, RubyError>
  {
    if entries == [] then Err(MissingDeployTag)
    else match Index(entries[0], "name")
      case Err(e) => Err(e)
      case Ok(n) => if n == env then Index(entries[0], "deploy_tag") else FindDeployTag(entries[1..], env)
  }

  /** `get_deploy_tag`. */
  function GetDeployTag(cfg: Value, env: Value): Result<Value, RubyError>
  {
    match GetHashValue(cfg, "envs")
    case Err(e) => Err(e)
    case Ok(envs) => if envs.List? then FindDeployTag(envs.items, env) else Err(NotAList)
  }

  /** `entry["name"]` of a Hash entry. */
  function NameOf(entry: Value): Value
  {
    if entry.Hash? && "name" in entry.entries.vals then entry.entries.vals["name"] else Nil
  }

  /** Entry `i` is the first one named `env`. */
  predicate FirstNamed(entries: seq<Value>, env: Value, i: int)
  {
    0 <= i < |entries| && NameOf(entries[i]) == env && forall j | 0 <= j < i :: NameOf(entries[j]) != env
  }

  /** The deploy tag comes from the first entry named `env`; with no such entry
      (and every entry a hash) the lookup raises. */
  lemma {:induction false} FindDeployTagSpec(entries: seq<Value>, env: Value)
    requires forall i | 0 <= i < |entries| :: entries[i].Hash?
    ensures FindDeployTag(entries, env).Ok? <==> exists i | 0 <= i < |entries| :: NameOf(entries[i]) == env
    ensures FindDeployTag(entries, env).Ok? ==>
      exists i :: FirstNamed(entries, env, i) && FindDeployTag(entries, env) == Index(entries[i], "deploy_tag")
  {
    if entries != [] {
      var tail := entries[1..];
      assert forall i | 1 <= i < |entries| :: entries[i] == tail[i - 1];
      FindDeployTagSpec(tail, env);
      assert Index(entries[0], "name") == Ok(NameOf(entries[0]));
      if NameOf(entries[0]) == env {
        assert FirstNamed(entries, env, 0);
      } else {
        assert FindDeployTag(entries, env) == FindDeployTag(tail, env);
        if exists i | 0 <= i < |entries| :: NameOf(entries[i]) == env {
          var i :| 0 <= i < |entries| && NameOf(entries[i]) == env;
          assert NameOf(tail[i - 1]) == env;
        }
        if FindDeployTag(tail, env).Ok? {
          var i :| FirstNamed(tail, env, i) && FindDeployTag(tail, env) == Index(tail[i], "deploy_tag");
          assert FirstNamed(entries, env, i + 1);
        }
      }
    }
  }

  /** The first package entry with a non-nil `pkg`. */
  function FindPackage(entries: seq<Value>, pkg: string): Result<Value, RubyError>
  {
    if entries == [] then Err(MissingPackage(pkg))
    else match Index(entries[0], pkg)
      case Err(e) => Err(e)
      case Ok(v) => if v != Nil then Ok(v) else FindPackage(entries[1..], pkg)
  }

  /** `get_env_package`: the env's `packages` list is searched in order. */
  function GetEnvPackage(env: Value, pkg: string): Result<Value, RubyError>
  {
    match GetHashValue(env, "packages")
    case Err(e) => Err(e)
    case Ok(pkgs) => if pkgs.List? then FindPackage(pkgs.items, pkg) else Err(NotAList)
  }

  /** Entry `i` is the first one with a non-nil `pkg`. */
  predicate FirstWith(entries: seq<Value>, pkg: string, i: int)
  {
    0 <= i < |entries| && Index(entries[i], pkg) != Ok(Nil) && forall j | 0 <= j < i :: Index(entries[j], pkg) == Ok(Nil)
  }

  /** A package is found exactly when some entry has it, and the first such
      entry gives it. */
  lemma {:induction false} FindPackageSpec(entries: seq<Value>, pkg: string)
    requires forall i | 0 <= i < |entries| :: entries[i].Hash?
    ensures FindPackage(entries, pkg).Ok? <==> exists i | 0 <= i < |entries| :: Index(entries[i], pkg) != Ok(Nil)
    ensures FindPackage(entries, pkg).Ok? ==>
      FindPackage(entries, pkg).value != Nil &&
      exists i :: FirstWith(entries, pkg, i) && Ok(FindPackage(entries, pkg).value) == Index(entries[i], pkg)
    ensures FindPackage(entries, pkg).Err? ==> FindPackage(entries, pkg).error == MissingPackage(pkg)
  {
    if entries != [] {
      var tail := entries[1..];
      assert forall i | 1 <= i < |entries| :: entries[i] == tail[i - 1];
      FindPackageSpec(tail, pkg);
      if Index(entries[0], pkg) != Ok(Nil) {
        assert FirstWith(entries, pkg, 0);
      } else {
        assert FindPackage(entries, pkg) == FindPackage(tail, pkg);
        if exists i | 0 <= i < |entries| :: Index(entries[i], pkg) != Ok(Nil) {
          var i :| 0 <= i < |entries| && Index(entries[i], pkg) != Ok(Nil);
          assert Index(tail[i - 1], pkg) != Ok(Nil);
        }
        if FindPackage(tail, pkg).Ok? {
          var i :| FirstWith(tail, pkg, i) && Ok(FindPackage(tail, pkg).value) == Index(tail[i], pkg);
          assert FirstWith(entries, pkg, i + 1);
        }
      }
    }
  }

  // ---------------------------------------------------------------------
  // Package build numbers
  // ---------------------------------------------------------------------

  /** Text interpolation `#{v}` of a token. */
  function AsText(v: Value): Option<string>
  {
    match v
    case Str(s) => Some(s)
    case Int(i) => Some(IntToString(i))
    case _ => None
  }

  /** The release interpolated into a regular expression: every `.` of it
      matches any character but a newline, every other character itself. */
  predicate ReleaseMatches(release: string, s: string)
  {
    |s| == |release| &&
    forall i | 0 <= i < |s| :: if release[i] == '.' then s[i] != '\n' else s[i] == release[i]
  }

  /** The build number of a listing entry, when it matches
      `/^#{release}\.\d+$/` (an entry holds no newline of its own). */
  function BuildNumber(release: string, entry: string): (r: Option<nat>)
    ensures r.Some? ==> exists q | 0 <= q < |entry| - 1 ::
      entry[q] == '.' && AllDigits(entry[q + 1..]) && r.value == DigitsValue(entry[q + 1..])
  {
    if |entry| > |release| + 1 && ReleaseMatches(release, entry[..|release|]) && entry[|release|] == '.' &&
       AllDigits(entry[|release| + 1..]) && '\n' !in entry
    then Some(DigitsValue(entry[|release| + 1..]))
    else None
  }

  /** The largest build number among the entries, -1 when none matches. */
  function MaxBuild(release: string, entries: seq<string>): int
  {
    if entries == [] then -1
    else
      var b := MaxBuild(release, entries[..|entries| - 1]);
      match BuildNumber(release, entries[|entries| - 1])
      case Some(t) => if t > b then t else b
      case None => b
  }

  /** -1 exactly when no entry matches; otherwise an upper bound of every
      entry's number that some entry attains. */
  lemma {:induction false} MaxBuildSpec(release: string, entries: seq<string>)
    ensures MaxBuild(release, entries) >= -1
    ensures MaxBuild(release, entries) == -1 <==> forall i | 0 <= i < |entries| :: BuildNumber(release, entries[i]).None?
    ensures forall i | 0 <= i < |entries| && BuildNumber(release, entries[i]).Some? ::
      BuildNumber(release, entries[i]).value <= MaxBuild(release, entries)
    ensures MaxBuild(release, entries) != -1 ==>
      exists i | 0 <= i < |entries| :: BuildNumber(release, entries[i]) == Some(MaxBuild(release, entries) as nat)
  {
    if entries != [] {
      var init := entries[..|entries| - 1];
      MaxBuildSpec(release, init);
      assert forall i | 0 <= i < |init| :: init[i] == entries[i];
    }
  }

  /** `get_last_package_build_number`: the three tokens must be present and
      the group id must be text (`gsub`); a failed listing (`listing` is
      None) means a brand new package, whatever the release holds. */
  method LastPackageBuildNumber(cfg: Value, listing: Option<string>) returns (r: Result<int, RubyError>)
    ensures r.Ok? ==> r.value >= -1
    ensures r.Ok? ==>
      GetBuildToken(cfg, "RELEASE").Ok? && GetBuildToken(cfg, "MAVEN_GROUP_ID").Ok? &&
      GetBuildToken(cfg, "MAVEN_ARTIFACT_ID").Ok?
    ensures r.Ok? && listing.None? ==> r.value == -1
    ensures r.Ok? && listing.Some? ==>
      AsText(GetBuildToken(cfg, "RELEASE").value).Some? &&
      r.value == MaxBuild(AsText(GetBuildToken(cfg, "RELEASE").value).value, SplitChar(listing.value, '\n'))
    ensures GetBuildToken(cfg, "RELEASE").Err? ==> r == Err(GetBuildToken(cfg, "RELEASE").error)
    ensures r.Ok? ==> GetBuildToken(cfg, "MAVEN_GROUP_ID").value.Str?
    ensures (GetBuildToken(cfg, "RELEASE").Ok? && GetBuildToken(cfg, "MAVEN_GROUP_ID").Ok? &&
             GetBuildToken(cfg, "MAVEN_ARTIFACT_ID").Ok? && GetBuildToken(cfg, "MAVEN_GROUP_ID").value.Str? &&
             listing.None?) ==> r == Ok(-1)
  {
    var release := GetBuildToken(cfg, "RELEASE");
    if release.Err? {
      return Err(release.error);
    }
    var mgid := GetBuildToken(cfg, "MAVEN_GROUP_ID");
    if mgid.Err? {
      return Err(mgid.error);
    }
    var maid := GetBuildToken(cfg, "MAVEN_ARTIFACT_ID");
    if maid.Err? {
      return Err(maid.error);
    }
    if !mgid.value.Str? {
      return Err(NotText);
    }
    var bno: int := -1;
    if listing.None? {
      return Ok(bno);
    }
    if AsText(release.value).None? {
      return Err(NotText);
    }
    var rel := AsText(release.value).value;
    bno := MaxBuildOf(rel, SplitChar(listing.value, '\n'));
    r := Ok(bno);
  }

  /** The loop over the listing: keep the largest build number of an entry
      matching the release, starting from -1. */
  method MaxBuildOf(rel: string, vers: seq<string>) returns (bno: int)
    ensures bno == MaxBuild(rel, vers) && bno >= -1
  {
    bno := -1;
    var i := 0;
    while i < |vers|
      invariant 0 <= i <= |vers|
      invariant bno == MaxBuild(rel, vers[..i])
    {
      assert vers[..i + 1][..i] == vers[..i];
      var tno := BuildNumber(rel, vers[i]);
      if tno.Some? && tno.value > bno {
        bno := tno.value;
      }
      i := i + 1;
    }
    assert vers[..i] == vers;
    MaxBuildSpec(rel, vers);
  }

  /** `get_next_package_build_number`: one past the last, so 0 for a new package. */
  method NextPackageBuildNumber(cfg: Value, listing: Option<string>) returns (r: Result<int, RubyError>)
    ensures r.Ok? ==> r.value >= 0
    ensures r.Ok? && listing.None? ==> r.value == 0
    ensures (GetBuildToken(cfg, "RELEASE").Ok? && GetBuildToken(cfg, "MAVEN_GROUP_ID").Ok? &&
             GetBuildToken(cfg, "MAVEN_ARTIFACT_ID").Ok? && GetBuildToken(cfg, "MAVEN_GROUP_ID").value.Str? &&
             listing.None?) ==> r == Ok(0)
    ensures r.Ok? && listing.Some? ==>
      GetBuildToken(cfg, "RELEASE").Ok? && AsText(GetBuildToken(cfg, "RELEASE").value).Some? &&
      r.value == MaxBuild(AsText(GetBuildToken(cfg, "RELEASE").value).value, SplitChar(listing.value, '\n')) + 1
  {
    r := LastPackageBuildNumber(cfg, listing);
    if r.Ok? {
      r := Ok(r.value + 1);
    }
  }

  // ---------------------------------------------------------------------
  // retry_cmd
  // ---------------------------------------------------------------------

  /** What one run of the command gives. */
  datatype Attempt = Attempt(success: bool, stdout: string, stderr: string)

  /** How `retry_cmd` ends: the output of a successful run, nil after a
      break match, the loop range when every attempt was rescued, or an error. */
  datatype RetryOutcome = Output(out: string) | Nothing | Exhausted | Fatal(error: RubyError)

  /** What one failed or successful attempt decides: stop with an outcome or
      go on with the next attempt. */
  function Decide(a: Attempt, breakRe: Option<string -> bool>, rescueRe: Option<string -> bool>): Option<RetryOutcome>
  {
    if a.success then Some(Output(a.stdout))
    else
      var err := if a.stderr == "" then a.stdout else a.stderr;
      if err == "" then Some(Fatal(NoErrorOutput))
      else if breakRe.Some? && breakRe.value(err) then Some(Nothing)
      else if rescueRe.Some? && !rescueRe.value(err) then Some(Fatal(Unrescued))
      else None
  }

  /** The attempts from the `i`-th on: the outcome and how many attempts
      were made in all. */
  function RetryFrom(i: nat, retries: int, run: nat -> Attempt, breakRe: Option<string -> bool>,
                     rescueRe: Option<string -> bool>): (RetryOutcome, nat)
    decreases retries - i + 1
  {
    if i > retries then (Exhausted, i)
    else match Decide(run(i), breakRe, rescueRe)
      case Some(o) => (o, i + 1)
      case None => RetryFrom(i + 1, retries, run, breakRe, rescueRe)
  }

  /** `retry_cmd`: at most `retries + 1` runs of the command. */
  method RetryCmd(retries: int, run: nat -> Attempt, breakRe: Option<string -> bool>, rescueRe: Option<string -> bool>)
    returns (outcome: RetryOutcome, attempts: nat)
    ensures (outcome, attempts) == RetryFrom(0, retries, run, breakRe, rescueRe)
  {
    var i := 0;
    while i <= retries
      invariant 0 <= i && (i <= retries + 1 || retries < 0)
      invariant RetryFrom(i, retries, run, breakRe, rescueRe) == RetryFrom(0, retries, run, breakRe, rescueRe)
      decreases retries - i + 1
    {
      var a := run(i);
      if a.success {
        return Output(a.stdout), i + 1;
      }
      var err := a.stderr;
      if err == "" {
        err := a.stdout;
      }
      if err == "" {
        return Fatal(NoErrorOutput), i + 1;
      }
      if breakRe.Some? && breakRe.value(err) {
        return Nothing, i + 1;
      }
      if rescueRe.Some? && !rescueRe.value(err) {
        return Fatal(Unrescued), i + 1;
      }
      i := i + 1;
    }
    outcome, attempts := Exhausted, i;
  }

  /** At most `retries + 1` attempts; output comes only from a successful run,
      and every earlier run failed and was rescued. */
  lemma {:induction false} RetrySpec(i: nat, retries: int, run: nat -> Attempt, breakRe: Option<string -> bool>,
                                     rescueRe: Option<string -> bool>)
    requires i <= retries + 1 || retries < 0
    ensures var (o, n) := RetryFrom(i, retries, run, breakRe, rescueRe);
      && (retries >= 0 ==> i <= n <= retries + 1)
      && (o != Exhausted ==> i < n && Decide(run(n - 1), breakRe, rescueRe) == Some(o))
      && (o == Exhausted ==> n == if retries < 0 then i else retries + 1)
      && (forall j | i <= j < n - 1 :: Decide(run(j), breakRe, rescueRe).None?)
      && (o.Output? ==> run(n - 1).success && o.out == run(n - 1).stdout)
    decreases retries - i + 1
  {
    if i <= retries && Decide(run(i), breakRe, rescueRe).None? {
      RetrySpec(i + 1, retries, run, breakRe, rescueRe);
    }
  }

  /** A first run that succeeds is the only run. */
  lemma RetryFirstSuccess(retries: int, run: nat -> Attempt, breakRe: Option<string -> bool>,
                          rescueRe: Option<string -> bool>)
    requires retries >= 0 && run(0).success
    ensures RetryFrom(0, retries, run, breakRe, rescueRe) == (Output(run(0).stdout), 1)
  {
  }

  // ---------------------------------------------------------------------
  // substitute_file
  // ---------------------------------------------------------------------

  /** The token loop over one line: each `[KEY]` present is replaced by its
      value; the flag says whether any token was present. */
  function SubstituteTokens(line: string, tokens: OMap<string>, upto: nat): (string, bool)
    requires WellFormed(tokens) && upto <= |tokens.keys|
  {
    if upto == 0 then (line, false)
    else
      var (l, modified) := SubstituteTokens(line, tokens, upto - 1);
      var key := tokens.keys[upto - 1];
      var pat := "[" + key + "]";
      if Contains(l, pat) then (ReplaceAll(l, pat, tokens.vals[key]), true) else (l, modified)
  }

  /** `line =~ /^\s*(#|<!--)/`: some line of it starts, after blanks, a comment. */
  predicate CommentStart(line: string)
  {
    exists p | 0 <= p <= |line| :: LineStart(line, p) &&
      (StartsWith(line[RunEnd(line, p)..], "#") || StartsWith(line[RunEnd(line, p)..], "<!--"))
  }

  /** `gsub(/^#/, '')`: drop a `#` that starts a line. */
  function DropLeadingHash(s: string, atLineStart: bool): string
  {
    if s == [] then []
    else if atLineStart && s[0] == '#' then DropLeadingHash(s[1..], false)
    else [s[0]] + DropLeadingHash(s[1..], s[0] == '\n')
  }

  /** `gsub(/-->$/, '')`: drop a `-->` that ends a line. */
  function DropTrailingClose(s: string): string
  {
    if s == [] then []
    else if StartsWith(s, "-->") && (|s| == 3 || s[3] == '\n') then DropTrailingClose(s[3..])
    else [s[0]] + DropTrailingClose(s[1..])
  }

  /** The commented line with its comment markers removed. */
  function Uncomment(line: string): string
  {
    DropTrailingClose(ReplaceAll(DropLeadingHash(line, true), "<!--", ""))
  }

  /** The written lines and the replacement waiting for the next line. */
  datatype Rewrite = Rewrite(result: seq<string>, pending: Option<string>)

  /** One line through the loop of `substitute_file`. */
  function RewriteStep(st: Rewrite, line: string, tokens: OMap<string>): Rewrite
    requires WellFormed(tokens)
  {
    if st.pending.Some? then Rewrite(st.result + [st.pending.value], None)
    else
      var (l, modified) := SubstituteTokens(line, tokens, |tokens.keys|);
      if modified && CommentStart(l) then Rewrite(st.result + [line], Some(Uncomment(l)))
      else Rewrite(st.result + [l], None)
  }

  function RewriteLines(lines: seq<string>, tokens: OMap<string>): Rewrite
    requires WellFormed(tokens)
  {
    if lines == [] then Rewrite([], None)
    else RewriteStep(RewriteLines(lines[..|lines| - 1], tokens), lines[|lines| - 1], tokens)
  }

  /** The token loop for one line. */
  method SubstituteLine(line: string, tokens: OMap<string>) returns (l: string, modified: bool)
    requires WellFormed(tokens)
    ensures (l, modified) == SubstituteTokens(line, tokens, |tokens.keys|)
  {
    l, modified := line, false;
    var k := 0;
    while k < |tokens.keys|
      invariant 0 <= k <= |tokens.keys|
      invariant (l, modified) == SubstituteTokens(line, tokens, k)
    {
      var key := tokens.keys[k];
      var pat := "[" + key + "]";
      if Contains(l, pat) {
        modified := true;
        l := ReplaceAll(l, pat, tokens.vals[key]);
      }
      k := k + 1;
    }
  }

  /** `substitute_file`: the lines to write back to the file `lines` was read
      from (nothing for no file name; a missing file raises). */
  method SubstituteFile(fname: Option<string>, fileExists: bool, lines: seq<string>, tokens: OMap<string>)
    returns (r: Result<Option<seq<string>>, RubyError>)
    requires WellFormed(tokens)
    ensures fname.None? ==> r == Ok(None)
    ensures fname.Some? && !fileExists ==> r == Err(MissingFile(fname.value))
    ensures fname.Some? && fileExists ==> r == Ok(Some(RewriteLines(lines, tokens).result))
  {
    if fname.None? {
      return Ok(None);
    }
    if !fileExists {
      return Err(MissingFile(fname.value));
    }
    var ls := lines;
    var result: seq<string> := [];
    var nextLine: Option<string> := None;
    var i := 0;
    while i < |ls|
      invariant 0 <= i <= |ls|
      invariant Rewrite(result, nextLine) == RewriteLines(ls[..i], tokens)
    {
      assert ls[..i + 1][..i] == ls[..i];
      var line := ls[i];
      if nextLine.Some? {
        result := result + [nextLine.value];
        nextLine := None;
      } else {
        var original := line;
        var l, modified := SubstituteLine(line, tokens);
        if modified && CommentStart(l) {
          result := result + [original];
          nextLine := Some(Uncomment(l));
        } else {
          result := result + [l];
        }
      }
      i := i + 1;
    }
    assert ls[..i] == ls;
    r := Ok(Some(result));
  }

  /** As many lines are written as were read: a commented line is kept and
      only the line after it is replaced (a replacement still waiting when the
      file ends is lost). */
  lemma {:induction false} RewriteLength(lines: seq<string>, tokens: OMap<string>)
    requires WellFormed(tokens)
    ensures |RewriteLines(lines, tokens).result| == |lines|
  {
    if lines != [] {
      RewriteLength(lines[..|lines| - 1], tokens);
    }
  }

  /** No `[KEY]` of the tokens occurs in `line`. */
  predicate NoToken(line: string, tokens: OMap<string>)
  {
    forall k | k in tokens.keys :: !Contains(line, "[" + k + "]")
  }

  /** With no token in any line the file is written back unchanged. */
  lemma {:induction false} RewriteUntouched(lines: seq<string>, tokens: OMap<string>)
    requires WellFormed(tokens)
    requires forall i | 0 <= i < |lines| :: NoToken(lines[i], tokens)
    ensures RewriteLines(lines, tokens) == Rewrite(lines, None)
  {
    if lines != [] {
      var init, last := lines[..|lines| - 1], lines[|lines| - 1];
      assert forall i | 0 <= i < |init| :: init[i] == lines[i];
      RewriteUntouched(init, tokens);
      TokensAbsent(last, tokens, |tokens.keys|);
      assert RewriteLines(lines, tokens) == RewriteStep(Rewrite(init, None), last, tokens);
      assert init + [last] == lines;
    }
  }

  lemma {:induction false} TokensAbsent(line: string, tokens: OMap<string>, upto: nat)
    requires WellFormed(tokens) && upto <= |tokens.keys|
    requires NoToken(line, tokens)
    ensures SubstituteTokens(line, tokens, upto) == (line, false)
  {
    if upto > 0 {
      TokensAbsent(line, tokens, upto - 1);
    }
  }

  /** Where no substituted line is a comment, each line is replaced by its
      substitution, one for one. */
  lemma {:induction false} RewriteNoComments(lines: seq<string>, tokens: OMap<string>)
    requires WellFormed(tokens)
    requires forall i | 0 <= i < |lines| ::
      !(SubstituteTokens(lines[i], tokens, |tokens.keys|).1 && CommentStart(SubstituteTokens(lines[i], tokens, |tokens.keys|).0))
    ensures RewriteLines(lines, tokens).pending.None?
    ensures |RewriteLines(lines, tokens).result| == |lines|
    ensures forall i | 0 <= i < |lines| :: RewriteLines(lines, tokens).result[i] == SubstituteTokens(lines[i], tokens, |tokens.keys|).0
  {
    if lines != [] {
      var init := lines[..|lines| - 1];
      assert forall i | 0 <= i < |init| :: init[i] == lines[i];
      RewriteNoComments(init, tokens);
    }
  }

  /** A substituted comment line keeps its original text and replaces the line
      after it with the uncommented substitution. */
  lemma CommentRule(st: Rewrite, line: string, next: string, tokens: OMap<string>)
    requires WellFormed(tokens) && st.pending.None?
    requires SubstituteTokens(line, tokens, |tokens.keys|).1 && CommentStart(SubstituteTokens(line, tokens, |tokens.keys|).0)
    ensures RewriteStep(RewriteStep(st, line, tokens), next, tokens) ==
      Rewrite(st.result + [line, Uncomment(SubstituteTokens(line, tokens, |tokens.keys|).0)], None)
  {
  }
}
