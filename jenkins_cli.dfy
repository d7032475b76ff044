/**
 * The job-maintenance command line of bin/jenkins_cli.py: its flag rules,
 * the property file it reads, the property substitution it applies to job
 * configurations and names, and the way a cloned job keeps its
 * enabled/disabled state when an existing copy is updated.
 */
module JenkinsCli {
  import opened Common

  // ---------------------------------------------------------------------
  // Fixed regular expressions
  // ---------------------------------------------------------------------

  /** `re.match('.+<c>.+', s)`: some `c` has at least one character before it
      and one after it, none of them a newline (`.` stops at a newline). */
  predicate SeparatedBy(s: string, c: char)
  {
    exists i | 1 <= i < |s| - 1 :: s[i] == c && '\n' !in s[..i + 2]
  }

  /** `re.match('^\s*#', s)`: the first non-blank character is `#`. */
  predicate CommentLine(s: string)
  {
    var t := LStrip(s);
    |t| > 0 && t[0] == '#'
  }

  // ---------------------------------------------------------------------
  // read_property_file
  // ---------------------------------------------------------------------

  /** The key and value a property-file line contributes, if any. */
  function PropertyOf(line: string): (r: Option<(string, string)>)
    ensures r.Some? ==> !CommentLine(RStrip(line)) && SeparatedBy(RStrip(line), '=')
    ensures r.Some? ==> RStrip(line) == r.value.0 + "=" + r.value.1 && '=' !in r.value.0
    ensures r.None? ==> CommentLine(RStrip(line)) || !SeparatedBy(RStrip(line), '=')
  {
    var t := RStrip(line);
    if CommentLine(t) then None
    else if SeparatedBy(t, '=') then
      var i :| 1 <= i < |t| - 1 && t[i] == '=' && '\n' !in t[..i + 2];
      assert '=' in t;
      SplitOnce(t, '=')
    else None
  }

  /** The dictionary the file's lines build, in order. */
  function Properties(lines: seq<string>): (m: OMap<string>)
    ensures WellFormed(m)
  {
    if lines == [] then EmptyMap()
    else
      var m := Properties(lines[..|lines| - 1]);
      match PropertyOf(lines[|lines| - 1])
      case None => m
      case Some((k, v)) => Put(m, k, v)
  }

  /** Reference reading of the property file: the value of the last kept line
      with key `k`, scanning from the bottom. */
  function LastValue(lines: seq<string>, k: string): Option<string>
  {
    if lines == [] then None
    else
      var p := PropertyOf(lines[|lines| - 1]);
      if p.Some? && p.value.0 == k then Some(p.value.1) else LastValue(lines[..|lines| - 1], k)
  }

  /** A key is defined exactly when some kept line has it, and a later
      duplicate overwrites an earlier one. */
  lemma {:induction false} PropertiesLastWins(lines: seq<string>, k: string)
    ensures k in Properties(lines).vals <==> LastValue(lines, k).Some?
    ensures k in Properties(lines).vals ==> Properties(lines).vals[k] == LastValue(lines, k).value
  {
    if lines != [] {
      PropertiesLastWins(lines[..|lines| - 1], k);
    }
  }

  /** The keys keep the order in which they first appeared. */
  lemma {:induction false} PropertiesKeyOrder(lines: seq<string>, more: string)
    ensures PropertyOf(more).Some? && PropertyOf(more).value.0 !in Properties(lines).vals ==>
      Properties(lines + [more]).keys == Properties(lines).keys + [PropertyOf(more).value.0]
    ensures PropertyOf(more).Some? && PropertyOf(more).value.0 in Properties(lines).vals ==>
      Properties(lines + [more]).keys == Properties(lines).keys
    ensures PropertyOf(more).None? ==> Properties(lines + [more]) == Properties(lines)
  {
    assert (lines + [more])[..|lines|] == lines;
  }

  /** The file loop: one line at a time into a dictionary. */
  method ReadPropertyFile(lines: seq<string>) returns (props: OMap<string>)
    ensures props == Properties(lines)
    ensures WellFormed(props)
  {
    props := EmptyMap();
    var n := 0;
    while n < |lines|
      invariant 0 <= n <= |lines|
      invariant props == Properties(lines[..n]) && WellFormed(props)
    {
      assert lines[..n + 1][..n] == lines[..n];
      var kv := PropertyOf(lines[n]);
      if kv.Some? {
        props := Put(props, kv.value.0, kv.value.1);
      }
      n := n + 1;
    }
    assert lines[..n] == lines;
  }

  // ---------------------------------------------------------------------
  // substitute_vars
  // ---------------------------------------------------------------------

  const BranchKey: string := "IMPORT_TO_BRANCH_VALUE"
  const StringSep: string := "</string>\n<string>"

  /** `re.match('.+string>$', v)`: `string>` ends the text (or precedes a
      final newline) with at least one non-newline character before it and
      no newline in between. */
  predicate EndsWithStringTag(v: string)
  {
    exists i | 1 <= i <= |v| :: '\n' !in v[..i] && (v[i..] == "string>" || v[i..] == "string>\n")
  }

  /** The value list of `IMPORT_TO_BRANCH_VALUE`: commas become spaces, then
      split at whitespace runs. */
  function BranchValues(val: string): seq<string>
  {
    SplitWs(ReplaceAll(val, ",", " "))
  }

  /** The expansion of the branch value: a single value stays as it is. */
  method ExpandBranchValue(val: string) returns (r: string)
    ensures |BranchValues(val)| == 1 ==> r == val
    ensures |BranchValues(val)| > 1 ==> r == Join(BranchValues(val), StringSep)
    ensures r == ExpandedValue(val)
  {
    var vals := BranchValues(val);
    r := val;
    if |vals| > 1 {
      r := JoinBranchValues(vals);
    }
  }

  /** The loop over several branch values: close the previous element unless
      the text already ends with a closing tag, then open the next one. */
  method JoinBranchValues(vals: seq<string>) returns (r: string)
    requires |vals| >= 2 && forall m :: 0 <= m < |vals| ==> NoSpace(vals[m])
    ensures r == Join(vals, StringSep)
  {
    r := vals[0] + "</string>";
    FirstElementClosed(vals[0]);
    var k := 1;
    while k < |vals|
      invariant 1 <= k <= |vals|
      invariant k == 1 ==> r == vals[0] + "</string>"
      invariant k >= 2 ==> r == Join(vals[..k], StringSep)
    {
      ghost var joined := Join(vals[..k], StringSep);
      if k >= 2 {
        NoTagAfterJoin(vals, k);
      }
      if !EndsWithStringTag(r) {
        r := r + "</string>";
      }
      assert r == joined + "</string>" by {
        if k == 1 {
          assert vals[..1] == [vals[0]];
        }
      }
      r := r + "\n<string>" + vals[k];
      assert r == joined + StringSep + vals[k];
      JoinSnoc(vals[..k], vals[k]);
      assert vals[..k + 1] == vals[..k] + [vals[k]];
      k := k + 1;
    }
    assert vals[..k] == vals;
  }

  /** The first value with its closing tag passes the tag test. */
  lemma FirstElementClosed(v0: string)
    requires NoSpace(v0)
    ensures EndsWithStringTag(v0 + "</string>")
  {
    var r := v0 + "</string>";
    var i := |v0| + 2;
    assert r[..i] == v0 + "</";
    assert r[i..] == "string>";
  }

  lemma {:induction false} JoinSnoc(parts: seq<string>, last: string)
    requires |parts| >= 1
    ensures Join(parts + [last], StringSep) == Join(parts, StringSep) + StringSep + last
  {
    if |parts| > 1 {
      assert (parts + [last])[1..] == parts[1..] + [last];
      JoinSnoc(parts[1..], last);
    }
  }

  lemma {:induction false} JoinStartsWith(parts: seq<string>)
    requires |parts| >= 2
    ensures StartsWith(Join(parts, StringSep), parts[0] + StringSep)
  {
  }

  /** Once two values are joined, the text contains a newline before its last
      `string>`, so the tag test fails. */
  lemma NoTagAfterJoin(vals: seq<string>, k: nat)
    requires 2 <= k <= |vals| && forall m :: 0 <= m < |vals| ==> NoSpace(vals[m])
    ensures !EndsWithStringTag(Join(vals[..k], StringSep))
  {
    var v := Join(vals[..k], StringSep);
    var p := |vals[0]| + 9;
    JoinNewlineAt(vals[..k]);
    JoinLastChar(vals[..k]);
    forall i | 1 <= i <= |v| && (v[i..] == "string>" || v[i..] == "string>\n")
      ensures '\n' in v[..i]
    {
      assert v[i..][|v| - i - 1] == v[|v| - 1];
      assert v[..i][p] == '\n';
    }
  }

  /** Joined values hold the separator's newline right after the first value. */
  lemma JoinNewlineAt(parts: seq<string>)
    requires |parts| >= 2
    ensures var v := Join(parts, StringSep);
      |v| >= |parts[0]| + 18 && v[|parts[0]| + 9] == '\n'
  {
    JoinStartsWith(parts);
    var v := Join(parts, StringSep);
    assert v[..|parts[0]| + |StringSep|] == parts[0] + StringSep;
  }

  /** Joined values end with the last value, after the separator's `>`, so
      they end with a newline only when the last value does. */
  lemma JoinLastChar(parts: seq<string>)
    requires |parts| >= 2 && NoSpace(parts[|parts| - 1])
    ensures var v := Join(parts, StringSep); |v| >= 1 && v[|v| - 1] != '\n'
  {
    var init := parts[..|parts| - 1];
    var last := parts[|parts| - 1];
    JoinSnoc(init, last);
    assert parts == init + [last];
    var v := Join(parts, StringSep);
    assert v == Join(init, StringSep) + StringSep + last;
    if |last| > 0 {
      assert v[|v| - 1] == last[|last| - 1];
    } else {
      assert v[|v| - 1] == '>';
    }
  }

  /** One step of the loop: a property name replaced by its (expanded) value. */
  function SubstituteOne(text: string, name: string, val: string): string
  {
    ReplaceAll(text, name, if name == BranchKey then ExpandedValue(val) else val)
  }

  /** The branch value as the expansion loop leaves it. */
  function ExpandedValue(val: string): string
  {
    if |BranchValues(val)| > 1 then Join(BranchValues(val), StringSep) else val
  }

  /** The text after substituting the properties named in `names`, in order. */
  function Substituted(text: string, props: map<string, string>, names: seq<string>): string
    requires forall n | n in names :: n in props
  {
    if names == [] then text
    else SubstituteOne(Substituted(text, props, names[..|names| - 1]), names[|names| - 1], props[names[|names| - 1]])
  }

  /** The loop of `substitute_vars` over the properties in key order. */
  method SubstituteVars(text: string, props: OMap<string>) returns (r: string)
    requires WellFormed(props)
    ensures r == Substituted(text, props.vals, props.keys)
  {
    r := text;
    var n := 0;
    while n < |props.keys|
      invariant 0 <= n <= |props.keys|
      invariant r == Substituted(text, props.vals, props.keys[..n])
    {
      var name := props.keys[n];
      var val := props.vals[name];
      if name == BranchKey {
        val := ExpandBranchValue(val);
      }
      assert val == (if name == BranchKey then ExpandedValue(props.vals[name]) else props.vals[name]);
      r := ReplaceAll(r, name, val);
      assert props.keys[..n + 1][..n] == props.keys[..n];
      assert r == SubstituteOne(Substituted(text, props.vals, props.keys[..n]), name, props.vals[name]);
      n := n + 1;
    }
    assert props.keys[..n] == props.keys;
  }

  /** Text that mentions no (non-empty) property name comes out unchanged. */
  lemma {:induction false} SubstituteNothing(text: string, props: map<string, string>, names: seq<string>)
    requires forall n | n in names :: n in props && n != [] && !Contains(text, n)
    ensures Substituted(text, props, names) == text
  {
    if names != [] {
      var init := names[..|names| - 1];
      assert forall n | n in init :: n in names;
      SubstituteNothing(text, props, init);
      var name := names[|names| - 1];
      assert name in names && name in props && name != [] && !Contains(text, name);
      ReplaceAllAbsent(text, name, if name == BranchKey then ExpandedValue(props[name]) else props[name]);
    }
  }

  /** A single branch value is used as it is, several become one XML
      `string` element each (the template supplies the outer tags). */
  lemma ExpandedValueShape(val: string)
    ensures NoSpace(ReplaceAll(val, ",", " ")) ==> ExpandedValue(val) == val
    ensures |BranchValues(val)| > 1 ==>
      ExpandedValue(val) == Join(BranchValues(val), StringSep) && Contains(ExpandedValue(val), StringSep)
  {
    var vals := BranchValues(val);
    if |vals| > 1 {
      JoinStartsWith(vals);
      assert OccursAt(Join(vals, StringSep), StringSep, |vals[0]|);
    }
  }

  // ---------------------------------------------------------------------
  // is_job_disabled
  // ---------------------------------------------------------------------

  /** An entry of the job list a Jenkins server reports. */
  datatype JobEntry = JobEntry(name: string, color: string)

  /** The first entry named `job` decides; an absent job counts as enabled. */
  function IsJobDisabled(job: string, jobList: seq<JobEntry>): bool
  {
    if jobList == [] then false
    else if jobList[0].name == job then jobList[0].color == "disabled"
    else IsJobDisabled(job, jobList[1..])
  }

  /** Disabled exactly when some entry has the name and the colour `disabled`
      and no earlier entry has the name. */
  lemma {:induction false} IsJobDisabledSpec(job: string, jobList: seq<JobEntry>)
    ensures IsJobDisabled(job, jobList) <==>
      exists i | 0 <= i < |jobList| :: jobList[i].name == job && jobList[i].color == "disabled" &&
        forall j | 0 <= j < i :: jobList[j].name != job
  {
    if jobList != [] {
      IsJobDisabledSpec(job, jobList[1..]);
      if jobList[0].name != job && IsJobDisabled(job, jobList) {
        var i :| 0 <= i < |jobList[1..]| && jobList[1..][i].name == job && jobList[1..][i].color == "disabled" &&
          forall j | 0 <= j < i :: jobList[1..][j].name != job;
        assert forall j | 0 <= j < i + 1 :: jobList[j].name != job by {
          forall j | 0 <= j < i + 1 ensures jobList[j].name != job {
            if j > 0 { assert jobList[j] == jobList[1..][j - 1]; }
          }
        }
      }
      if jobList[0].name != job && !IsJobDisabled(job, jobList) {
        forall i | 0 <= i < |jobList| && jobList[i].name == job && jobList[i].color == "disabled"
          ensures exists j | 0 <= j < i :: jobList[j].name == job
        {
          assert i > 0;
          assert jobList[i] == jobList[1..][i - 1];
          var j :| 0 <= j < i - 1 && jobList[1..][j].name == job;
          assert jobList[j + 1].name == job;
        }
      }
    }
  }

  lemma {:induction false} AbsentJobEnabled(job: string, jobList: seq<JobEntry>)
    requires forall i | 0 <= i < |jobList| :: jobList[i].name != job
    ensures !IsJobDisabled(job, jobList)
  {
    if jobList != [] {
      AbsentJobEnabled(job, jobList[1..]);
    }
  }

  // ---------------------------------------------------------------------
  // parse_args flag rules
  // ---------------------------------------------------------------------

  /** The options the checks look at; an empty string is an option not given. */
  datatype Flags = Flags(
    clone: bool, update: bool, disable: bool, enable: bool, build: bool,
    delete: bool, show: bool, grep: bool, rename: bool, fetch: bool,
    fromTemplate: bool,
    grepPattern: string, contentPattern: string, jobnamePattern: string,
    destUrl: string, propertyFile: string)

  /** Why the command line was refused (each one ends the run with status 0). */
  datatype CliError =
    | MissingAction
    | GrepNeedsPattern
    | CloneAndUpdate
    | UpdateNeedsContentPattern
    | CloneNeedsTarget
    | RenameNeedsJobnamePattern
    | MalformedJobnamePattern
    | TemplateNeedsPropertyFile
    | NoDashInName(name: string)

  predicate AnyAction(f: Flags)
  {
    f.clone || f.update || f.disable || f.enable || f.build || f.delete || f.show || f.grep || f.rename || f.fetch
  }

  /** The rule whose violation produces error `e`. */
  predicate Rule(f: Flags, e: CliError)
  {
    match e
    case MissingAction => AnyAction(f)
    case GrepNeedsPattern => f.grep ==> f.grepPattern != ""
    case CloneAndUpdate => !(f.clone && f.update)
    case UpdateNeedsContentPattern => f.update ==> f.contentPattern != ""
    case CloneNeedsTarget => f.clone ==> f.fromTemplate || f.jobnamePattern != "" || f.destUrl != ""
    case RenameNeedsJobnamePattern => f.rename ==> f.jobnamePattern != ""
    case MalformedJobnamePattern => f.jobnamePattern != "" ==> SeparatedBy(f.jobnamePattern, '|')
    case TemplateNeedsPropertyFile => f.fromTemplate ==> f.propertyFile != ""
    case NoDashInName(_) => true
  }

  /** The order in which the rules are checked. */
  const CheckOrder: seq<CliError> := [MissingAction, GrepNeedsPattern, CloneAndUpdate, UpdateNeedsContentPattern,
                                      CloneNeedsTarget, RenameNeedsJobnamePattern, MalformedJobnamePattern,
                                      TemplateNeedsPropertyFile]

  /** The flag checks of `parse_args`. */
  function ValidateArgs(f: Flags): (r: Result<Flags, CliError>)
    ensures r.Ok? ==> r.value == f
  {
    if !AnyAction(f) then Err(MissingAction)
    else if f.grep && f.grepPattern == "" then Err(GrepNeedsPattern)
    else if f.clone && f.update then Err(CloneAndUpdate)
    else if f.update && f.contentPattern == "" then Err(UpdateNeedsContentPattern)
    else if f.clone && !(f.fromTemplate || f.jobnamePattern != "" || f.destUrl != "") then Err(CloneNeedsTarget)
    else if f.rename && f.jobnamePattern == "" then Err(RenameNeedsJobnamePattern)
    else if f.jobnamePattern != "" && !SeparatedBy(f.jobnamePattern, '|') then Err(MalformedJobnamePattern)
    else if f.fromTemplate && f.propertyFile == "" then Err(TemplateNeedsPropertyFile)
    else Ok(f)
  }

  /** The flags are accepted exactly when every rule holds; a refusal names the
      first rule, in checking order, that fails. */
  lemma ValidateArgsSpec(f: Flags)
    ensures ValidateArgs(f).Ok? <==> forall i | 0 <= i < |CheckOrder| :: Rule(f, CheckOrder[i])
    ensures ValidateArgs(f).Err? ==>
      exists i | 0 <= i < |CheckOrder| :: CheckOrder[i] == ValidateArgs(f).error && !Rule(f, CheckOrder[i]) &&
        forall j | 0 <= j < i :: Rule(f, CheckOrder[j])
  {
    var r := ValidateArgs(f);
    if r.Err? {
      var i := if r.error == MissingAction then 0
        else if r.error == GrepNeedsPattern then 1
        else if r.error == CloneAndUpdate then 2
        else if r.error == UpdateNeedsContentPattern then 3
        else if r.error == CloneNeedsTarget then 4
        else if r.error == RenameNeedsJobnamePattern then 5
        else if r.error == MalformedJobnamePattern then 6
        else 7;
      assert CheckOrder[i] == r.error;
    } else {
      assert forall i | 0 <= i < |CheckOrder| :: Rule(f, CheckOrder[i]) by {
        forall i | 0 <= i < |CheckOrder| ensures Rule(f, CheckOrder[i]) {
          assert i in {0, 1, 2, 3, 4, 5, 6, 7};
        }
      }
    }
  }

  /** An accepted `<find|replace>` pattern always splits at its first `|`. */
  lemma FindReplaceSplits(pattern: string)
    requires SeparatedBy(pattern, '|')
    ensures SplitOnce(pattern, '|').Some?
    ensures pattern == SplitOnce(pattern, '|').value.0 + "|" + SplitOnce(pattern, '|').value.1
    ensures '|' !in SplitOnce(pattern, '|').value.0 && |SplitOnce(pattern, '|').value.1| >= 1
  {
    var i :| 1 <= i < |pattern| - 1 && pattern[i] == '|' && '\n' !in pattern[..i + 2];
    var j := Find(pattern, '|').value;
    assert j <= i;
  }

  // ---------------------------------------------------------------------
  // Cloning
  // ---------------------------------------------------------------------

  /** The template name: the first matching job's text before its first `-`. */
  function TemplateName(firstJob: string): (r: Result<string, CliError>)
    ensures r.Ok? <==> '-' in firstJob
    ensures r.Ok? ==> '-' !in r.value && StartsWith(firstJob, r.value + "-")
  {
    match SplitOnce(firstJob, '-')
    case None => Err(NoDashInName(firstJob))
    case Some((t, _)) =>
      assert firstJob[..|t| + 1] == t + "-";
      Ok(t)
  }

  /** A job cloned from a template drops everything up to its first `-`. */
  function ClonedFromTemplate(job: string): (r: Result<string, CliError>)
    ensures r.Ok? <==> '-' in job
  {
    match SplitOnce(job, '-')
    case None => Err(NoDashInName(job))
    case Some((_, rest)) => Ok(rest)
  }

  /** Splitting a template job's name gives back the name. */
  lemma TemplateNameRoundTrip(job: string)
    requires '-' in job
    ensures TemplateName(job).value + "-" + ClonedFromTemplate(job).value == job
  {
  }

  /** The destination name of a cloned job: drop the template prefix, apply the
      `<find|replace>` renaming when given, then substitute the properties. */
  function CloneName(job: string, fromTemplate: bool, rename: Option<string -> string>, props: OMap<string>)
    : (r: Result<string, CliError>)
    requires WellFormed(props)
    ensures r.Ok? <==> !fromTemplate || '-' in job
    ensures r.Err? ==> r.error == NoDashInName(job)
  {
    var base := if fromTemplate then ClonedFromTemplate(job) else Ok(job);
    match base
    case Err(e) => Err(e)
    case Ok(b) =>
      var renamed := match rename case Some(sub) => sub(b) case None => b;
      Ok(Substituted(renamed, props.vals, props.keys))
  }

  /** Without renaming and without property names in it, a template clone is
      named by the text after the template's `-`. */
  lemma CloneNameFromTemplate(job: string, props: OMap<string>)
    requires WellFormed(props) && '-' in job
    requires forall n | n in props.keys :: n != [] && !Contains(ClonedFromTemplate(job).value, n)
    ensures CloneName(job, true, None, props).Ok?
    ensures TemplateName(job).value + "-" + CloneName(job, true, None, props).value == job
  {
    SubstituteNothing(ClonedFromTemplate(job).value, props.vals, props.keys);
  }

  /** A job on the destination server. */
  datatype JobState = JobState(config: string, disabled: bool)

  /** The destination Jenkins server's jobs. */
  class JenkinsServer {
    var jobs: map<string, JobState>

    constructor (jobs: map<string, JobState>)
      ensures this.jobs == jobs
    {
      this.jobs := jobs;
    }

    /** The clone step for one job whose destination name and configuration are
        computed: an existing job is reconfigured and then disabled or enabled
        as `jobList` (listed before the loop) reported it; a missing job is
        created. `configDisables` is the state the new configuration itself
        sets; dry runs change nothing. */
    method CloneJob(name: string, config: string, jobList: seq<JobEntry>, dryrun: bool, configDisables: bool)
      modifies this
      ensures dryrun ==> jobs == old(jobs)
      ensures !dryrun && name in old(jobs) ==> jobs == old(jobs)[name := JobState(config, IsJobDisabled(name, jobList))]
      ensures !dryrun && name !in old(jobs) ==> jobs == old(jobs)[name := JobState(config, configDisables)]
    {
      if name in jobs {
        if !dryrun {
          var wasDisabled := IsJobDisabled(name, jobList);
          jobs := jobs[name := JobState(config, configDisables)];
          if wasDisabled {
            jobs := jobs[name := jobs[name].(disabled := true)];
          } else {
            jobs := jobs[name := jobs[name].(disabled := false)];
          }
        }
      } else {
        if !dryrun {
          jobs := jobs[name := JobState(config, configDisables)];
        }
      }
    }
  }

  /** The job list describes a job's state when its first entry for the job is
      coloured `disabled` exactly when the job is disabled. */
  predicate ListedState(jobList: seq<JobEntry>, name: string, disabled: bool)
  {
    exists i | 0 <= i < |jobList| :: jobList[i].name == name && (forall j | 0 <= j < i :: jobList[j].name != name) &&
      (jobList[i].color == "disabled" <==> disabled)
  }

  /** Updating an existing clone keeps its enabled/disabled state, whatever the
      new configuration says, as long as the job list was up to date. */
  lemma CloneKeepsState(jobList: seq<JobEntry>, name: string, disabled: bool)
    requires ListedState(jobList, name, disabled)
    ensures IsJobDisabled(name, jobList) == disabled
  {
    IsJobDisabledSpec(name, jobList);
    var i :| 0 <= i < |jobList| && jobList[i].name == name && (forall j | 0 <= j < i :: jobList[j].name != name) &&
      (jobList[i].color == "disabled" <==> disabled);
    if IsJobDisabled(name, jobList) {
      var i' :| 0 <= i' < |jobList| && jobList[i'].name == name && jobList[i'].color == "disabled" &&
        forall j | 0 <= j < i' :: jobList[j].name != name;
      assert i == i';
    }
  }
}
