# Inventory, Jenkins and build-pipeline tooling, modelled in Dafny

This project models the decision logic of six files of a small operations
tool box:

- `bin/redis_cli.py` is a blue/green inventory manager. Each service has a
  record in a key-value store, with an optional passive replica. A record
  holds `_meta.hostvars` and role groups. The tool lists filtered views of
  a record, reconciles a record with a freshly generated topology, flips
  blue/green states and active/inactive statuses, and lists the blue hosts.
  It is modelled by module `Inventory` (`inventory.dfy`). The store is the
  class `InventoryStore`, whose fields are the primary map, the optional
  replica map and the side files the listings write.
- `bin/jenkins_cli.py` is a Jenkins job cloning command. The model covers
  the property-file parser, the expansion of `IMPORT_TO_BRANCH_VALUE`, the
  flag-consistency rules, the disabled-job lookup, template clone naming
  and keeping a job's state when it is updated. It is modelled by module
  `JenkinsCli` (`jenkins_cli.dfy`). The destination server is the class
  `JenkinsServer`.
- `ruby.tools/lib/utils.rb` holds the Ruby build helpers: job-name parsing,
  configuration lookups, `merge!` of build tokens, the build-number scan,
  the bounded retry loop and the `[KEY]` file substitution. They are in
  module `RubyUtils` (`ruby_utils.dfy`). The configuration hash is the class
  `Config`.
- `ruby.tools/lib/project.rb` is the project step driver: `initialize`,
  `run`, the release-history update and the tag names. It is modelled by
  module `ProjectTasks` (`project.dfy`). The class variables are the fields
  of the class `Project`. The files it reads and writes are a map from path
  to loaded value.
- `lib/utils.py` holds the host utilities. `Command.run` keeps the last
  output. The Ubuntu and Mac hosts check partitions in `df` output. The
  file also has `create_host` and `Utils.load_properties`. They are in
  module `HostUtils` (`host_utils.dfy`), with the classes `Command`, `Host`,
  `Environ` (the process environment) and `Utils`.
- `lib/jmon_utils.py` is the Jenkins monitoring run: the plugin check, the
  build-log purge and the pass/fail bookkeeping of the run. It is modelled
  by module `JenkinsMonitor` (`jenkins_monitor.dfy`). The Python subclasses
  become delegation:
  - `JenkinsHost` holds a `Host` of kind `UbuntuHost`;
  - `JenkinsMonitoring` holds a `Utils` and a `JenkinsHost`.

Module `Common` (`common.dfy`) holds what the others share. That is
insertion-ordered dictionaries (`OMap`, as Python dicts and Ruby hashes
keep their keys), `Option` and `Result`, and the string primitives the code
uses: split, join, strip, find, replace, decimal conversion and Python
`int()`.

Everything the code receives from outside is a parameter:

- command output is a string, and a whole process run is `Proc(out, err, status)`;
- directory listings are sequences;
- a build directory's age is a whole number of days, or None when its stat fails;
- a Jenkins job list is a sequence of `{name, color}`;
- the retried command is a function from attempt number to result.

An exception or an `exit(1)` is an `Err` result. Any state change made
before it stays.

## Model

| member | source | states |
|---|---|---|
| Inventory.SelectedHosts | bin/redis_cli.py:172-179 | A host is in `servers` iff it is a hostvars key that passes the filter: 'all', or its `bg_state`, or its `svc_status` equals the filter |
| Inventory.SplitRoleSpec | bin/redis_cli.py:191-201 | The role loop succeeds iff every host has status `active` or `inactive`. It then gives the active hosts, the inactive hosts and the hosts among `servers`, each in role order |
| Inventory.PartitionComplete | bin/redis_cli.py:191-199 | The active and inactive lists together are the role's host list as a multiset: no host lost or duplicated |
| Inventory.WithStatusMembers | bin/redis_cli.py:192-196 | A host is in the `active_`/`inactive_` list iff it is a role host with that status |
| Inventory.NoOverlap | bin/redis_cli.py:192-196 | No host is in both the active and the inactive list |
| Inventory.KeptHostsMembers | bin/redis_cli.py:200-201 | A host is kept iff it is a role host and one of `servers` |
| Inventory.KeptHostsAll | bin/redis_cli.py:200-201 | When every role host is a server, the role's list is kept whole and in order |
| Inventory.DerivedNamesDiffer | bin/redis_cli.py:202-203 | `active_<r>` never equals `inactive_<r'>`, and each prefix is injective, so derived groups of different roles never collide |
| Inventory.ApplyRolesSpec | bin/redis_cli.py:182-204 | After the role loop, each processed non-empty role has its three lists. Every other role keeps its list and has no derived groups |
| Inventory.ApplyRolesStep | bin/redis_cli.py:182-204 | Processing one more role keeps the outcome of every role already processed |
| Inventory.ViewSpec | bin/redis_cli.py:165-205 | The view exists iff every role host has a known status. It then keeps `_meta`. A non-empty role gets `active_<r>`, `inactive_<r>` and its list cut to the filtered hosts. An empty role stays empty with no derived groups |
| Inventory.ApplyRolesOkIff | bin/redis_cli.py:191-199 | The role loop fails iff some processed role has a host with an unknown status |
| Inventory.FilterAllKeepsEverything | bin/redis_cli.py:174-175 | With filter 'all' every role keeps its whole host list |
| Inventory.KeptMeansMatching | bin/redis_cli.py:172-179 | A role keeps exactly its hosts that pass the filter |
| Inventory.CarryOver | bin/redis_cli.py:218-223 | The merge loop keeps the new topology's host keys and their order |
| Inventory.CarryOverSpec | bin/redis_cli.py:218-223 | The merge fails iff a host with old attributes lacks `bg_state` or `svc_status`. Otherwise a host known to the old record (with some attribute) takes its two old states, and every other host keeps the generated entry |
| Inventory.ReconcileSpec | bin/redis_cli.py:211-225 | The merged record has exactly the new topology's roles and hosts (old-only hosts dropped). Hosts in both take their old states; new-only hosts keep the generated values |
| Inventory.ReconcileFails | bin/redis_cli.py:212-223 | Reconciling fails iff the new topology has no hosts, or a carried-over host misses one of the two states |
| Inventory.FlipBgSpec | bin/redis_cli.py:270-278 | Blue and green are swapped, any other `bg_state` stays, and `svc_status` and other attributes are untouched |
| Inventory.SwitchTwice | bin/redis_cli.py:262-283 | Switching twice restores the record |
| Inventory.ToggleTwice | bin/redis_cli.py:286-304 | Toggling twice restores the record |
| Inventory.FlipsIndependent | bin/redis_cli.py:270-300 | A switch never changes a `svc_status`, a toggle never changes a `bg_state`, and neither changes the roles |
| Inventory.BlueHosts | bin/redis_cli.py:320-323 | A host is listed iff it is a hostvars key whose `bg_state` is blue |
| Inventory.Mirrored | bin/redis_cli.py:306-311 | The replica gains every `*-service` record of the store verbatim and keeps its other keys |
| Inventory.SplitRoleHosts | bin/redis_cli.py:191-201 | The host loop of one role computes the role function, stopping at the first unknown status |
| Inventory.SplitRolePrefixErr | bin/redis_cli.py:197-199 | Once a prefix of the role fails, the whole role fails with the same error |
| Inventory.ApplyRolesPrefixErr | bin/redis_cli.py:182-199 | Once a prefix of the roles fails, the whole loop fails with the same error |
| Inventory.CarryOverPrefixErr | bin/redis_cli.py:218-223 | Once a prefix of the merge fails, the whole merge fails with the same error |
| Inventory.ComputeView | bin/redis_cli.py:171-205 | The two loops of a listing compute the filtered view |
| Inventory.SelectServers | bin/redis_cli.py:172-179 | The filter loop over the hostvars keys gives exactly the hosts that pass the filter, in key order |
| Inventory.GroupRoles | bin/redis_cli.py:182-204 | The loop over the role keys gives the role outcome: the derived groups of every role, or the first unknown status |
| Inventory.CollectBlue | bin/redis_cli.py:318-328 | The loops of `get_blue_servers` compute the view in which every role lists the blue hosts |
| Inventory.AssignAll | bin/redis_cli.py:324-327 | Every role is set to the same host list, and no other key is added |
| Inventory.SwitchRecord | bin/redis_cli.py:269-279 | The host loop gives the switched record |
| Inventory.ToggleRecord | bin/redis_cli.py:293-303 | The host loop gives the toggled record |
| Inventory.MirrorServices | bin/redis_cli.py:308-311 | The copy loop gives the mirrored replica |
| Inventory.InventoryStore.constructor | bin/redis_cli.py:408-414 | The store starts with the given primary and replica and no side files |
| Inventory.InventoryStore.GetStoredInventory | bin/redis_cli.py:165-205 | A missing record fails with nothing changed; otherwise the result is the filtered view of the stored record |
| Inventory.InventoryStore.GetUpdatedInventory | bin/redis_cli.py:208-259 | A failed reconcile leaves the store alone. Otherwise the merged record replaces the old one before the view is computed, and the view is the merged record's |
| Inventory.InventoryStore.CarryOverStates | bin/redis_cli.py:218-223 | The loop over the new hostvars carries the old states over, or fails at the first carried host missing one |
| Inventory.InventoryStore.SwitchBgState | bin/redis_cli.py:262-283 | A missing record fails before any write. Otherwise the switched record goes to the primary and, when there is one, to the replica, and nothing else changes |
| Inventory.InventoryStore.ToggleSvcStatus | bin/redis_cli.py:286-314 | A missing record fails before any write. Otherwise the toggled record goes to the primary. For the root service the replica gets every `*-service` record; for any other service, this record |
| Inventory.InventoryStore.GetBlueServers | bin/redis_cli.py:317-328 | The result is the blue view of the stored record; a missing record is an error |
| Inventory.InventoryStore.ListInventory | bin/redis_cli.py:331-342 | Without a default inventory, the stored record's view is listed, or the missing-record error. A generator failure changes nothing. With a generated record, a failed reconcile changes nothing; otherwise the merged record is stored and its filtered view listed. The side file is written only when the listing succeeds, and the replica never changes |
| Inventory.InventoryStore.RefreshInventory | bin/redis_cli.py:345-348 | The generated record replaces the stored one verbatim; a generator failure changes nothing |
| Inventory.InventoryStore.ToggleCommand | bin/redis_cli.py:408-441 | With one named server the unbound replica variable raises and nothing changes. Toggling the root service without a replica fails and changes nothing. A missing record fails and changes nothing. Otherwise the record is toggled, and the replica gets the mirrored services (root) or this record |
| Inventory.InventoryStore.SwitchCommand | bin/redis_cli.py:408-444 | With one named server the unbound replica variable raises and nothing changes. A missing record fails and changes nothing. Otherwise the switched record goes to the primary and, when there is one, the replica |
| Inventory.ServiceKeyAlwaysAppends | bin/redis_cli.py:422-423 | As written, for a name without regex metacharacters, the key is always the name plus `-service` |
| Inventory.ServiceKeyDoubleSuffix | bin/redis_cli.py:422-423 | As written, `redis-service` becomes `redis-service-service` |
| Inventory.ServiceKey | bin/redis_cli.py:421-423 | The intended key ends with `-service`. A name that has the suffix is kept; any other gets it appended |
| Inventory.ServiceKeyIdempotent | bin/redis_cli.py:421-423 | Normalising a normalised key changes nothing |
| Inventory.ChooseFilter | bin/redis_cli.py:425-430 | `--svc_status` wins over `--bg_state`, which wins over 'all' |
| JenkinsCli.PropertyOf | bin/jenkins_cli.py:160-165 | A line gives a property iff, right-stripped, it is not a comment and matches `.+=.+`. The key is the text before the first `=` and the value the rest |
| JenkinsCli.Properties | bin/jenkins_cli.py:157-166 | The dictionary's keys are distinct |
| JenkinsCli.PropertiesLastWins | bin/jenkins_cli.py:159-165 | A key is defined iff some kept line has it, and its value is the last such line's |
| JenkinsCli.PropertiesKeyOrder | bin/jenkins_cli.py:165 | A new key is appended, a repeated key keeps its place with the new value, and a skipped line changes nothing |
| JenkinsCli.ReadPropertyFile | bin/jenkins_cli.py:157-166 | The file loop builds the property dictionary |
| JenkinsCli.ExpandBranchValue | bin/jenkins_cli.py:173-183 | A single branch value is kept as is; several are joined with `</string>\n<string>` |
| JenkinsCli.JoinBranchValues | bin/jenkins_cli.py:178-183 | With two or more values, the loop gives the values joined by `</string>\n<string>` |
| JenkinsCli.JoinSnoc | bin/jenkins_cli.py:180-183 | Each loop step appends the separator and the next value |
| JenkinsCli.JoinStartsWith | bin/jenkins_cli.py:179 | The expansion starts with the first value and its closing tag |
| JenkinsCli.NoTagAfterJoin | bin/jenkins_cli.py:181-182 | Once values are joined, `.+string>$` never matches again, so the loop always adds a closing tag |
| JenkinsCli.SubstituteVars | bin/jenkins_cli.py:169-185 | The loop substitutes each property, in key order, into the text |
| JenkinsCli.SubstituteNothing | bin/jenkins_cli.py:184 | Text that contains no property name comes out unchanged |
| JenkinsCli.ExpandedValueShape | bin/jenkins_cli.py:173-183 | Without separators the value is kept. With several values the result is the values joined by the XML separator |
| JenkinsCli.IsJobDisabledSpec | bin/jenkins_cli.py:193-201 | Disabled iff the first entry with the name has colour `disabled` |
| JenkinsCli.AbsentJobEnabled | bin/jenkins_cli.py:200-201 | A job missing from the list counts as enabled |
| JenkinsCli.ValidateArgs | bin/jenkins_cli.py:79-116 | Accepted flags come back unchanged |
| JenkinsCli.ValidateArgsSpec | bin/jenkins_cli.py:79-115 | The flags are accepted iff every rule holds. A refusal names the first rule broken, in the order the code checks them |
| JenkinsCli.FindReplaceSplits | bin/jenkins_cli.py:110-112 | An accepted `<find\|replace>` pattern splits at its first `\|` into a non-empty find without `\|` and a non-empty replace |
| JenkinsCli.TemplateName | bin/jenkins_cli.py:272 | The template name exists iff the first job has a `-`. It is the dash-free text before the first `-` |
| JenkinsCli.ClonedFromTemplate | bin/jenkins_cli.py:405 | A template clone name exists iff the job has a `-` |
| JenkinsCli.TemplateNameRoundTrip | bin/jenkins_cli.py:272-405 | The template name (line 272) is the job name before its first `-` and the clone name (line 405) the rest; joined with `-` they give back the job name |
| JenkinsCli.CloneName | bin/jenkins_cli.py:403-412 | A clone name exists iff the job is not from a template or its name holds a `-`; otherwise the unpacking error for that name |
| JenkinsCli.CloneNameFromTemplate | bin/jenkins_cli.py:403-412 | With no renaming and no property name in it, a template clone is named by the text after the template's `-` |
| JenkinsCli.JenkinsServer.constructor | bin/jenkins_cli.py:267 | The server starts with the given jobs |
| JenkinsCli.JenkinsServer.CloneJob | bin/jenkins_cli.py:421-439 | A dry run changes nothing. An existing job gets the new configuration and keeps the state the job list gave it; a new job is created |
| JenkinsCli.CloneKeepsState | bin/jenkins_cli.py:426-432 | An updated clone's disabled state is the one the job list reported before the update |
| RubyUtils.DropTrailingEmpty | ruby.tools/lib/utils.rb:26 | Ruby's split result is a prefix of the pieces and does not end with an empty piece |
| RubyUtils.ParseJobName | ruby.tools/lib/utils.rb:14-58 | The shift-based loop gives the job name function's result |
| RubyUtils.RubySplitKeepsAll | ruby.tools/lib/utils.rb:26 | A text whose last piece is non-empty loses nothing in Ruby's split |
| RubyUtils.RubySplitJoin | ruby.tools/lib/utils.rb:26 | Splitting dash-joined dash-free fields gives the fields back |
| RubyUtils.JobNameOfSplit | ruby.tools/lib/utils.rb:26-35 | Domain and project come first. The release is the third field when it starts with `\d+\.\d+`, else `1.0`. The task is next, and the rest joined by `-` is the env of a deploy/test job |
| RubyUtils.JobNameRoundTrip | ruby.tools/lib/utils.rb:26-58 | Parsing dash-joined job fields gives the fields back, with release `1.0` when there is none |
| RubyUtils.JobNameEnv | ruby.tools/lib/utils.rb:51-56 | An accepted deploy/test job has an env matching `^(dev\|int\|stg\|prod)-(.+)$`; any other job has none; the release is `1.0` or starts with `\d+\.\d+` |
| RubyUtils.Index | ruby.tools/lib/utils.rb:138 | Indexing fails iff the value is neither a hash nor a string. On a hash it gives the key's value, or nil when the key is absent. On a string (`String#[]`) it gives the key itself when the key occurs in the text, else nil |
| RubyUtils.GetHashValue | ruby.tools/lib/utils.rb:137-141 | On a hash, a value comes back iff the key is present with a non-nil value. On a string, the key itself comes back iff it occurs in the text. Otherwise the missing-key error, and any other value raises |
| RubyUtils.GetBuildToken | ruby.tools/lib/utils.rb:97-101 | A token comes back iff `build_tokens` is present and indexing it by the token gives something non-nil. That includes a string `build_tokens` that contains the token's text. A hash `build_tokens` gives the token's own value |
| RubyUtils.Merged | ruby.tools/lib/utils.rb:108 | `merge!` keeps the key list well formed |
| RubyUtils.MergedKeys | ruby.tools/lib/utils.rb:108 | After `merge!` the keys are the old keys and the merged ones |
| RubyUtils.MergedValues | ruby.tools/lib/utils.rb:108 | A merged key takes the new value; any other key keeps its old value |
| RubyUtils.MergedOrder | ruby.tools/lib/utils.rb:108 | Old keys keep their places |
| RubyUtils.MergeTokens | ruby.tools/lib/utils.rb:108 | The `merge!` loop computes the merged hash |
| RubyUtils.Config.constructor | ruby.tools/lib/utils.rb:67 | The configuration holds the loaded value |
| RubyUtils.Config.LoadBuildToken | ruby.tools/lib/utils.rb:107-110 | With a `build_tokens` hash, the tokens are merged in place. Without one, the call fails and nothing changes |
| RubyUtils.FindDeployTagSpec | ruby.tools/lib/utils.rb:143-148 | A tag is found iff some entry is named `env`, and it is the first such entry's `deploy_tag` |
| RubyUtils.FindPackageSpec | ruby.tools/lib/utils.rb:154-159 | A package is found iff some entry has it non-nil. It is the first such entry's; otherwise the missing-package error |
| RubyUtils.BuildNumber | ruby.tools/lib/utils.rb:204-205 | A number is read only from an entry `<release>.<digits>`, from its last field |
| RubyUtils.MaxBuildSpec | ruby.tools/lib/utils.rb:195-207 | -1 iff no entry matches. Otherwise the number bounds every matching entry's number and is some entry's number |
| RubyUtils.LastPackageBuildNumber | ruby.tools/lib/utils.rb:190-215 | The three tokens are required and the group id must be text. A failed listing then gives -1, whatever the release holds. Otherwise the result is the maximum over the listing's lines |
| RubyUtils.MaxBuildOf | ruby.tools/lib/utils.rb:201-207 | The listing loop gives the largest matching build number, or -1 |
| RubyUtils.NextPackageBuildNumber | ruby.tools/lib/utils.rb:217-222 | One past the last build number. A failed listing with the tokens present gives 0 |
| RubyUtils.RetryCmd | ruby.tools/lib/utils.rb:224-259 | The loop computes the retry function: the outcome and the number of attempts |
| RubyUtils.RetrySpec | ruby.tools/lib/utils.rb:236-258 | At most `retries+1` attempts. An outcome other than exhaustion is decided by the last attempt, and every earlier one was rescued. Output comes only from a successful run |
| RubyUtils.RetryFirstSuccess | ruby.tools/lib/utils.rb:238-242 | A first run that succeeds is the only run and gives its output |
| RubyUtils.SubstituteLine | ruby.tools/lib/utils.rb:304-310 | The token loop computes the substituted line and whether any token was present |
| RubyUtils.SubstituteFile | ruby.tools/lib/utils.rb:283-333 | No file name does nothing; a missing file fails; otherwise the rewritten lines are written back |
| RubyUtils.RewriteLength | ruby.tools/lib/utils.rb:292-324 | As many lines are written as were read |
| RubyUtils.RewriteUntouched | ruby.tools/lib/utils.rb:292-324 | A file without tokens is written back unchanged |
| RubyUtils.TokensAbsent | ruby.tools/lib/utils.rb:304-310 | A line without any `[KEY]` is unchanged and not marked modified |
| RubyUtils.RewriteNoComments | ruby.tools/lib/utils.rb:313-319 | Where no substituted line is a comment, each line is replaced by its substitution one for one |
| RubyUtils.CommentRule | ruby.tools/lib/utils.rb:294-316 | A substituted comment line keeps its original, and the next line is replaced by the uncommented substitution |
| ProjectTasks.DigitRun | ruby.tools/lib/project.rb:223 | The digit run that `to_i` reads is maximal |
| ProjectTasks.ToIOfDecimal | ruby.tools/lib/project.rb:223 | `to_i` reads back any integer written in decimal |
| ProjectTasks.Chomp | ruby.tools/lib/project.rb:195 | `chomp` removes at most one trailing line ending and nothing else |
| ProjectTasks.MatchesOneLine | ruby.tools/lib/project.rb:20-22 | On a one-line task, `^(a\|b)$` matches iff the task is one of the words |
| ProjectTasks.FirstBranch | ruby.tools/lib/utils.rb:183-187 | The branch comes from a line `On branch <name>`; None iff no line has that form |
| ProjectTasks.GitBranch | ruby.tools/lib/utils.rb:180-188 | A branch is some output line `On branch <name>` with a non-empty name. When no line has that form, the unrecognised-output error |
| ProjectTasks.GitBranchRoundTrip | ruby.tools/lib/utils.rb:180-188 | The branch `git status` reports is read back |
| ProjectTasks.LastFieldOfVersion | ruby.tools/lib/project.rb:199-223 | The last dot field of `<stem>.<n>` reads back as n |
| ProjectTasks.NextVersionSpec | ruby.tools/lib/project.rb:218-226 | Without history the version is `<release>.0`; with a last key ending in `.n`, it is `<release>.<n+1>` |
| ProjectTasks.NextAfterRecord | ruby.tools/lib/project.rb:198-203 | Recording a new next version moves the following one up by one |
| ProjectTasks.NextAfterOverwrite | ruby.tools/lib/project.rb:203 | Recording a version the history already holds leaves the next version unchanged |
| ProjectTasks.NextFromFile | ruby.tools/lib/project.rb:214-229 | Without a history file the version is `<release>.0`; with a hash, it is the next version of its history |
| ProjectTasks.HistoryOf | ruby.tools/lib/project.rb:187-190 | The history starts empty or as the file's hash, with distinct keys |
| ProjectTasks.SetToken | ruby.tools/lib/project.rb:206-207 | The configuration keeps a `build_tokens` hash |
| ProjectTasks.SetTokenSpec | ruby.tools/lib/project.rb:206-207 | A token set by `load_build_token` reads back, and every other token is kept |
| ProjectTasks.MergedSingle | ruby.tools/lib/utils.rb:108 | Merging a one-entry hash is putting that entry |
| ProjectTasks.TaskTagNames | ruby.tools/lib/project.rb:132-146 | `build` anywhere gives `LAST_BUILT` (devbuild included), then `assemble` gives `LAST_ASSEMBLED`, then `deploy`/`test` give `LAST_DEPLOYED_`/`LAST_TESTED_` plus the env tag. A task with none of these writes a nil tag with an empty name |
| ProjectTasks.TaskTag | ruby.tools/lib/project.rb:127-146 | A non-string task raises. A task with no keyword gives the empty name and nil. A named tag always has contents. A build tag exists iff both package tokens are present. Every other tag holds the release-version and git-revision hash |
| ProjectTasks.UpcaseNoDash | ruby.tools/lib/project.rb:139 | Upper-casing keeps a dash-free text dash-free |
| ProjectTasks.UpcaseDashed | ruby.tools/lib/project.rb:139 | Upper-casing `a-b` upper-cases both sides and keeps the dash |
| ProjectTasks.UpcasedFields | ruby.tools/lib/project.rb:139 | The upper-cased env `<stage>-<partition>` splits into its two upper-cased fields |
| ProjectTasks.DashedFields | ruby.tools/lib/project.rb:139 | Ruby's split of `a-b` (dash-free, non-empty) is `[a, b]` |
| ProjectTasks.EnvTagShape | ruby.tools/lib/project.rb:139-144 | For env `<stage>-<partition>` the tag is the prefix plus `STAGE-PARTITION` |
| ProjectTasks.EnvTagOfFields | ruby.tools/lib/project.rb:139-144 | The tag is built from the upper-cased split fields |
| ProjectTasks.Setup | ruby.tools/lib/project.rb:12-34 | A missing domain, project, release or task token fails. The settings hold those four tokens. The environment token is read iff the task line is `deploy` or `test`. The git branch is read iff it is `build`, `devbuild` or `assemble` |
| ProjectTasks.SetupEnv | ruby.tools/lib/project.rb:20 | On a one-line task the env is read iff the task is exactly `deploy` or `test`, and it is the `ENVIRONMENT` token |
| ProjectTasks.DeployVariantFails | ruby.tools/lib/project.rb:138-145 | A task that only contains `deploy` or `test` has no env, so writing its tag fails |
| ProjectTasks.RunStep | ruby.tools/lib/project.rb:83-93 | `run` picks a step iff the task is exactly one of the five names |
| ProjectTasks.SetReleaseTokens | ruby.tools/lib/project.rb:206-207 | Both tokens are set with a `build_tokens` hash; without one, nothing changes |
| ProjectTasks.Project.constructor | ruby.tools/lib/project.rb:10-12 | The class variables start unset |
| ProjectTasks.Project.Initialize | ruby.tools/lib/project.rb:12-34 | `initialize` succeeds iff the setup function does, and then stores its settings and the central paths. Stage and partition stay nil |
| ProjectTasks.Project.ReadTokens | ruby.tools/lib/project.rb:13-17 | The four tokens are required, in order, and stored |
| ProjectTasks.Project.ReadSelectors | ruby.tools/lib/project.rb:18-22 | The env is read for deploy/test, the namespace is set, and the branch is read for build tasks |
| ProjectTasks.Project.SetPaths | ruby.tools/lib/project.rb:23-33 | Stage and partition are nil, and the central paths are built from the domain and the namespace |
| ProjectTasks.Project.GetNextReleaseVersion | ruby.tools/lib/project.rb:214-229 | The next version from the history file, if any |
| ProjectTasks.Project.UpdateReleaseVersion | ruby.tools/lib/project.rb:184-212 | Exactly one history entry is added (next version to chomped revision), prior entries kept. `RELEASE_VERSION` and `GIT_REVISION` are set; on failure nothing changes |
| ProjectTasks.Project.UpdateTaskTag | ruby.tools/lib/project.rb:127-161 | Exactly the tag file the task names is written with its contents; on failure nothing is written |
| ProjectTasks.Project.Run | ruby.tools/lib/project.rb:81-95 | On a plain `Project`, a recognised task fails with an argument-count error; any other task ends the run |
| HostUtils.Captured | lib/utils.py:22-29 | Empty output records nothing. Otherwise the output is recorded without its trailing newlines |
| HostUtils.Command.constructor | lib/utils.py:10-11 | No run recorded yet |
| HostUtils.Command.Run | lib/utils.py:13-32 | Every run resets and records stdout, stderr and the status, and returns the status |
| HostUtils.Command.RunAsWritten | lib/utils.py:13-32 | As written, non-empty stderr raises (no `rstript` method) after stdout is recorded, with status left unset |
| HostUtils.ReSplit | lib/utils.py:59-98 | `re.split('\s+', line, m)` gives 1 to m+1 fields, none but the last holding white space |
| HostUtils.ReSplitJoin | lib/utils.py:59-98 | Splitting space-joined non-blank fields gives them back |
| HostUtils.LeadingDigits | lib/utils.py:99 | The digit run `\d+` matches is maximal |
| HostUtils.DropPercent | lib/utils.py:101-102 | Removing `%` from `<digits>%` gives the digits |
| HostUtils.IntOf | lib/utils.py:103 | `int()` of a number is the number, and of a digit string its value |
| HostUtils.ThresholdOf | lib/utils.py:64-103 | Mac (line 64) compares the threshold as given, so a text threshold is a type error; Ubuntu (line 103) converts it with `int()` |
| HostUtils.PercentLine | lib/utils.py:97-106 | A line whose percentage field is `N%` is over iff N > threshold (strict); a line without one passes |
| HostUtils.Verdicts | lib/utils.py:97 | One verdict per output line |
| HostUtils.ScanErrStays | lib/utils.py:97-105 | An exception ends the scan |
| HostUtils.ScanCompletes | lib/utils.py:97-106 | The scan completes iff no line raises |
| HostUtils.ScanReportsOver | lib/utils.py:95-106 | A completed scan is false iff some line is over |
| HostUtils.ScanSkip | lib/utils.py:99-100 | A passing line does not affect the result |
| HostUtils.DfScanCompletes | lib/utils.py:97-106 | The `df` scan completes iff no line raises |
| HostUtils.DfScanReportsOver | lib/utils.py:93-121 | The check is false iff some line's percentage is over the threshold |
| HostUtils.VerdictsAppend | lib/utils.py:97 | Lines are judged independently |
| HostUtils.DfScanSkip | lib/utils.py:99-115 | A line whose percentage field is not `\d+%`, such as the header, does not affect the result |
| HostUtils.MapLinesIgnored | lib/utils.py:57-75 | On a Mac, lines starting with `map` do not affect the result |
| HostUtils.LayoutOf | lib/utils.py:59-98 | Mac (line 59) skips `map` lines, splits 8 times and reads field 8; Ubuntu (line 98) splits 5 times and reads field 5 |
| HostUtils.Host.constructor | lib/utils.py:38-43 | The host uses the given command or a fresh one |
| HostUtils.Host.CheckInodes | lib/utils.py:52-106 | The inode check runs `df -i` through the command and gives the scan verdict. A generic host has no such method |
| HostUtils.Host.CheckDiskspace | lib/utils.py:69-121 | The diskspace check runs `df -h` through the command and gives the scan verdict. A generic host has no such method |
| HostUtils.Host.CheckPartitions | lib/utils.py:93-121 | The shared check body gives the `df` scan of the captured output |
| HostUtils.Host.ScanLines | lib/utils.py:97-106 | The loop with its `ok` flag computes the scan |
| HostUtils.CreateHost | lib/utils.py:128-142 | stderr exits. Empty output is a TypeError, and any other output gives a host. Ubuntu iff `Linux.+Ubuntu` matches; else Mac iff `Darwin.+Darwin` matches; else the generic host |
| HostUtils.CreateHostUbuntu | lib/utils.py:136-137 | A `uname` line `Linux…Ubuntu…` gives an Ubuntu host |
| HostUtils.CreateHostMac | lib/utils.py:138-139 | A `uname` line `Darwin…Darwin…` gives a Mac host |
| HostUtils.CreateHostOther | lib/utils.py:140-141 | Any other `uname` line gives the generic host |
| HostUtils.Environ.constructor | lib/utils.py:155 | The environment holds the given variables |
| HostUtils.PropertyFile | lib/utils.py:155-158 | `--property_file` wins over `PROPERTY_FILE`, and an empty name counts as none |
| HostUtils.Properties | lib/utils.py:161-169 | The dictionary's keys are distinct |
| HostUtils.PropertiesDefined | lib/utils.py:164-169 | A stripped name is defined iff some line containing `=` has it before its first `=` |
| HostUtils.PropertiesLastWins | lib/utils.py:164-169 | The value is the stripped text after the first `=` of the last line defining the name |
| HostUtils.AppliedSpec | lib/utils.py:171-178 | Names already set non-empty keep their values, other loaded names get the file's values, and nothing else changes |
| HostUtils.Utils.constructor | lib/utils.py:149-151 | The utilities hold the environment and the argument |
| HostUtils.Utils.LoadProperties | lib/utils.py:154-178 | No file name changes nothing, and a missing file fails. Otherwise the environment becomes what the environment loop leaves, and the call raises ValueError iff that loop raised. Together these are `PropertiesLoaded` |
| HostUtils.Utils.ReadProperties | lib/utils.py:163-169 | The file loop builds the property dictionary |
| HostUtils.Utils.ApplyProperties | lib/utils.py:171-178 | The environment loop sets names, in file order. It raises ValueError at the first name the environment refuses, keeping the assignments made before it |
| HostUtils.LoadedClean | lib/utils.py:171-178 | A loop that does not raise leaves exactly the applied properties |
| HostUtils.LoadedRaises | lib/utils.py:171-178 | The loop raises iff some loaded name not already set non-empty has an empty name or a NUL byte |
| HostUtils.LoadedStops | lib/utils.py:171-178 | Once the loop has raised, later names change nothing |
| HostUtils.EmptyNameRaises | lib/utils.py:164-178 | A property line `=x` gives the empty name, and loading it raises |
| JenkinsMonitor.InstalledPluginsSpec | lib/jmon_utils.py:28-30 | A file is an installed plugin iff it is listed and matches `.+\.jpi` |
| JenkinsMonitor.PluginFileName | lib/jmon_utils.py:29 | A non-empty name followed by `.jpi` counts as a plugin file |
| JenkinsMonitor.NonPluginFileIgnored | lib/jmon_utils.py:29-30 | A file not matching `.+\.jpi` does not change the installed list |
| JenkinsMonitor.FirstMatch | lib/jmon_utils.py:33-37 | No match iff no installed file matches the plugin; otherwise the first matching file |
| JenkinsMonitor.PluginCounts | lib/jmon_utils.py:31-42 | Found and missing together have exactly one entry per listed plugin |
| JenkinsMonitor.MissingComplete | lib/jmon_utils.py:31-42 | Every listed plugin without an installed match is reported missing |
| JenkinsMonitor.MissingSound | lib/jmon_utils.py:31-42 | Every missing name is a listed plugin that has no installed match |
| JenkinsMonitor.FoundInstalled | lib/jmon_utils.py:31-42 | Every found name is one of the installed plugin files |
| JenkinsMonitor.OldDirsSpec | lib/jmon_utils.py:66-80 | A directory is selected iff its name starts with a digit, its stat succeeds and its age is strictly over `days` |
| JenkinsMonitor.Tagged | lib/jmon_utils.py:84-85 | Each removed directory is paired with its job |
| JenkinsMonitor.PurgedSpec | lib/jmon_utils.py:59-91 | A (job, dir) pair is removed iff the job has a builds directory and the dir is selected in it |
| JenkinsMonitor.Setting | lib/jmon_utils.py:115-119 | A non-empty environment value replaces the default, as text |
| JenkinsMonitor.JenkinsHost.constructor | lib/jmon_utils.py:15-16 | A Jenkins host is an Ubuntu host sharing the given command |
| JenkinsMonitor.JenkinsHost.CheckJenkinsPlugins | lib/jmon_utils.py:18-49 | A missing plugin directory raises FileNotFoundError. Otherwise the verdict is true iff every required plugin is found, with the found and missing lists of the partition |
| JenkinsMonitor.JenkinsHost.CheckPlugins | lib/jmon_utils.py:31-42 | The plugin loop computes the partition and the verdict |
| JenkinsMonitor.JenkinsHost.ListPlugins | lib/jmon_utils.py:28-30 | The listing loop keeps the plugin files |
| JenkinsMonitor.JenkinsHost.FindPlugin | lib/jmon_utils.py:33-37 | The inner loop stops at the first match |
| JenkinsMonitor.JenkinsHost.PurgeJenkinsBuildLogs | lib/jmon_utils.py:51-92 | A missing jobs path exits. Otherwise it returns true and removes exactly the selected directories. A non-numeric `days` raises at the first candidate directory |
| JenkinsMonitor.JenkinsHost.PurgeJobs | lib/jmon_utils.py:58-91 | With a usable limit the job loop removes exactly the selected pairs. With an unusable one it raises iff some job has a candidate directory, and removes nothing |
| JenkinsMonitor.JenkinsHost.PurgeJob | lib/jmon_utils.py:59-91 | A job without `builds` contributes nothing. Otherwise it contributes its selected directories, or raises at a candidate when the limit is unusable |
| JenkinsMonitor.JenkinsHost.SelectOldDirs | lib/jmon_utils.py:66-80 | The selection loop computes the old directories |
| JenkinsMonitor.ChecksRun | lib/jmon_utils.py:162-169 | The diskspace check always runs, and it runs alone iff in debug mode |
| JenkinsMonitor.FiledCounts | lib/jmon_utils.py:109-112 | Filing a check adds its name once to failed plus passed |
| JenkinsMonitor.FiledTwo | lib/jmon_utils.py:167-168 | Filing plugins then purge adds the two names once each |
| JenkinsMonitor.FiledCons | lib/jmon_utils.py:166-168 | Filing inodes and then the last two adds the three names once each |
| JenkinsMonitor.FailedOf | lib/jmon_utils.py:109-110 | The failed names of a run are at most its checks |
| JenkinsMonitor.PassedOf | lib/jmon_utils.py:111-112 | The passed names of a run are at most its checks |
| JenkinsMonitor.FiledSplit | lib/jmon_utils.py:109-112 | Each verdict of a run is filed under exactly one of failed or passed |
| JenkinsMonitor.FiledNone | lib/jmon_utils.py:109-112 | Nothing is failed iff every verdict passes, and nothing is passed iff every verdict fails |
| JenkinsMonitor.RunStatus | lib/jmon_utils.py:153-160 | After a filed run, the failed list is empty, so the exit status is 0, iff it was empty before and every verdict passed |
| JenkinsMonitor.FiledRunNext | lib/jmon_utils.py:109-112 | Filing one more check by its verdict extends the filed run by that verdict |
| JenkinsMonitor.FiledRunCons | lib/jmon_utils.py:164-168 | Filing a check and then a run files the run with that verdict in front |
| JenkinsMonitor.FiledRunJoin | lib/jmon_utils.py:164-168 | Two runs filed in turn file their concatenation, in order |
| JenkinsMonitor.ProbesOf | lib/jmon_utils.py:114-146 | The probes use `DISKSPACE_THRESHOLD` and `INODE_THRESHOLD` (default 90) and `JENKINS_BUILD_LOG_PURGE_DAYS` (default 45) from the environment |
| JenkinsMonitor.LastChecked | lib/jmon_utils.py:167-168 | The plugins and purge verdicts come in that order, both of them iff no exception ends the run |
| JenkinsMonitor.OtherChecked | lib/jmon_utils.py:166-168 | The inodes, plugins and purge verdicts come in that order, all three iff no exception ends the run |
| JenkinsMonitor.OtherCheckedCons | lib/jmon_utils.py:166-168 | A successful inode probe files its verdict and then the last two checks |
| JenkinsMonitor.Checked | lib/jmon_utils.py:164-168 | The verdicts of a run follow the order of `ChecksRun(debug)`, and all of them are filed iff no exception ends the run |
| JenkinsMonitor.CheckedCons | lib/jmon_utils.py:164-168 | A successful diskspace probe files its verdict and then, outside debug mode, the other three |
| JenkinsMonitor.CheckedPasses | lib/jmon_utils.py:164-168 | A run ends without an exception iff the `df` probes succeed, the plugin directory exists, and the job directory exists with a usable age or nothing to purge |
| JenkinsMonitor.CheckedErrors | lib/jmon_utils.py:164-168 | Each early end carries the exception of the step that failed: the `df` error, FileNotFoundError for plugins, the exit for the jobs path, and ValueError for the purge age |
| JenkinsMonitor.JenkinsMonitoring.constructor | lib/jmon_utils.py:100-104 | The run starts with empty failed and passed lists and a Jenkins host |
| JenkinsMonitor.JenkinsMonitoring.Record | lib/jmon_utils.py:109-112 | The name goes to exactly one of failed or passed, by the verdict |
| JenkinsMonitor.JenkinsMonitoring.CheckJenkinsPlugins | lib/jmon_utils.py:106-112 | A missing plugin directory raises with nothing filed. Otherwise the plugin check is filed by its verdict |
| JenkinsMonitor.JenkinsMonitoring.CheckInodes | lib/jmon_utils.py:114-125 | The inode check runs with `INODE_THRESHOLD` or 90 and is filed by its verdict; an exception files nothing |
| JenkinsMonitor.JenkinsMonitoring.CheckDiskspace | lib/jmon_utils.py:127-138 | The diskspace check runs with `DISKSPACE_THRESHOLD` or 90 and is filed by its verdict; an exception files nothing |
| JenkinsMonitor.JenkinsMonitoring.PurgeJenkinsBuildLogs | lib/jmon_utils.py:140-151 | The purge runs with `JENKINS_BUILD_LOG_PURGE_DAYS` or 45 and, when it completes, is filed as passed. It completes iff the jobs path exists and the age is usable or nothing is a candidate; otherwise it exits or raises ValueError |
| JenkinsMonitor.JenkinsMonitoring.SummaryReport | lib/jmon_utils.py:153-160 | The exit status is 1 iff some check failed |
| JenkinsMonitor.JenkinsMonitoring.Execute | lib/jmon_utils.py:162-169 | The environment becomes what `load_properties` leaves; a load error files nothing and is the result. Otherwise the lists are the old ones with the run's verdicts filed in the order diskspace, inodes, plugins, purge (diskspace only in debug mode). The result is the first exception, or the status, which is 1 iff some check failed. It succeeds iff the load and every check complete |
| JenkinsMonitor.JenkinsMonitoring.RunChecks | lib/jmon_utils.py:164-169 | The lists are the old ones with the run's verdicts filed in order, each check once. The result is the first exception, or the summary status |
| JenkinsMonitor.JenkinsMonitoring.RunOtherChecks | lib/jmon_utils.py:166-168 | The inodes, plugins and purge verdicts are filed in order, each once, up to the first exception, which is the result |
| JenkinsMonitor.JenkinsMonitoring.RunLastChecks | lib/jmon_utils.py:167-168 | The plugins and purge verdicts are filed in order, each once, up to the first exception, which is the result |

## Left out

- The Redis connections, the active/inactive server probing and the legacy helpers over the `SIH` hash (`bin/redis_cli.py:68-118`, `369-400`) are not part of this model. The store is a pair of maps.
- `show_all_servers` only prints, so it is not modelled.
- The default-inventory generator is a command run. Its result is a parameter (`Result<Record, InvError>`).
- `ast.literal_eval`, JSON side-file formatting and YAML loading and dumping are left out. Records and configurations are structured values; a side file is the view it would hold.
- Printing, timestamps and the `print` of warnings are left out. Warnings change no state.
- Subprocesses, `os.system`, backticks, `systemu`, `diff`, `grep`, git and mvn are left out. Their output is a parameter string, status or attempt function.
- All python-jenkins calls except the job state on the destination server are left out: views, reconfig, enable/disable, delete, build, fetch, grep, rename. The job list is a parameter sequence.
- Regular expressions supplied by users or data are not interpreted. This covers `jobname_regex`, the find/replace `re.sub`, property names used as patterns, and retry's break and rescue patterns. They are opaque functions, or literal text in `substitute_vars`.
- Installed plugin file names are used as patterns. Only `.` is treated as a wildcard; other metacharacters are taken literally.
- Wall-clock dates, `mtime`, `rmtree` and `unlink` are left out. A build directory's age is a whole number of days. Removal is the list of (job, directory) pairs selected.
- An `OSError` with errno 0 in the purge stat is not distinguished from success.
- `\s` is ASCII white space. `\d` is ASCII digits. Ruby `upcase` is ASCII. Unicode spaces and digits, case mapping and UTF-8 decoding are not modelled.
- `JenkinsMonitoring.failed_fcts` and `passed_fcts` are class attributes shared by every instance. The model keeps them per instance, which is the same for the single instance a run creates.
- The command's `last_*` attributes are modelled as None before the first run. In the code they do not exist until then.
- `Utils.__init__` calls `create_host`. Here the host kind is given, and `CreateHost` models the dispatch separately.
- `run_script` and the other helpers of `lib/utils.py` past `load_properties` are left out. They write scripts and run them.
- `create_project` and `load_project_config` in `utils.rb` read files and YAML, so they are left out.
- The step methods of `project.rb` are left out: `deploy_env`, `test_env`, `assemble_project`, `build_project` and `devbuild_project`. They run command sequences. `ProjectTasks.Project.Run` models `run` on a plain `Project`, where they are called without their argument.
- `ProjectTasks.Project.Run` does not model `MavenJar` (`ruby.tools/lib/mavenjar.rb`). That subclass overrides each step with an argument-less method, so `run` does reach its steps.
- `update_project_envs`, `update_project_tokens` and `update_central_project_config` are left out. They are file copies and git check-ins around the modelled pieces.
- `check_in_source_location` is left out because it runs git.
- `ProjectTasks.Project.UpdateReleaseVersion` writes the history as a hash value in the file map; the YAML text of the file is not modelled.
- `RubyUtils.JobNameOfSplit` is stated for names that have a domain, a project and a task field. Shorter names, and a release field with no task after it, are covered only by the job name function itself. That function treats missing fields as nil and fails where Ruby calls a method on nil.
- `ProjectTasks.ToS`: configuration scalars (`RubyUtils.Value`) are strings, integers and nil only. A YAML float or boolean, such as `RELEASE: 1.10` read as the float 1.1, has no value here, and a list or hash interpolates as the empty text instead of Ruby's `inspect` form.
- `ProjectTasks.RubyToI` does not skip an underscore between digits: Ruby reads `"1_2".to_i` as 12, the model as 1.
- `HostUtils.IntOf` states only the number and the plain digit-string cases in its contract. The body also follows Python `int()` on surrounding white space, signs and underscores.
- `RubyUtils.BuildNumber` states only that a number comes from a matching entry. How many digits `to_i` reads is stated by `ProjectTasks.DigitRun`.
- `JenkinsCli.Properties` and `HostUtils.Properties` state only that the keys are distinct. Their meaning is stated by the `PropertiesLastWins`/`PropertiesDefined` lemmas beside them.
- `HostUtils.Host.CheckPartitions` runs the corrected `Command.Run` of the Findings row for `lib/utils.py:27`. A `df` that writes to stderr is recorded and judged, and `lastStatus` is set. The code as written raises AttributeError there, before the status is set.
- `HostUtils.Host.CheckInodes` inherits that: stderr from `df -i` gives a verdict where the code as written raises.
- `HostUtils.Host.CheckDiskspace` inherits that: stderr from `df -h` gives a verdict where the code as written raises.
- `JenkinsMonitor.JenkinsMonitoring.CheckInodes` inherits that: stderr from `df -i` is filed as a verdict, where the code as written raises out of `execute` before the summary.
- `JenkinsMonitor.JenkinsMonitoring.CheckDiskspace` inherits that: stderr from `df -h` is filed as a verdict, where the code as written raises out of `execute` before the summary.
- `Inventory.ApplyRolesSpec` is stated only for records where no role `r` sits beside a role `active_r` or `inactive_r` (`NoDerivedClash`). The code accepts such a record and overwrites the derived group. `Inventory.FilteredView` reproduces that overwrite, but no lemma states it.
- `Inventory.ViewSpec` is stated only under `NoDerivedClash`, for the same reason.
- `Inventory.FilterAllKeepsEverything` is stated only under `NoDerivedClash`. Under a clash the code overwrites `active_r`, and that case is not stated.
- `Inventory.ServiceKeyAlwaysAppends` reads the service name as literal text. `re.match` reads it as a regex: a name with metacharacters may match its own text and be kept (`a|`), or raise `re.error` (`(`). The lemma and the Findings row hold for names without regex metacharacters.
- `JenkinsCli.SubstituteVars` inserts each value literally. `re.sub` reads backslash escapes in the replacement: `\n` becomes a newline, `\1` a group reference, and an unknown escape such as `\d` raises `re.error`. Values without backslashes are substituted as modelled.
- `RubyUtils.SubstituteLine` reads each key and value literally. `line.match(/\[#{key}\]/)` builds a regex from the key, so a key with metacharacters may match other text or raise. `gsub!` reads `\0`, `\&` and `\\` in the value as back-references and escapes. Keys and values without backslashes or regex metacharacters behave as modelled.
- `RubyUtils.LastPackageBuildNumber` fails with a text error for a list or hash RELEASE when there is a listing. Ruby interpolates its `to_s` form into the pattern, and that form (brackets, braces) is itself a regex, which is not modelled.
- `RubyUtils.NextPackageBuildNumber` inherits that case from `RubyUtils.LastPackageBuildNumber`.
- `Inventory.CarryOne` reads a stored JSON `null` state as a missing one and fails with `MissingAttribute`. Python copies the `None` over.
- `Inventory.CarryOver` states only the key structure. What each host becomes is stated by `Inventory.CarryOverSpec`.
- The `-q`, `--prompt`, `--user` and `--password` flags, the history file and the password file of `jenkins_cli.py` only affect output and login, so they are not modelled.

## Findings

| source | as written | input that shows it | evidently intended | confidence | as-written member | corrected member |
|---|---|---|---|---|---|---|
| bin/redis_cli.py:422-423 | `re.match(service + '-service', service)` uses the name plus the suffix as the pattern and the bare name as the subject. For a name without regex metacharacters, the pattern is longer than the subject, so it never matches and the suffix is always appended | `--service redis-service` gives the key `redis-service-service` | Append `-service` only when the name does not already end with it | not executed | Inventory.ServiceKeyDoubleSuffix | Inventory.ServiceKey |
| lib/utils.py:27 | `str(err, 'utf-8').rstript('\n')` calls a method strings do not have. Any run with non-empty stderr raises `AttributeError` after stdout is recorded and before the status is set | A command that writes `x` to stderr | Strip trailing newlines with `rstrip`, record stderr and set the status as for any run | not executed | HostUtils.Command.RunAsWritten | HostUtils.Command.Run |

