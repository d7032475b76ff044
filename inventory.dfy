/**
 * The blue/green inventory manager of bin/redis_cli.py.
 *
 * Every service has one record in a key-value store, under the key
 * `<service>-service`. A record holds `_meta.hostvars` (host -> its
 * `bg_state`, `svc_status` and other attributes) and role groups
 * (role -> ordered host list). The store may have a passive replica.
 * Listings compute a view: per role, `active_<role>` and `inactive_<role>`
 * and the role's hosts cut down to those matching a filter; the view is
 * also written to a side file for the provisioning tooling.
 */
module Inventory {
  import opened Common

  /** One host's entry under `_meta.hostvars`; an absent attribute is None. */
  datatype HostVars = HostVars(bgState: Option<string>, svcStatus: Option<string>, other: map<string, string>)

  /** A stored record: `_meta.hostvars` and the role groups, both in key order. */
  datatype Record = Record(hostvars: OMap<HostVars>, roles: OMap<seq<string>>)

  /** What a listing returns and writes to the side file (written with sorted keys,
      so only the contents matter). */
  datatype View = View(hostvars: map<string, HostVars>, groups: map<string, seq<string>>)

  datatype InvError =
    | MissingInventory(key: string)
    | UnknownHost(host: string)
    | UnknownServiceStatus(host: string)
    | MalformedDefaultInventory
    | MissingAttribute(host: string, attribute: string)
    | GeneratorFailed(message: string)
    | NoReplicaForRoot
    | UnboundReplica   // UnboundLocalError: `brsi` is never bound when one server is named

  /** The store key of the root service whose toggle mirrors every service. */
  const RootKey: string := "redis-service"

  predicate ValidRecord(r: Record)
  {
    WellFormed(r.hostvars) && WellFormed(r.roles) && "_meta" !in r.roles.vals
  }

  // ---------------------------------------------------------------------
  // Filtered view (get_stored_inventory / the second half of get_updated_inventory)
  // ---------------------------------------------------------------------

  /** A host passes the filter when the filter is 'all' or equals its
      `bg_state` or its `svc_status`. */
  predicate Matches(hv: HostVars, filter: string)
  {
    filter == "all" || hv.bgState == Some(filter) || hv.svcStatus == Some(filter)
  }

  /** The `servers` list: hosts of `order` that pass the filter, in order. */
  function SelectedHosts(order: seq<string>, hv: map<string, HostVars>, filter: string): (r: seq<string>)
    requires forall h | h in order :: h in hv
    ensures forall h :: h in r <==> h in order && Matches(hv[h], filter)
  {
    if order == [] then []
    else
      var h := order[|order| - 1];
      var r := SelectedHosts(order[..|order| - 1], hv, filter);
      assert order == order[..|order| - 1] + [h];
      if Matches(hv[h], filter) then r + [h] else r
  }

  /** The three lists computed for one non-empty role. */
  datatype Split = Split(active: seq<string>, inactive: seq<string>, kept: seq<string>)

  /** The role loop: classify each host by `svc_status` and keep it when it is
      one of `servers`; the first unknown host or status stops everything. */
  function SplitRole(hv: map<string, HostVars>, hosts: seq<string>, servers: seq<string>): Result<Split, InvError>
  {
    if hosts == [] then Ok(Split([], [], []))
    else match SplitRole(hv, hosts[..|hosts| - 1], servers)
      case Err(e) => Err(e)
      case Ok(sp) =>
        var h := hosts[|hosts| - 1];
        if h !in hv then Err(UnknownHost(h))
        else
          var kept := if h in servers then sp.kept + [h] else sp.kept;
          if hv[h].svcStatus == Some("active") then Ok(Split(sp.active + [h], sp.inactive, kept))
          else if hv[h].svcStatus == Some("inactive") then Ok(Split(sp.active, sp.inactive + [h], kept))
          else Err(UnknownServiceStatus(h))
  }

  /** The hosts of `hosts` (in order) whose `svc_status` is `status`. */
  function WithStatus(hv: map<string, HostVars>, hosts: seq<string>, status: string): seq<string>
  {
    if hosts == [] then []
    else
      var h := hosts[|hosts| - 1];
      var r := WithStatus(hv, hosts[..|hosts| - 1], status);
      if h in hv && hv[h].svcStatus == Some(status) then r + [h] else r
  }

  /** The hosts of `hosts` (in order) that are members of `servers`. */
  function KeptHosts(hosts: seq<string>, servers: seq<string>): seq<string>
  {
    if hosts == [] then []
    else
      var h := hosts[|hosts| - 1];
      var r := KeptHosts(hosts[..|hosts| - 1], servers);
      if h in servers then r + [h] else r
  }

  predicate KnownStatus(hv: map<string, HostVars>, h: string)
  {
    h in hv && (hv[h].svcStatus == Some("active") || hv[h].svcStatus == Some("inactive"))
  }

  predicate RoleKnown(hv: map<string, HostVars>, hosts: seq<string>)
  {
    forall i :: 0 <= i < |hosts| ==> KnownStatus(hv, hosts[i])
  }

  /** The role loop succeeds exactly when every host has a known status, and then
      it yields the active hosts, the inactive hosts and the kept hosts, each in
      the role's order. */
  lemma {:induction false} SplitRoleSpec(hv: map<string, HostVars>, hosts: seq<string>, servers: seq<string>)
    ensures SplitRole(hv, hosts, servers).Ok? <==> RoleKnown(hv, hosts)
    ensures SplitRole(hv, hosts, servers).Ok? ==>
      SplitRole(hv, hosts, servers).value ==
        Split(WithStatus(hv, hosts, "active"), WithStatus(hv, hosts, "inactive"), KeptHosts(hosts, servers))
  {
    if hosts != [] {
      var init := hosts[..|hosts| - 1];
      SplitRoleSpec(hv, init, servers);
      assert forall i :: 0 <= i < |init| ==> init[i] == hosts[i];
      if RoleKnown(hv, hosts) {
        assert RoleKnown(hv, init);
        assert KnownStatus(hv, hosts[|hosts| - 1]);
      }
    }
  }

  /** No host is lost or duplicated: the active and inactive lists together are
      the role's host list, when every status is known. */
  lemma {:induction false} PartitionComplete(hv: map<string, HostVars>, hosts: seq<string>)
    requires RoleKnown(hv, hosts)
    ensures multiset(WithStatus(hv, hosts, "active")) + multiset(WithStatus(hv, hosts, "inactive")) == multiset(hosts)
  {
    if hosts != [] {
      var init := hosts[..|hosts| - 1];
      assert forall i :: 0 <= i < |init| ==> init[i] == hosts[i];
      PartitionComplete(hv, init);
      assert KnownStatus(hv, hosts[|hosts| - 1]);
      assert hosts == init + [hosts[|hosts| - 1]];
    }
  }

  lemma {:induction false} WithStatusMembers(hv: map<string, HostVars>, hosts: seq<string>, status: string)
    ensures forall h :: h in WithStatus(hv, hosts, status) <==> h in hosts && h in hv && hv[h].svcStatus == Some(status)
  {
    if hosts != [] {
      var init := hosts[..|hosts| - 1];
      WithStatusMembers(hv, init, status);
      assert hosts == init + [hosts[|hosts| - 1]];
    }
  }

  /** No host is both active and inactive. */
  lemma NoOverlap(hv: map<string, HostVars>, hosts: seq<string>)
    ensures forall h :: !(h in WithStatus(hv, hosts, "active") && h in WithStatus(hv, hosts, "inactive"))
  {
    WithStatusMembers(hv, hosts, "active");
    WithStatusMembers(hv, hosts, "inactive");
  }

  lemma {:induction false} KeptHostsMembers(hosts: seq<string>, servers: seq<string>)
    ensures forall h :: h in KeptHosts(hosts, servers) <==> h in hosts && h in servers
  {
    if hosts != [] {
      var init := hosts[..|hosts| - 1];
      KeptHostsMembers(init, servers);
      assert hosts == init + [hosts[|hosts| - 1]];
    }
  }

  /** When every host is a server, nothing is cut from the role. */
  lemma {:induction false} KeptHostsAll(hosts: seq<string>, servers: seq<string>)
    requires forall h | h in hosts :: h in servers
    ensures KeptHosts(hosts, servers) == hosts
  {
    if hosts != [] {
      var init := hosts[..|hosts| - 1];
      assert hosts == init + [hosts[|hosts| - 1]];
      KeptHostsAll(init, servers);
    }
  }

  function ActiveGroup(role: string): string { "active_" + role }
  function InactiveGroup(role: string): string { "inactive_" + role }

  /** The loop over the record's roles, in order, on a snapshot of the role lists. */
  function ApplyRoles(hv: map<string, HostVars>, roleHosts: map<string, seq<string>>, names: seq<string>,
                      servers: seq<string>): Result<map<string, seq<string>>, InvError>
    requires forall r | r in names :: r in roleHosts
  {
    if names == [] then Ok(roleHosts)
    else match ApplyRoles(hv, roleHosts, names[..|names| - 1], servers)
      case Err(e) => Err(e)
      case Ok(g) => ApplyRole(hv, names[|names| - 1], roleHosts[names[|names| - 1]], servers, g)
  }

  /** One role of the loop: an empty role is skipped, a non-empty one gets
      its active, inactive and kept lists. */
  function ApplyRole(hv: map<string, HostVars>, role: string, hosts: seq<string>, servers: seq<string>,
                     g: map<string, seq<string>>): Result<map<string, seq<string>>, InvError>
  {
    if hosts == [] then Ok(g)
    else match SplitRole(hv, hosts, servers)
      case Err(e) => Err(e)
      case Ok(sp) => Ok(g[ActiveGroup(role) := sp.active][InactiveGroup(role) := sp.inactive][role := sp.kept])
  }

  /** Applying one more role of `names` applies `ApplyRole` to the groups so far. */
  lemma ApplyRolesNext(hv: map<string, HostVars>, roleHosts: map<string, seq<string>>, names: seq<string>,
                       servers: seq<string>, j: nat)
    requires j < |names| && forall r | r in names :: r in roleHosts
    requires ApplyRoles(hv, roleHosts, names[..j], servers).Ok?
    ensures ApplyRoles(hv, roleHosts, names[..j + 1], servers) ==
      ApplyRole(hv, names[j], roleHosts[names[j]], servers, ApplyRoles(hv, roleHosts, names[..j], servers).value)
  {
    assert names[..j + 1][..j] == names[..j];
  }

  /** The view a listing computes from a record. */
  function FilteredView(rec: Record, filter: string): Result<View, InvError>
    requires ValidRecord(rec)
  {
    var servers := SelectedHosts(rec.hostvars.keys, rec.hostvars.vals, filter);
    match ApplyRoles(rec.hostvars.vals, rec.roles.vals, rec.roles.keys, servers)
    case Err(e) => Err(e)
    case Ok(g) => Ok(View(rec.hostvars.vals, g))
  }

  /** No role is named like a group derived from another role. */
  predicate NoDerivedClash(roleHosts: map<string, seq<string>>)
  {
    forall r, r' | r in roleHosts && r' in roleHosts :: r != ActiveGroup(r') && r != InactiveGroup(r')
  }

  lemma DerivedNamesDiffer(r: string, r': string)
    ensures ActiveGroup(r) != InactiveGroup(r')
    ensures ActiveGroup(r) == ActiveGroup(r') ==> r == r'
    ensures InactiveGroup(r) == InactiveGroup(r') ==> r == r'
  {
    assert ActiveGroup(r)[0] == 'a' && InactiveGroup(r')[0] == 'i';
    if ActiveGroup(r) == ActiveGroup(r') {
      assert r == ActiveGroup(r)[7..] == ActiveGroup(r')[7..] == r';
    }
    if InactiveGroup(r) == InactiveGroup(r') {
      assert r == InactiveGroup(r)[9..] == InactiveGroup(r')[9..] == r';
    }
  }

  /** What the role loop leaves for a role `r`: a processed non-empty role has
      its three lists, any other role its original list and no derived groups. */
  predicate RoleOutcome(hv: map<string, HostVars>, roleHosts: map<string, seq<string>>, done: seq<string>,
                        servers: seq<string>, g: map<string, seq<string>>, r: string)
    requires r in roleHosts
  {
    if r in done && roleHosts[r] != [] then
      && r in g && ActiveGroup(r) in g && InactiveGroup(r) in g
      && SplitRole(hv, roleHosts[r], servers) == Ok(Split(g[ActiveGroup(r)], g[InactiveGroup(r)], g[r]))
    else
      r in g && g[r] == roleHosts[r] && ActiveGroup(r) !in g && InactiveGroup(r) !in g
  }

  lemma {:induction false} ApplyRolesSpec(hv: map<string, HostVars>, roleHosts: map<string, seq<string>>,
                                          names: seq<string>, servers: seq<string>)
    requires Distinct(names) && (forall r | r in names :: r in roleHosts)
    requires NoDerivedClash(roleHosts)
    requires ApplyRoles(hv, roleHosts, names, servers).Ok?
    ensures forall r | r in roleHosts ::
      RoleOutcome(hv, roleHosts, names, servers, ApplyRoles(hv, roleHosts, names, servers).value, r)
  {
    if names != [] {
      var init := names[..|names| - 1];
      var role := names[|names| - 1];
      assert names == init + [role];
      assert forall i :: 0 <= i < |init| ==> init[i] == names[i];
      assert Distinct(init);
      assert role !in init;
      ApplyRolesSpec(hv, roleHosts, init, servers);
      var g := ApplyRoles(hv, roleHosts, init, servers).value;
      var g' := ApplyRoles(hv, roleHosts, names, servers).value;
      forall r | r in roleHosts
        ensures RoleOutcome(hv, roleHosts, names, servers, g', r)
      {
        ApplyRolesStep(hv, roleHosts, init, role, servers, g, g', r);
      }
    }
  }

  /** One more role processed: the outcome of every role carries over. */
  lemma ApplyRolesStep(hv: map<string, HostVars>, roleHosts: map<string, seq<string>>, init: seq<string>,
                       role: string, servers: seq<string>, g: map<string, seq<string>>,
                       g': map<string, seq<string>>, r: string)
    requires role in roleHosts && r in roleHosts && role !in init && NoDerivedClash(roleHosts)
    requires roleHosts[role] == [] ==> g' == g
    requires roleHosts[role] != [] ==>
      && SplitRole(hv, roleHosts[role], servers).Ok?
      && g' == g[ActiveGroup(role) := SplitRole(hv, roleHosts[role], servers).value.active]
               [InactiveGroup(role) := SplitRole(hv, roleHosts[role], servers).value.inactive]
               [role := SplitRole(hv, roleHosts[role], servers).value.kept]
    requires RoleOutcome(hv, roleHosts, init, servers, g, r)
    ensures RoleOutcome(hv, roleHosts, init + [role], servers, g', r)
  {
    DerivedNamesDiffer(r, role);
    DerivedNamesDiffer(role, r);
    assert r != ActiveGroup(role) && r != InactiveGroup(role);
  }

  /** The view keeps `_meta` and, for every role whose list is non-empty, holds
      its active and inactive hosts and its list cut down to the hosts passing the
      filter; a role with an empty list keeps it and gets no derived groups. The
      view exists exactly when every host of a non-empty role has a known status. */
  lemma ViewSpec(rec: Record, filter: string)
    requires ValidRecord(rec) && NoDerivedClash(rec.roles.vals)
    ensures FilteredView(rec, filter).Ok? <==>
      forall r | r in rec.roles.vals :: RoleKnown(rec.hostvars.vals, rec.roles.vals[r])
    ensures FilteredView(rec, filter).Ok? ==>
      var v := FilteredView(rec, filter).value;
      var hv := rec.hostvars.vals;
      && v.hostvars == hv
      && forall r | r in rec.roles.vals ::
        var hosts := rec.roles.vals[r];
        if hosts == [] then r in v.groups && v.groups[r] == [] && ActiveGroup(r) !in v.groups && InactiveGroup(r) !in v.groups
        else
          && ActiveGroup(r) in v.groups && v.groups[ActiveGroup(r)] == WithStatus(hv, hosts, "active")
          && InactiveGroup(r) in v.groups && v.groups[InactiveGroup(r)] == WithStatus(hv, hosts, "inactive")
          && r in v.groups && v.groups[r] == KeptHosts(hosts, SelectedHosts(rec.hostvars.keys, hv, filter))
  {
    var hv := rec.hostvars.vals;
    var servers := SelectedHosts(rec.hostvars.keys, hv, filter);
    var names := rec.roles.keys;
    ApplyRolesOkIff(hv, rec.roles.vals, names, servers);
    if FilteredView(rec, filter).Ok? {
      ApplyRolesSpec(hv, rec.roles.vals, names, servers);
      var g := ApplyRoles(hv, rec.roles.vals, names, servers).value;
      forall r | r in rec.roles.vals && rec.roles.vals[r] != []
        ensures && ActiveGroup(r) in g && g[ActiveGroup(r)] == WithStatus(hv, rec.roles.vals[r], "active")
                && InactiveGroup(r) in g && g[InactiveGroup(r)] == WithStatus(hv, rec.roles.vals[r], "inactive")
                && r in g && g[r] == KeptHosts(rec.roles.vals[r], servers)
      {
        assert RoleOutcome(hv, rec.roles.vals, names, servers, g, r);
        SplitRoleSpec(hv, rec.roles.vals[r], servers);
      }
    }
  }

  /** The role loop fails exactly when some non-empty role has a host without a
      known status. */
  lemma {:induction false} ApplyRolesOkIff(hv: map<string, HostVars>, roleHosts: map<string, seq<string>>,
                                           names: seq<string>, servers: seq<string>)
    requires forall r | r in names :: r in roleHosts
    ensures ApplyRoles(hv, roleHosts, names, servers).Ok? <==>
      forall r | r in names :: RoleKnown(hv, roleHosts[r])
  {
    if names != [] {
      var init := names[..|names| - 1];
      var role := names[|names| - 1];
      assert names == init + [role];
      ApplyRolesOkIff(hv, roleHosts, init, servers);
      SplitRoleSpec(hv, roleHosts[role], servers);
    }
  }

  /** With the filter 'all' every role keeps its whole list. */
  lemma FilterAllKeepsEverything(rec: Record)
    requires ValidRecord(rec) && NoDerivedClash(rec.roles.vals)
    requires FilteredView(rec, "all").Ok?
    ensures forall r | r in rec.roles.vals ::
      r in FilteredView(rec, "all").value.groups && FilteredView(rec, "all").value.groups[r] == rec.roles.vals[r]
  {
    ViewSpec(rec, "all");
    var hv := rec.hostvars.vals;
    var servers := SelectedHosts(rec.hostvars.keys, hv, "all");
    forall r | r in rec.roles.vals && rec.roles.vals[r] != []
      ensures KeptHosts(rec.roles.vals[r], servers) == rec.roles.vals[r]
    {
      var hosts := rec.roles.vals[r];
      assert RoleKnown(hv, hosts);
      forall h | h in hosts ensures h in servers {
        var i :| 0 <= i < |hosts| && hosts[i] == h;
        assert KnownStatus(hv, hosts[i]);
      }
      KeptHostsAll(hosts, servers);
    }
  }

  /** A role's kept hosts are exactly its hosts that pass the filter. */
  lemma KeptMeansMatching(rec: Record, filter: string, hosts: seq<string>)
    requires ValidRecord(rec) && RoleKnown(rec.hostvars.vals, hosts)
    ensures forall h :: h in KeptHosts(hosts, SelectedHosts(rec.hostvars.keys, rec.hostvars.vals, filter)) <==>
      h in hosts && Matches(rec.hostvars.vals[h], filter)
  {
    var servers := SelectedHosts(rec.hostvars.keys, rec.hostvars.vals, filter);
    KeptHostsMembers(hosts, servers);
    forall h | h in hosts ensures h in rec.hostvars.keys {
      var i :| 0 <= i < |hosts| && hosts[i] == h;
      assert KnownStatus(rec.hostvars.vals, hosts[i]);
    }
  }

  // ---------------------------------------------------------------------
  // Reconcile (get_updated_inventory, first half)
  // ---------------------------------------------------------------------

  /** `hostvars.get(server)` is truthy: the entry has at least one attribute. */
  predicate HasAttributes(hv: HostVars)
  {
    hv.bgState.Some? || hv.svcStatus.Some? || hv.other != map[]
  }

  /** The merge loop over the new topology's hosts, in order: a host known to the
      old record with some attribute takes its old `bg_state` and `svc_status`
      (a missing one is a lookup failure). */
  function CarryOver(oldHv: map<string, HostVars>, order: seq<string>, nhv: OMap<HostVars>): (r: Result<OMap<HostVars>, InvError>)
    requires WellFormed(nhv) && forall i | 0 <= i < |order| :: order[i] in nhv.vals
    ensures r.Ok? ==> WellFormed(r.value) && r.value.keys == nhv.keys && r.value.vals.Keys == nhv.vals.Keys
  {
    if order == [] then Ok(nhv)
    else match CarryOver(oldHv, order[..|order| - 1], nhv)
      case Err(e) => Err(e)
      case Ok(m) => CarryOne(oldHv, order[|order| - 1], m)
  }

  /** One host of the merge: a host the stored record knows, with
      attributes, takes its states from there, and fails without either.
      A state is `Option<string>`, so a stored JSON `null` state reads as a
      missing one here, where Python would copy the `None`. */
  function CarryOne(oldHv: map<string, HostVars>, h: string, m: OMap<HostVars>): (r: Result<OMap<HostVars>, InvError>)
    requires WellFormed(m) && h in m.vals
    ensures r.Ok? ==> WellFormed(r.value) && r.value.keys == m.keys && r.value.vals.Keys == m.vals.Keys
  {
    if h in oldHv && HasAttributes(oldHv[h]) then
      if oldHv[h].bgState.None? then Err(MissingAttribute(h, "bg_state"))
      else if oldHv[h].svcStatus.None? then Err(MissingAttribute(h, "svc_status"))
      else Ok(Put(m, h, m.vals[h].(bgState := oldHv[h].bgState, svcStatus := oldHv[h].svcStatus)))
    else Ok(m)
  }

  /** Merging one more host of `order` applies `CarryOne` to the merge so far. */
  lemma CarryOverStep(oldHv: map<string, HostVars>, order: seq<string>, nhv: OMap<HostVars>, i: nat)
    requires WellFormed(nhv) && i < |order| && forall j | 0 <= j < |order| :: order[j] in nhv.vals
    requires CarryOver(oldHv, order[..i], nhv).Ok?
    ensures CarryOver(oldHv, order[..i + 1], nhv) == CarryOne(oldHv, order[i], CarryOver(oldHv, order[..i], nhv).value)
  {
    assert order[..i + 1][..i] == order[..i];
  }

  /** The record that reconciling stores: the new topology with the persisted
      states carried over. */
  function Reconciled(prior: Option<Record>, topology: Record): Result<Record, InvError>
    requires ValidRecord(topology)
  {
    if topology.hostvars.vals == map[] then Err(MalformedDefaultInventory)
    else match prior
      case None => Ok(topology)
      case Some(o) =>
        match CarryOver(o.hostvars.vals, topology.hostvars.keys, topology.hostvars)
        case Err(e) => Err(e)
        case Ok(m) => Ok(Record(m, topology.roles))
  }

  predicate CarriesState(oldHv: map<string, HostVars>, h: string)
  {
    h in oldHv && HasAttributes(oldHv[h])
  }

  /** How one host comes out of the merge. */
  function MergedHost(oldHv: map<string, HostVars>, h: string, topology: HostVars): HostVars
  {
    if CarriesState(oldHv, h) then topology.(bgState := oldHv[h].bgState, svcStatus := oldHv[h].svcStatus)
    else topology
  }

  lemma {:induction false} CarryOverSpec(oldHv: map<string, HostVars>, order: seq<string>, nhv: OMap<HostVars>)
    requires WellFormed(nhv) && Distinct(order) && forall h | h in order :: h in nhv.vals
    ensures CarryOver(oldHv, order, nhv).Ok? <==>
      forall h | h in order && CarriesState(oldHv, h) :: oldHv[h].bgState.Some? && oldHv[h].svcStatus.Some?
    ensures CarryOver(oldHv, order, nhv).Ok? ==>
      forall h | h in nhv.vals :: CarryOver(oldHv, order, nhv).value.vals[h] ==
        if h in order then MergedHost(oldHv, h, nhv.vals[h]) else nhv.vals[h]
  {
    if order != [] {
      var init := order[..|order| - 1];
      var h := order[|order| - 1];
      assert order == init + [h];
      assert forall i :: 0 <= i < |init| ==> init[i] == order[i];
      assert Distinct(init);
      assert h !in init;
      CarryOverSpec(oldHv, init, nhv);
    }
  }

  /** Reconciling keeps exactly the new topology's hosts and roles; a host that
      the old record knows (with some attribute) takes its old `bg_state` and
      `svc_status`, any other host keeps what the generator gave it. */
  lemma ReconcileSpec(prior: Option<Record>, topology: Record)
    requires ValidRecord(topology) && (prior.Some? ==> ValidRecord(prior.value))
    requires topology.hostvars.vals != map[]
    requires Reconciled(prior, topology).Ok?
    ensures var m := Reconciled(prior, topology).value;
      && ValidRecord(m)
      && m.roles == topology.roles
      && m.hostvars.keys == topology.hostvars.keys
      && m.hostvars.vals.Keys == topology.hostvars.vals.Keys
      && forall h | h in topology.hostvars.vals ::
        m.hostvars.vals[h] == (if prior.Some? then MergedHost(prior.value.hostvars.vals, h, topology.hostvars.vals[h])
                               else topology.hostvars.vals[h])
  {
    if prior.Some? {
      CarryOverSpec(prior.value.hostvars.vals, topology.hostvars.keys, topology.hostvars);
    }
  }

  /** Reconciling fails exactly when the new topology has no hosts, or a host
      carried over from the old record lacks one of the two states. */
  lemma ReconcileFails(prior: Option<Record>, topology: Record)
    requires ValidRecord(topology)
    ensures Reconciled(prior, topology).Err? <==>
      topology.hostvars.vals == map[] ||
      (prior.Some? && exists h | h in topology.hostvars.keys && CarriesState(prior.value.hostvars.vals, h) ::
                      prior.value.hostvars.vals[h].bgState.None? || prior.value.hostvars.vals[h].svcStatus.None?)
  {
    if prior.Some? {
      CarryOverSpec(prior.value.hostvars.vals, topology.hostvars.keys, topology.hostvars);
    }
  }

  // ---------------------------------------------------------------------
  // Flips and the blue list
  // ---------------------------------------------------------------------

  function FlipBg(hv: HostVars): HostVars
  {
    if hv.bgState == Some("blue") then hv.(bgState := Some("green"))
    else if hv.bgState == Some("green") then hv.(bgState := Some("blue"))
    else hv
  }

  function FlipSvc(hv: HostVars): HostVars
  {
    if hv.svcStatus == Some("active") then hv.(svcStatus := Some("inactive"))
    else if hv.svcStatus == Some("inactive") then hv.(svcStatus := Some("active"))
    else hv
  }

  /** One host's flip: `bg_state` for a switch, `svc_status` for a toggle. */
  function Flip(bg: bool, hv: HostVars): HostVars
  {
    if bg then FlipBg(hv) else FlipSvc(hv)
  }

  /** The record after `switch_bg_state`. */
  function Switched(rec: Record): Record
  {
    rec.(hostvars := OMap(rec.hostvars.keys, map h | h in rec.hostvars.vals :: Flip(true, rec.hostvars.vals[h])))
  }

  /** The record after `toggle_svc_status`. */
  function Toggled(rec: Record): Record
  {
    rec.(hostvars := OMap(rec.hostvars.keys, map h | h in rec.hostvars.vals :: Flip(false, rec.hostvars.vals[h])))
  }

  /** Blue and green are swapped, any other `bg_state` and everything else stays. */
  lemma FlipBgSpec(hv: HostVars)
    ensures FlipBg(hv).svcStatus == hv.svcStatus && FlipBg(hv).other == hv.other
    ensures hv.bgState == Some("blue") <==> FlipBg(hv).bgState == Some("green")
    ensures hv.bgState == Some("green") <==> FlipBg(hv).bgState == Some("blue")
    ensures hv.bgState != Some("blue") && hv.bgState != Some("green") ==> FlipBg(hv) == hv
  {
  }

  /** Switching twice restores every host. */
  lemma SwitchTwice(rec: Record)
    ensures Switched(Switched(rec)) == rec
    ensures ValidRecord(rec) ==> ValidRecord(Switched(rec))
  {
    var once := Switched(rec);
    assert forall h | h in rec.hostvars.vals :: FlipBg(FlipBg(rec.hostvars.vals[h])) == rec.hostvars.vals[h];
    assert Switched(once).hostvars.vals == rec.hostvars.vals;
  }

  /** Toggling twice restores every host. */
  lemma ToggleTwice(rec: Record)
    ensures Toggled(Toggled(rec)) == rec
    ensures ValidRecord(rec) ==> ValidRecord(Toggled(rec))
  {
    var once := Toggled(rec);
    assert forall h | h in rec.hostvars.vals :: FlipSvc(FlipSvc(rec.hostvars.vals[h])) == rec.hostvars.vals[h];
    assert Toggled(once).hostvars.vals == rec.hostvars.vals;
  }

  /** Switching never changes a service status and toggling never changes a
      blue/green state; each touches only its own attribute. */
  lemma FlipsIndependent(rec: Record)
    ensures forall h | h in rec.hostvars.vals ::
      && Switched(rec).hostvars.vals[h].svcStatus == rec.hostvars.vals[h].svcStatus
      && Toggled(rec).hostvars.vals[h].bgState == rec.hostvars.vals[h].bgState
      && Switched(rec).hostvars.vals[h].other == rec.hostvars.vals[h].other
      && Toggled(rec).hostvars.vals[h].other == rec.hostvars.vals[h].other
    ensures Switched(rec).roles == rec.roles && Toggled(rec).roles == rec.roles
  {
    var sw := Switched(rec).hostvars.vals;
    var tg := Toggled(rec).hostvars.vals;
    forall h | h in rec.hostvars.vals
      ensures sw[h] == FlipBg(rec.hostvars.vals[h]) && tg[h] == FlipSvc(rec.hostvars.vals[h])
    {
    }
  }

  /** The hosts of `order` whose `bg_state` is blue, in order. */
  function BlueHosts(order: seq<string>, hv: map<string, HostVars>): (r: seq<string>)
    requires forall h | h in order :: h in hv
    ensures forall h :: h in r <==> h in order && hv[h].bgState == Some("blue")
    ensures |r| <= |order|
  {
    if order == [] then []
    else
      var h := order[|order| - 1];
      var r := BlueHosts(order[..|order| - 1], hv);
      assert order == order[..|order| - 1] + [h];
      if hv[h].bgState == Some("blue") then r + [h] else r
  }

  /** The view `get_blue_servers` returns: every role lists the blue hosts. */
  function BlueView(rec: Record): View
    requires ValidRecord(rec)
  {
    var blue := BlueHosts(rec.hostvars.keys, rec.hostvars.vals);
    View(rec.hostvars.vals, map r | r in rec.roles.vals :: blue)
  }

  /** Keys mirrored to the replica when the root service toggles (`*-service`). */
  function ServiceKeys(store: map<string, Record>): set<string>
  {
    set k | k in store && EndsWith(k, "-service")
  }

  /** The replica after copying every `*-service` record of `store` verbatim. */
  function Mirrored(replica: map<string, Record>, store: map<string, Record>): (r: map<string, Record>)
    ensures r.Keys == replica.Keys + ServiceKeys(store)
    ensures forall k | k in ServiceKeys(store) :: r[k] == store[k]
    ensures forall k | k in replica && k !in ServiceKeys(store) :: r[k] == replica[k]
  {
    map k | k in replica.Keys + ServiceKeys(store) :: if k in ServiceKeys(store) then store[k] else replica[k]
  }

  // ---------------------------------------------------------------------
  // The loops, as the script runs them
  // ---------------------------------------------------------------------

  /** The role loop over one non-empty host list. */
  method SplitRoleHosts(hv: map<string, HostVars>, hosts: seq<string>, servers: seq<string>)
    returns (r: Result<Split, InvError>)
    ensures r == SplitRole(hv, hosts, servers)
  {
    var active, inactive, kept := [], [], [];
    var k := 0;
    while k < |hosts|
      invariant 0 <= k <= |hosts|
      invariant SplitRole(hv, hosts[..k], servers) == Ok(Split(active, inactive, kept))
    {
      var h := hosts[k];
      assert hosts[..k + 1][..k] == hosts[..k];
      if h !in hv {
        SplitRolePrefixErr(hv, hosts, servers, k + 1);
        return Err(UnknownHost(h));
      }
      if hv[h].svcStatus == Some("active") {
        active := active + [h];
      } else if hv[h].svcStatus == Some("inactive") {
        inactive := inactive + [h];
      } else {
        SplitRolePrefixErr(hv, hosts, servers, k + 1);
        return Err(UnknownServiceStatus(h));
      }
      if h in servers {
        kept := kept + [h];
      }
      k := k + 1;
    }
    assert hosts[..k] == hosts;
    r := Ok(Split(active, inactive, kept));
  }

  lemma {:induction false} SplitRolePrefixErr(hv: map<string, HostVars>, hosts: seq<string>, servers: seq<string>, k: nat)
    requires k <= |hosts| && SplitRole(hv, hosts[..k], servers).Err?
    ensures SplitRole(hv, hosts, servers) == SplitRole(hv, hosts[..k], servers)
    decreases |hosts| - k
  {
    if k < |hosts| {
      var init := hosts[..|hosts| - 1];
      assert init[..k] == hosts[..k];
      SplitRolePrefixErr(hv, init, servers, k);
    } else {
      assert hosts[..k] == hosts;
    }
  }

  lemma {:induction false} ApplyRolesPrefixErr(hv: map<string, HostVars>, roleHosts: map<string, seq<string>>,
                                               names: seq<string>, servers: seq<string>, k: nat)
    requires k <= |names| && forall r | r in names :: r in roleHosts
    requires ApplyRoles(hv, roleHosts, names[..k], servers).Err?
    ensures ApplyRoles(hv, roleHosts, names, servers) == ApplyRoles(hv, roleHosts, names[..k], servers)
    decreases |names| - k
  {
    if k < |names| {
      var init := names[..|names| - 1];
      assert init[..k] == names[..k];
      ApplyRolesPrefixErr(hv, roleHosts, init, servers, k);
    } else {
      assert names[..k] == names;
    }
  }

  /** The listing computation shared by the stored and the refreshed view. */
  method ComputeView(rec: Record, filter: string) returns (r: Result<View, InvError>)
    requires ValidRecord(rec)
    ensures r == FilteredView(rec, filter)
  {
    var servers := SelectServers(rec.hostvars, filter);
    var groups := GroupRoles(rec.hostvars.vals, rec.roles, servers);
    if groups.Err? {
      return Err(groups.error);
    }
    r := Ok(View(rec.hostvars.vals, groups.value));
  }

  /** The host loop of the listing: the hosts that pass the filter, in order. */
  method SelectServers(hv: OMap<HostVars>, filter: string) returns (servers: seq<string>)
    requires WellFormed(hv)
    ensures servers == SelectedHosts(hv.keys, hv.vals, filter)
  {
    servers := [];
    var i := 0;
    while i < |hv.keys|
      invariant 0 <= i <= |hv.keys|
      invariant servers == SelectedHosts(hv.keys[..i], hv.vals, filter)
    {
      var h := hv.keys[i];
      assert hv.keys[..i + 1][..i] == hv.keys[..i];
      if filter == "all" {
        servers := servers + [h];
      } else if hv.vals[h].bgState == Some(filter) {
        servers := servers + [h];
      } else if hv.vals[h].svcStatus == Some(filter) {
        servers := servers + [h];
      }
      i := i + 1;
    }
    assert hv.keys[..i] == hv.keys;
  }

  /** The role loop of the listing: the derived groups of every non-empty role. */
  method GroupRoles(hv: map<string, HostVars>, roles: OMap<seq<string>>, servers: seq<string>)
    returns (r: Result<map<string, seq<string>>, InvError>)
    requires WellFormed(roles)
    ensures r == ApplyRoles(hv, roles.vals, roles.keys, servers)
  {
    var names := roles.keys;
    var groups := roles.vals;
    var j := 0;
    while j < |names|
      invariant 0 <= j <= |names|
      invariant ApplyRoles(hv, roles.vals, names[..j], servers) == Ok(groups)
    {
      var role := names[j];
      ApplyRolesNext(hv, roles.vals, names, servers, j);
      var hosts := roles.vals[role];
      if hosts != [] {
        var sp := SplitRoleHosts(hv, hosts, servers);
        if sp.Err? {
          ApplyRolesPrefixErr(hv, roles.vals, names, servers, j + 1);
          return Err(sp.error);
        }
        groups := groups[ActiveGroup(role) := sp.value.active];
        groups := groups[InactiveGroup(role) := sp.value.inactive];
        groups := groups[role := sp.value.kept];
      }
      j := j + 1;
    }
    assert names[..j] == names;
    r := Ok(groups);
  }

  /** The blue-host loop of `get_blue_servers` over a record. */
  method CollectBlue(rec: Record) returns (v: View)
    requires ValidRecord(rec)
    ensures v == BlueView(rec)
  {
    var hv := rec.hostvars;
    var servers: seq<string> := [];
    var i := 0;
    while i < |hv.keys|
      invariant 0 <= i <= |hv.keys|
      invariant servers == BlueHosts(hv.keys[..i], hv.vals)
    {
      assert hv.keys[..i + 1][..i] == hv.keys[..i];
      var h := hv.keys[i];
      if hv.vals[h].bgState == Some("blue") {
        servers := servers + [h];
      }
      i := i + 1;
    }
    assert hv.keys[..i] == hv.keys;
    var groups := AssignAll(rec.roles, servers);
    v := View(hv.vals, groups);
  }

  /** Every role of `roles` set to the same host list. */
  method AssignAll(roles: OMap<seq<string>>, hosts: seq<string>) returns (groups: map<string, seq<string>>)
    requires WellFormed(roles)
    ensures groups == map r | r in roles.vals :: hosts
  {
    groups := roles.vals;
    var names := roles.keys;
    var j := 0;
    while j < |names|
      invariant 0 <= j <= |names|
      invariant groups.Keys == roles.vals.Keys
      invariant forall m | 0 <= m < j :: groups[names[m]] == hosts
    {
      groups := groups[names[j] := hosts];
      j := j + 1;
    }
    forall r | r in groups ensures groups[r] == hosts {
      var m :| 0 <= m < |names| && names[m] == r;
    }
  }

  /** The hostvars after the host loop has flipped the first `n` hosts. */
  function FlippedUpTo(o: OMap<HostVars>, n: nat, bg: bool): map<string, HostVars>
    requires n <= |o.keys|
  {
    map h | h in o.vals :: if h in o.keys[..n] then Flip(bg, o.vals[h]) else o.vals[h]
  }

  /** One more host flipped: the next host still has its original entry, and
      flipping it extends the prefix. */
  lemma FlippedStep(o: OMap<HostVars>, n: nat, bg: bool)
    requires WellFormed(o) && n < |o.keys|
    ensures o.keys[n] in FlippedUpTo(o, n, bg) && FlippedUpTo(o, n, bg)[o.keys[n]] == o.vals[o.keys[n]]
    ensures FlippedUpTo(o, n + 1, bg) == FlippedUpTo(o, n, bg)[o.keys[n] := Flip(bg, o.vals[o.keys[n]])]
  {
    var k := o.keys[n];
    assert o.keys[..n + 1] == o.keys[..n] + [k];
    assert k !in o.keys[..n] by {
      forall m | 0 <= m < n ensures o.keys[..n][m] != k {
        assert o.keys[..n][m] == o.keys[m];
      }
    }
    var before, after := FlippedUpTo(o, n, bg), FlippedUpTo(o, n + 1, bg);
    var updated := before[k := Flip(bg, o.vals[k])];
    assert after.Keys == updated.Keys;
    forall h | h in after
      ensures after[h] == updated[h]
    {
      assert h in o.keys[..n + 1] <==> h in o.keys[..n] || h == k;
    }
  }

  /** After the last host every host is flipped. */
  lemma FlippedAll(o: OMap<HostVars>, bg: bool)
    requires WellFormed(o)
    ensures FlippedUpTo(o, |o.keys|, bg) == map h | h in o.vals :: Flip(bg, o.vals[h])
  {
    assert o.keys[..|o.keys|] == o.keys;
  }

  /** The host loop of `switch_bg_state`, on a copy of the record. */
  method SwitchRecord(rec: Record) returns (updated: Record)
    requires ValidRecord(rec)
    ensures updated == Switched(rec)
  {
    var keys := rec.hostvars.keys;
    var vals := rec.hostvars.vals;
    var i := 0;
    while i < |keys|
      invariant 0 <= i <= |keys|
      invariant vals == FlippedUpTo(rec.hostvars, i, true)
    {
      var h := keys[i];
      FlippedStep(rec.hostvars, i, true);
      vals := vals[h := Flip(true, vals[h])];
      i := i + 1;
    }
    FlippedAll(rec.hostvars, true);
    updated := rec.(hostvars := OMap(keys, vals));
  }

  /** The host loop of `toggle_svc_status`, on a copy of the record. */
  method ToggleRecord(rec: Record) returns (updated: Record)
    requires ValidRecord(rec)
    ensures updated == Toggled(rec)
  {
    var keys := rec.hostvars.keys;
    var vals := rec.hostvars.vals;
    var i := 0;
    while i < |keys|
      invariant 0 <= i <= |keys|
      invariant vals == FlippedUpTo(rec.hostvars, i, false)
    {
      var h := keys[i];
      FlippedStep(rec.hostvars, i, false);
      vals := vals[h := Flip(false, vals[h])];
      i := i + 1;
    }
    FlippedAll(rec.hostvars, false);
    updated := rec.(hostvars := OMap(keys, vals));
  }

  /** The mirror loop of the root service's toggle: copy each `*-service` record. */
  method MirrorServices(replica: map<string, Record>, store: map<string, Record>) returns (rep: map<string, Record>)
    ensures rep == Mirrored(replica, store)
  {
    rep := replica;
    var todo := ServiceKeys(store);
    while todo != {}
      invariant todo <= ServiceKeys(store)
      invariant rep.Keys == replica.Keys + (ServiceKeys(store) - todo)
      invariant forall k | k in ServiceKeys(store) - todo :: rep[k] == store[k]
      invariant forall k | k in replica && k !in ServiceKeys(store) - todo :: rep[k] == replica[k]
      decreases todo
    {
      var k :| k in todo;
      rep := rep[k := store[k]];
      todo := todo - {k};
    }
  }

  // ---------------------------------------------------------------------
  // The store
  // ---------------------------------------------------------------------

  /** The primary key-value store, its optional passive replica and the
      side files the listings write (keyed by store key). */
  class InventoryStore {
    var primary: map<string, Record>
    var replica: Option<map<string, Record>>
    var sideFiles: map<string, View>

    ghost predicate Valid()
      reads this
    {
      (forall k | k in primary :: ValidRecord(primary[k])) &&
      (replica.Some? ==> forall k | k in replica.value :: ValidRecord(replica.value[k]))
    }

    constructor (primary: map<string, Record>, replica: Option<map<string, Record>>)
      requires forall k | k in primary :: ValidRecord(primary[k])
      requires replica.Some? ==> forall k | k in replica.value :: ValidRecord(replica.value[k])
      ensures Valid()
      ensures this.primary == primary && this.replica == replica && sideFiles == map[]
    {
      this.primary := primary;
      this.replica := replica;
      sideFiles := map[];
    }

    /** `get_stored_inventory`: the view of the stored record; a missing record
        stops before anything else happens. */
    method GetStoredInventory(key: string, filter: string) returns (r: Result<View, InvError>)
      requires Valid()
      ensures key !in primary ==> r == Err(MissingInventory(key))
      ensures key in primary ==> r == FilteredView(primary[key], filter)
    {
      if key !in primary {
        return Err(MissingInventory(key));
      }
      r := ComputeView(primary[key], filter);
    }

    /** The loop of `get_updated_inventory` over the hosts of the new
        topology: a host that the stored record knows, with attributes,
        takes its blue/green state and service status from there; one
        without either of them stops the merge. */
    static method CarryOverStates(oldHv: map<string, HostVars>, nhv0: OMap<HostVars>) returns (r: Result<OMap<HostVars>, InvError>)
      requires WellFormed(nhv0)
      ensures r == CarryOver(oldHv, nhv0.keys, nhv0)
    {
      var order := nhv0.keys;
      var nhv := nhv0;
      var i := 0;
      while i < |order|
        invariant 0 <= i <= |order|
        invariant CarryOver(oldHv, order[..i], nhv0) == Ok(nhv)
      {
        var h := order[i];
        CarryOverStep(oldHv, order, nhv0, i);
        if h in oldHv && HasAttributes(oldHv[h]) {
          if oldHv[h].bgState.None? {
            CarryOverPrefixErr(oldHv, order, nhv0, i + 1);
            return Err(MissingAttribute(h, "bg_state"));
          }
          if oldHv[h].svcStatus.None? {
            CarryOverPrefixErr(oldHv, order, nhv0, i + 1);
            return Err(MissingAttribute(h, "svc_status"));
          }
          nhv := Put(nhv, h, nhv.vals[h].(bgState := oldHv[h].bgState, svcStatus := oldHv[h].svcStatus));
        }
        i := i + 1;
      }
      assert order[..i] == order;
      r := Ok(nhv);
    }

    /** `get_updated_inventory`: merge the persisted states onto the new
        topology, store the merged record, then compute its view. */
    method GetUpdatedInventory(key: string, filter: string, topology: Record) returns (r: Result<View, InvError>)
      requires Valid() && ValidRecord(topology)
      modifies this
      ensures Valid() && replica == old(replica) && sideFiles == old(sideFiles)
      ensures var merged := Reconciled(if key in old(primary) then Some(old(primary)[key]) else None, topology);
        if merged.Err? then r == Err(merged.error) && primary == old(primary)
        else primary == old(primary)[key := merged.value] && r == FilteredView(merged.value, filter)
    {
      var stored: Option<Record> := if key in primary then Some(primary[key]) else None;
      if topology.hostvars.vals == map[] {
        return Err(MalformedDefaultInventory);
      }
      var merged := topology;
      if stored.Some? {
        var carried := CarryOverStates(stored.value.hostvars.vals, topology.hostvars);
        if carried.Err? {
          return Err(carried.error);
        }
        merged := Record(carried.value, topology.roles);
      }
      primary := primary[key := merged];
      r := ComputeView(merged, filter);
    }

    /** `switch_bg_state`: swap blue and green on every host and write the
        record to the store and, when there is one, to the replica. */
    method SwitchBgState(key: string) returns (r: Result<(), InvError>)
      requires Valid()
      modifies this
      ensures Valid() && sideFiles == old(sideFiles)
      ensures key !in old(primary) ==> r == Err(MissingInventory(key)) && primary == old(primary) && replica == old(replica)
      ensures key in old(primary) ==>
        && r == Ok(())
        && primary == old(primary)[key := Switched(old(primary)[key])]
        && replica == (if old(replica).Some? then Some(old(replica).value[key := Switched(old(primary)[key])]) else None)
    {
      if key !in primary {
        return Err(MissingInventory(key));
      }
      var rec := primary[key];
      var updated := SwitchRecord(rec);
      SwitchTwice(rec);
      primary := primary[key := updated];
      if replica.Some? {
        replica := Some(replica.value[key := updated]);
      }
      r := Ok(());
    }

    /** `toggle_svc_status`: swap active and inactive on every host and write
        the record; with a replica, the root service's toggle copies every
        `*-service` record to it verbatim, any other service copies only itself. */
    method ToggleSvcStatus(key: string) returns (r: Result<(), InvError>)
      requires Valid()
      modifies this
      ensures Valid() && sideFiles == old(sideFiles)
      ensures key !in old(primary) ==> r == Err(MissingInventory(key)) && primary == old(primary) && replica == old(replica)
      ensures key in old(primary) ==>
        && r == Ok(())
        && primary == old(primary)[key := Toggled(old(primary)[key])]
        && replica == (if old(replica).None? then None
                       else if key == RootKey then Some(Mirrored(old(replica).value, primary))
                       else Some(old(replica).value[key := Toggled(old(primary)[key])]))
    {
      if key !in primary {
        return Err(MissingInventory(key));
      }
      var rec := primary[key];
      var updated := ToggleRecord(rec);
      ToggleTwice(rec);
      primary := primary[key := updated];
      if replica.Some? {
        if key == RootKey {
          var rep := MirrorServices(replica.value, primary);
          replica := Some(rep);
        } else {
          replica := Some(replica.value[key := updated]);
        }
      }
      r := Ok(());
    }

    /** `get_blue_servers`: every role lists the blue hosts (no check for a
        missing record: reading one fails). */
    method GetBlueServers(key: string) returns (r: Result<View, InvError>)
      requires Valid()
      ensures key !in primary ==> r == Err(MissingInventory(key))
      ensures key in primary ==> r == Ok(BlueView(primary[key]))
    {
      if key !in primary {
        return Err(MissingInventory(key));
      }
      var v := CollectBlue(primary[key]);
      r := Ok(v);
    }

    /** `list_inventory`: with a default inventory, reconcile and list; without,
        list the stored record. Only a listing that succeeds writes the side file. */
    method ListInventory(key: string, filter: string, defaultInventory: Option<Result<Record, InvError>>)
      returns (r: Result<View, InvError>)
      requires Valid()
      requires defaultInventory.Some? && defaultInventory.value.Ok? ==> ValidRecord(defaultInventory.value.value)
      modifies this
      ensures Valid() && replica == old(replica)
      ensures defaultInventory.None? ==>
        primary == old(primary) &&
        r == (if key in primary then FilteredView(primary[key], filter) else Err(MissingInventory(key)))
      ensures defaultInventory.Some? && defaultInventory.value.Err? ==>
        primary == old(primary) && r == Err(defaultInventory.value.error)
      ensures defaultInventory.Some? && defaultInventory.value.Ok? ==>
        var merged := Reconciled(if key in old(primary) then Some(old(primary)[key]) else None, defaultInventory.value.value);
        if merged.Err? then r == Err(merged.error) && primary == old(primary)
        else primary == old(primary)[key := merged.value] && r == FilteredView(merged.value, filter)
      ensures r.Ok? ==> sideFiles == old(sideFiles)[key := r.value]
      ensures r.Err? ==> sideFiles == old(sideFiles)
    {
      if defaultInventory.Some? {
        if defaultInventory.value.Err? {
          return Err(defaultInventory.value.error);
        }
        r := GetUpdatedInventory(key, filter, defaultInventory.value.value);
      } else {
        r := GetStoredInventory(key, filter);
      }
      if r.Ok? {
        sideFiles := sideFiles[key := r.value];
      }
    }

    /** `refresh_inventory`: store the generator's record verbatim (no merge). */
    method RefreshInventory(key: string, generated: Result<Record, InvError>) returns (r: Result<(), InvError>)
      requires Valid() && (generated.Ok? ==> ValidRecord(generated.value))
      modifies this
      ensures Valid() && replica == old(replica) && sideFiles == old(sideFiles)
      ensures generated.Err? ==> r == Err(generated.error) && primary == old(primary)
      ensures generated.Ok? ==> r == Ok(()) && primary == old(primary)[key := generated.value]
    {
      if generated.Err? {
        return Err(generated.error);
      }
      primary := primary[key := generated.value];
      r := Ok(());
    }

    /** The toggle action of `main`. As written, `main` passes the key
        `ServiceKeyAsWritten(args.service)`, which always carries an appended
        `-service`; the evidently intended key is `ServiceKey(args.service)`.
        When a single server was named (`--redis_server`), the replica
        variable is never bound and reading it raises before anything is
        written. Otherwise the root service cannot be toggled without a
        replica. */
    method ToggleCommand(key: string, singleServer: bool) returns (r: Result<(), InvError>)
      requires Valid()
      modifies this
      ensures Valid() && sideFiles == old(sideFiles)
      ensures singleServer ==> r == Err(UnboundReplica) && primary == old(primary) && replica == old(replica)
      ensures !singleServer && key == RootKey && old(replica).None? ==>
        r == Err(NoReplicaForRoot) && primary == old(primary) && replica == old(replica)
      ensures !singleServer && !(key == RootKey && old(replica).None?) && key !in old(primary) ==>
        r == Err(MissingInventory(key)) && primary == old(primary) && replica == old(replica)
      ensures !singleServer && !(key == RootKey && old(replica).None?) && key in old(primary) ==>
        && r == Ok(())
        && primary == old(primary)[key := Toggled(old(primary)[key])]
        && replica == (if old(replica).None? then None
                       else if key == RootKey then Some(Mirrored(old(replica).value, primary))
                       else Some(old(replica).value[key := Toggled(old(primary)[key])]))
    {
      if singleServer {
        return Err(UnboundReplica);
      }
      if key == RootKey && replica.None? {
        return Err(NoReplicaForRoot);
      }
      r := ToggleSvcStatus(key);
    }

    /** The switch action of `main`: like the toggle, it is passed the key
        `ServiceKeyAsWritten(args.service)` and reads the replica variable,
        which is unbound when a single server was named. */
    method SwitchCommand(key: string, singleServer: bool) returns (r: Result<(), InvError>)
      requires Valid()
      modifies this
      ensures Valid() && sideFiles == old(sideFiles)
      ensures singleServer ==> r == Err(UnboundReplica) && primary == old(primary) && replica == old(replica)
      ensures !singleServer && key !in old(primary) ==>
        r == Err(MissingInventory(key)) && primary == old(primary) && replica == old(replica)
      ensures !singleServer && key in old(primary) ==>
        && r == Ok(())
        && primary == old(primary)[key := Switched(old(primary)[key])]
        && replica == (if old(replica).Some? then Some(old(replica).value[key := Switched(old(primary)[key])]) else None)
    {
      if singleServer {
        return Err(UnboundReplica);
      }
      r := SwitchBgState(key);
    }
  }

  lemma {:induction false} CarryOverPrefixErr(oldHv: map<string, HostVars>, order: seq<string>, nhv: OMap<HostVars>, k: nat)
    requires WellFormed(nhv) && k <= |order| && forall i | 0 <= i < |order| :: order[i] in nhv.vals
    requires CarryOver(oldHv, order[..k], nhv).Err?
    ensures CarryOver(oldHv, order, nhv) == CarryOver(oldHv, order[..k], nhv)
    decreases |order| - k
  {
    if k < |order| {
      var init := order[..|order| - 1];
      assert init[..k] == order[..k];
      CarryOverPrefixErr(oldHv, init, nhv, k);
    } else {
      assert order[..k] == order;
    }
  }

  // ---------------------------------------------------------------------
  // Command line (main)
  // ---------------------------------------------------------------------

  /** Python `re.match(pattern, subject)` for a pattern without special
      characters: the pattern is a prefix of the subject. */
  predicate LiteralMatch(pattern: string, subject: string)
  {
    StartsWith(subject, pattern)
  }

  /** The key normalisation of `main` as written: the regex is the name plus
      `-service` and the subject is the bare name. */
  function ServiceKeyAsWritten(service: string): string
  {
    if LiteralMatch(service + "-service", service) then service else service + "-service"
  }

  /** As written, the suffix is always appended, even to a name that already
      carries it (for a name without regex metacharacters, which
      `LiteralMatch` assumes). */
  lemma ServiceKeyAlwaysAppends(service: string)
    ensures ServiceKeyAsWritten(service) == service + "-service"
  {
    assert |service + "-service"| > |service|;
  }

  lemma ServiceKeyDoubleSuffix()
    ensures ServiceKeyAsWritten("redis-service") == "redis-service-service"
  {
    ServiceKeyAlwaysAppends("redis-service");
  }

  /** The evidently intended normalisation: append the suffix unless the name
      already ends with it. */
  function ServiceKey(service: string): (k: string)
    ensures EndsWith(k, "-service")
    ensures EndsWith(service, "-service") ==> k == service
    ensures !EndsWith(service, "-service") ==> k == service + "-service"
  {
    if EndsWith(service, "-service") then service else
      var k := service + "-service";
      assert k[|k| - 8..] == "-service";
      k
  }

  lemma ServiceKeyIdempotent(service: string)
    ensures ServiceKey(ServiceKey(service)) == ServiceKey(service)
  {
  }

  /** The listing filter of `main`: `--svc_status` wins over `--bg_state`,
      which wins over 'all' (an empty option counts as not given). */
  function ChooseFilter(bgState: string, svcStatus: string): (f: string)
    ensures svcStatus != "" ==> f == svcStatus
    ensures svcStatus == "" && bgState != "" ==> f == bgState
    ensures svcStatus == "" && bgState == "" ==> f == "all"
  {
    var f := "all";
    var f := if bgState != "" then bgState else f;
    if svcStatus != "" then svcStatus else f
  }
}
