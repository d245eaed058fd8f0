/**
 * The reconciliation of imported records against the site's hosts
 * (`FileConnector._partition_hosts`): which remote hosts belong to this
 * connection, and which hosts are to be created, modified, moved or deleted.
 */
module Engine {
  import opened Wrappers
  import opened Errors
  import opened Text
  import opened PyDict
  import opened Records
  import opened Tags
  import opened Paths
  import opened Remote

  /** The connection settings the partitioning reads. A prefix or template of `""` means none. */
  datatype Config = Config(
    globalIdent: Value,
    hostOvertakeFilters: seq<string -> bool>,
    hostFilters: seq<string -> bool>,
    labelPrefix: string,
    labelPathTemplate: string,
    folder: string,
    ipOrder: IpFieldOrder)

  // ---------------------------------------------------------------- ownership

  /** `overtake_host`: some overtake filter matches; with no filters, none does. */
  predicate OvertakeHost(cfg: Config, name: string) {
    exists i :: 0 <= i < |cfg.hostOvertakeFilters| && cfg.hostOvertakeFilters[i](name)
  }

  /** `host_matches_filters`: no filters accept every host, otherwise some filter must match. */
  predicate HostMatchesFilters(cfg: Config, name: string) {
    cfg.hostFilters == [] || exists i :: 0 <= i < |cfg.hostFilters| && cfg.hostFilters[i](name)
  }

  datatype Ownership = Managed | Overtaken | Unrelated

  /** Locked by this connection: managed; unlocked and matched by an overtake filter: overtaken. */
  function OwnershipOf(cfg: Config, name: string, host: RemoteHost): Ownership {
    if LockedBy(host) == cfg.globalIdent then Managed
    else if OvertakeHost(cfg, name) && !Truthy(LockedBy(host)) then Overtaken
    else Unrelated
  }

  function OwnedAs(cfg: Config, remote: map<string, RemoteHost>, o: Ownership): set<string> {
    set n | n in remote && OwnershipOf(cfg, n, remote[n]) == o
  }

  /**
   * Every remote host is in exactly one group; managed means locked by this
   * connection; an overtaken host is not locked at all; without overtake
   * filters nothing is overtaken.
   */
  lemma OwnershipPartition(cfg: Config, remote: map<string, RemoteHost>)
    ensures OwnedAs(cfg, remote, Managed) + OwnedAs(cfg, remote, Overtaken) + OwnedAs(cfg, remote, Unrelated) == remote.Keys
    ensures OwnedAs(cfg, remote, Managed) !! OwnedAs(cfg, remote, Overtaken)
    ensures OwnedAs(cfg, remote, Managed) !! OwnedAs(cfg, remote, Unrelated)
    ensures OwnedAs(cfg, remote, Overtaken) !! OwnedAs(cfg, remote, Unrelated)
    ensures forall n :: n in OwnedAs(cfg, remote, Managed) <==> n in remote && LockedBy(remote[n]) == cfg.globalIdent
    ensures forall n :: n in OwnedAs(cfg, remote, Overtaken) ==> !Truthy(LockedBy(remote[n])) && OvertakeHost(cfg, n)
    ensures cfg.hostOvertakeFilters == [] ==> OwnedAs(cfg, remote, Overtaken) == {}
  {
  }

  /** The classification loop of `_partition_hosts`. */
  method ClassifyHosts(cfg: Config, remote: map<string, RemoteHost>)
    returns (managed: set<string>, overtake: set<string>, unrelated: set<string>)
    ensures managed == OwnedAs(cfg, remote, Managed)
    ensures overtake == OwnedAs(cfg, remote, Overtaken)
    ensures unrelated == OwnedAs(cfg, remote, Unrelated)
  {
    managed, overtake, unrelated := {}, {}, {};
    var todo := remote.Keys;
    while todo != {}
      invariant todo <= remote.Keys
      invariant forall n :: n in managed <==> n in remote && n !in todo && OwnershipOf(cfg, n, remote[n]) == Managed
      invariant forall n :: n in overtake <==> n in remote && n !in todo && OwnershipOf(cfg, n, remote[n]) == Overtaken
      invariant forall n :: n in unrelated <==> n in remote && n !in todo && OwnershipOf(cfg, n, remote[n]) == Unrelated
      decreases |todo|
    {
      var name :| name in todo;
      var lockedBy := Get(remote[name].attributes, "locked_by");
      if lockedBy == cfg.globalIdent {
        managed := managed + {name};
      } else if OvertakeHost(cfg, name) && !Truthy(lockedBy) {
        overtake := overtake + {name};
      } else {
        unrelated := unrelated + {name};
      }
      todo := todo - {name};
    }
  }

  // ---------------------------------------------------------------- comparisons

  /** `needs_modification`: some entry of `after` is missing from `before` or differs there. */
  predicate NeedsModification<V(==)>(before: map<string, V>, after: map<string, V>) {
    exists k :: k in after && (k !in before || before[k] != after[k])
  }

  /** Nothing needs modifying exactly when updating `before` with `after` would leave it as it is. */
  lemma NeedsModificationIffUpdateChanges<V>(before: map<string, V>, after: map<string, V>)
    ensures !NeedsModification(before, after) <==> before + after == before
  {
    if before + after == before {
      forall k | k in after ensures k in before && before[k] == after[k] {
        assert (before + after)[k] == after[k];
      }
    }
  }

  /** `add_prefix_to_labels`. */
  function AddPrefixToLabels(labels: map<string, string>, prefix: string): (r: map<string, string>)
    ensures prefix == "" ==> r == labels
    ensures forall k :: k in labels ==> prefix + k in r && r[prefix + k] == labels[k]
    ensures forall k :: k in r ==> StartsWith(k, prefix) && k[|prefix|..] in labels
  {
    if prefix == "" then
      assert forall k :: "" + k == k;
      labels
    else
      PrefixInjective(prefix);
      var r := map k | k in labels :: prefix + k := labels[k];
      assert forall k :: k in r ==> StartsWith(k, prefix) && k[|prefix|..] in labels by {
        forall k | k in r ensures StartsWith(k, prefix) && k[|prefix|..] in labels {
          var j :| j in labels && k == prefix + j;
          PrefixStripped(prefix, j);
        }
      }
      r
  }

  /** `prefix + k` starts with `prefix`, and dropping the prefix gives `k` back. */
  lemma PrefixStripped(prefix: string, k: string)
    ensures StartsWith(prefix + k, prefix) && (prefix + k)[|prefix|..] == k
  {
  }

  /** Prefixing is one-to-one. */
  lemma PrefixInjective(prefix: string)
    ensures forall a, b :: prefix + a == prefix + b ==> a == b
  {
    forall a, b | prefix + a == prefix + b ensures a == b {
      PrefixStripped(prefix, a);
      PrefixStripped(prefix, b);
    }
  }

  /** The remote labels this connection manages: all of them, or with a prefix only the prefixed ones. */
  function ManagedLabels(labels: map<string, string>, prefix: string): (r: map<string, string>)
    ensures forall k :: k in r <==> k in labels && StartsWith(k, prefix)
    ensures forall k :: k in r ==> r[k] == labels[k]
  {
    if prefix == "" then labels else map k | k in labels && StartsWith(k, prefix) :: labels[k]
  }

  /** `ip_needs_modification`, with a missing or null `ipaddress` read as `None`. */
  predicate IpNeedsModification(existing: Value, future: Option<string>) {
    existing != (if future.Some? then Str(future.value) else Null)
  }

  // ---------------------------------------------------------------- per-record tuples

  /** Everything `_partition_hosts` and its nested functions read besides the records. */
  datatype Env = Env(
    cfg: Config,
    tags: Option<TagMatcher>,
    hostnameField: string,
    updateIps: bool,
    remote: map<string, RemoteHost>,
    overtake: set<string>,
    unrelated: set<string>)

  function FolderPathOf(cfg: Config, labels: map<string, string>): string {
    FolderPath(cfg.labelPathTemplate, cfg.folder, labels)
  }

  /** The record's tags resolved against the catalogue; none when there is no catalogue. */
  function FutureTags(tags: Option<TagMatcher>, rec: Record): Result<map<string, string>, Error> {
    if tags.None? then Success(map[]) else CreateHostTags(tags.value, HostTags(rec))
  }

  /** The catalogue holds only tag names (as `create_hostlike_tags` builds it). */
  predicate TagCatalogue(tags: Option<TagMatcher>) {
    tags.Some? ==> forall k :: k in ToMap(tags.value.original) ==> IsTag(k)
  }

  /** A tag name starts with `t` or `T`, so it is none of the attribute names the connector sets itself. */
  lemma TagNameIsNotReserved(k: string)
    requires IsTag(k)
    ensures k !in BUILTIN_ATTRIBUTES && k != "hostname" && k != "ipaddress"
  {
    assert Lower(k)[..4] == "tag_";
    assert LowerChar(k[0]) == Lower(k)[0] == 't';
    assert k[0] == 't' || k[0] == 'T';
  }

  lemma FutureTagsAreTags(env: Env, rec: Record)
    requires TagCatalogue(env.tags) && FutureTags(env.tags, rec).Success?
    ensures forall k :: k in FutureTags(env.tags, rec).value ==> IsTag(k)
  {
    if env.tags.Some? {
      CreateHostTagsFrom(env.tags.value, HostTags(rec));
    }
  }

  datatype Creation = Creation(name: string, folder: string, attributes: Attributes)

  /**
   * The attributes of a new host: labels and the lock, then the IP address,
   * then the tags, then the record's attributes, each later one winning.
   */
  function CreationAttributes(ident: Value, labels: map<string, string>, ip: Option<string>,
                              tags: map<string, string>, attributes: map<string, string>): (a: Attributes)
    requires forall k :: k in attributes ==> k !in BUILTIN_ATTRIBUTES
    ensures (forall k :: k in tags ==> IsTag(k)) ==> Get(a, "locked_by") == ident && Get(a, "labels") == Obj(labels)
    ensures forall k :: k in attributes ==> Get(a, k) == Str(attributes[k])
    ensures forall k :: k in tags && k !in attributes ==> Get(a, k) == Str(tags[k])
    ensures ip.Some? && "ipaddress" !in tags && "ipaddress" !in attributes ==> Get(a, "ipaddress") == Str(ip.value)
    ensures forall k :: k in a <==>
      k == "labels" || k == "locked_by" || (ip.Some? && k == "ipaddress") || k in tags || k in attributes
  {
    var a0: Attributes := map["labels" := Obj(labels), "locked_by" := ident];
    var a1 := if ip.Some? then a0["ipaddress" := Str(ip.value)] else a0;
    var a := a1 + Lift(tags) + Lift(attributes);
    if forall k :: k in tags ==> IsTag(k) then TagsAreNotReserved(tags); a else a
  }

  lemma TagsAreNotReserved(tags: map<string, string>)
    requires forall k :: k in tags ==> IsTag(k)
    ensures forall k :: k in tags ==> k !in BUILTIN_ATTRIBUTES
    ensures "ipaddress" !in tags
  {
    forall k | k in tags ensures k !in BUILTIN_ATTRIBUTES && k != "ipaddress" { TagNameIsNotReserved(k); }
  }

  /**
   * `get_host_creation_tuple`: the new host, locked by this connection,
   * carrying its (prefixed) labels, its IP address, its tags and its
   * attributes, in the folder its unprefixed labels give. The name is the
   * normalised name of the loop.
   */
  function CreationTuple(env: Env, rec: Record, name: string): (r: Result<Creation, Error>)
    ensures r.Failure? <==> HostLabels(rec, env.hostnameField).Failure? || FutureTags(env.tags, rec).Failure?
    ensures r.Success? ==> (r.value.name == name &&
      r.value.folder == FolderPathOf(env.cfg, HostLabels(rec, env.hostnameField).value))
    ensures r.Success? && TagCatalogue(env.tags) ==> Get(r.value.attributes, "locked_by") == env.cfg.globalIdent
    ensures r.Success? && TagCatalogue(env.tags) ==> (Get(r.value.attributes, "labels") ==
      Obj(AddPrefixToLabels(HostLabels(rec, env.hostnameField).value, env.cfg.labelPrefix)))
    ensures r.Success? ==> forall k :: k in HostAttributes(rec) ==> Get(r.value.attributes, k) == Str(HostAttributes(rec)[k])
  {
    var labels :- HostLabels(rec, env.hostnameField);
    var folderPath := FolderPathOf(env.cfg, labels);
    var tags :- FutureTags(env.tags, rec);
    var attributes := CreationAttributes(env.cfg.globalIdent, AddPrefixToLabels(labels, env.cfg.labelPrefix),
      IpAddress(rec, env.cfg.ipOrder), tags, HostAttributes(rec));
    if TagCatalogue(env.tags) then
      FutureTagsAreTags(env, rec);
      Success(Creation(name, folderPath, attributes))
    else Success(Creation(name, folderPath, attributes))
  }

  /**
   * A new host carries every resolved tag that no imported attribute
   * overrides, with its value, and (with a catalogue of tag names) the
   * record's IP address unless an imported attribute overrides it; with no
   * address the lookup finds none.
   */
  lemma CreationTupleValues(env: Env, rec: Record, name: string)
    requires CreationTuple(env, rec, name).Success?
    ensures var a := CreationTuple(env, rec, name).value.attributes;
      var tags := FutureTags(env.tags, rec).value;
      forall k :: k in tags && k !in HostAttributes(rec) ==> Get(a, k) == Str(tags[k])
    ensures TagCatalogue(env.tags) && "ipaddress" !in HostAttributes(rec) ==>
      Get(CreationTuple(env, rec, name).value.attributes, "ipaddress") ==
        (if IpAddress(rec, env.cfg.ipOrder).Some? then Str(IpAddress(rec, env.cfg.ipOrder).value) else Null)
  {
    if TagCatalogue(env.tags) {
      FutureTagsAreTags(env, rec);
      TagsAreNotReserved(FutureTags(env.tags, rec).value);
    }
  }

  datatype Modification = Modification(attributes: Attributes, unset: seq<string>)

  /** `dict.update` with text values. */
  function Update(a: Attributes, m: map<string, string>): (r: Attributes)
    ensures forall k :: k in r <==> k in a || k in m
    ensures forall k :: k in m ==> r[k] == Str(m[k])
    ensures forall k :: k in a && k !in m ==> r[k] == a[k]
  {
    a + Lift(m)
  }

  /**
   * The attributes of a host to modify: the merged labels, the IP address
   * when one is to be set, the tags, the record's attributes, the lock when
   * the host is overtaken, and no `hostname` entry.
   */
  function ModifiedAttributes(ident: Value, attributes: Attributes, labels: map<string, string>, ip: Option<string>,
                              tags: map<string, string>, futureAttributes: map<string, string>, overtake: bool): (a: Attributes)
    ensures "hostname" !in a
    ensures forall k :: k in futureAttributes && k !in {"hostname", "locked_by"} ==> k in a && a[k] == Str(futureAttributes[k])
    ensures forall k :: k in tags && k !in futureAttributes && k !in {"hostname", "locked_by"} ==> k in a && a[k] == Str(tags[k])
    ensures overtake ==> Get(a, "locked_by") == ident
    ensures forall k :: (k in attributes && k !in tags && k !in futureAttributes &&
      k !in {"labels", "ipaddress", "locked_by", "hostname"}) ==> k in a && a[k] == attributes[k]
  {
    var a1 := attributes["labels" := Obj(labels)];
    var a2 := if ip.Some? then a1["ipaddress" := Str(ip.value)] else a1;
    var a3 := Update(Update(a2, tags), futureAttributes);
    LockedWithoutHostname(ident, a3, overtake)
  }

  /** The last steps of a modification: the lock when the host is overtaken, then no `hostname` entry. */
  function LockedWithoutHostname(ident: Value, a: Attributes, overtake: bool): (r: Attributes)
    ensures "hostname" !in r
    ensures overtake ==> Get(r, "locked_by") == ident
    ensures forall k :: k in a && k != "hostname" && k != "locked_by" ==> k in r && r[k] == a[k]
  {
    NamesDistinct();
    var locked := if overtake then a["locked_by" := ident] else a;
    locked - {"hostname"}
  }

  /** The attribute names the connector sets itself are distinct. */
  lemma NamesDistinct()
    ensures "labels" != "ipaddress" && "labels" != "locked_by" && "labels" != "hostname"
    ensures "ipaddress" != "locked_by" && "ipaddress" != "hostname" && "locked_by" != "hostname"
  {
    assert "labels"[0] != "ipaddress"[0] && "labels"[0] != "locked_by"[1] && "labels"[0] != "hostname"[0];
    assert "ipaddress"[0] != "locked_by"[0] && "ipaddress"[0] != "hostname"[0] && "locked_by"[0] != "hostname"[0];
  }

  /** With tag names only, neither the tags nor the record's attributes touch the labels and the lock. */
  lemma ModifiedAttributesReserved(ident: Value, attributes: Attributes, labels: map<string, string>, ip: Option<string>,
                                   tags: map<string, string>, futureAttributes: map<string, string>, overtake: bool)
    requires forall k :: k in futureAttributes ==> k !in BUILTIN_ATTRIBUTES
    requires forall k :: k in tags ==> IsTag(k)
    ensures var a := ModifiedAttributes(ident, attributes, labels, ip, tags, futureAttributes, overtake);
      Get(a, "labels") == Obj(labels) &&
      (!overtake ==> Get(a, "locked_by") == Get(attributes, "locked_by")) &&
      ("ipaddress" !in futureAttributes ==>
        Get(a, "ipaddress") == if ip.Some? then Str(ip.value) else Get(attributes, "ipaddress"))
  {
    TagsAreNotReserved(tags);
    assert "ipaddress" !in tags by {
      if "ipaddress" in tags { TagNameIsNotReserved("ipaddress"); }
    }
    var a1 := attributes["labels" := Obj(labels)];
    var a2 := if ip.Some? then a1["ipaddress" := Str(ip.value)] else a1;
    UpdatesKeep(a2, tags, futureAttributes, ip, attributes, labels);
    LockedKeeps(ident, Update(Update(a2, tags), futureAttributes), overtake);
  }

  /** Neither the tags nor the record's attributes touch `labels` and the lock, nor `ipaddress` when they do not name it. */
  lemma UpdatesKeep(a2: Attributes, tags: map<string, string>, futureAttributes: map<string, string>,
                    ip: Option<string>, attributes: Attributes, labels: map<string, string>)
    requires a2 == var a1 := attributes["labels" := Obj(labels)]; if ip.Some? then a1["ipaddress" := Str(ip.value)] else a1
    requires forall k :: k in futureAttributes ==> k !in BUILTIN_ATTRIBUTES
    requires forall k :: k in tags ==> k !in BUILTIN_ATTRIBUTES
    requires "ipaddress" !in tags
    ensures var a3 := Update(Update(a2, tags), futureAttributes);
      Get(a3, "labels") == Obj(labels) && Get(a3, "locked_by") == Get(attributes, "locked_by") &&
      ("ipaddress" !in futureAttributes ==> Get(a3, "ipaddress") == if ip.Some? then Str(ip.value) else Get(attributes, "ipaddress"))
  {
    NamesDistinct();
  }

  /** The last steps keep `labels` and `ipaddress`, and the lock of a host that is not overtaken. */
  lemma LockedKeeps(ident: Value, a: Attributes, overtake: bool)
    ensures var r := LockedWithoutHostname(ident, a, overtake);
      Get(r, "labels") == Get(a, "labels") && Get(r, "ipaddress") == Get(a, "ipaddress") &&
      (!overtake ==> Get(r, "locked_by") == Get(a, "locked_by"))
  {
    NamesDistinct();
  }

  /**
   * `get_host_modification_tuple`: the host's new attributes and the
   * attributes to unset, or `None` when nothing differs. `attributes` are
   * the host's current attributes (earlier records of the same name may have
   * changed them). An overtaken host is always modified and gets this
   * connection's lock; the labels are the current ones updated with the
   * record's (prefixed) labels, so remote labels outside the prefix stay;
   * the IP address is set or unset only when IP updates are on.
   */
  function ModificationTuple(env: Env, attributes: Attributes, rec: Record, overtake: bool): (r: Result<Option<Modification>, Error>)
    ensures r.Failure? <==> HostLabels(rec, env.hostnameField).Failure? || FutureTags(env.tags, rec).Failure?
    ensures overtake && r.Success? ==> r.value.Some? && Get(r.value.value.attributes, "locked_by") == env.cfg.globalIdent
    ensures r.Success? && r.value.Some? ==> "hostname" !in r.value.value.attributes
    ensures r.Success? && r.value.Some? ==> forall k :: k in HostAttributes(rec) && k != "hostname" ==>
      k in r.value.value.attributes && r.value.value.attributes[k] == Str(HostAttributes(rec)[k])
    ensures r.Success? && r.value.Some? && TagCatalogue(env.tags) ==> (
      var after := r.value.value.attributes;
      (!overtake ==> Get(after, "locked_by") == Get(attributes, "locked_by")) &&
      Get(after, "labels") == Obj(LabelsOf(attributes) + AddPrefixToLabels(HostLabels(rec, env.hostnameField).value, env.cfg.labelPrefix)))
    ensures r.Success? && r.value.Some? ==> (
      (r.value.value.unset == [] || r.value.value.unset == ["ipaddress"]) &&
      (r.value.value.unset == ["ipaddress"] <==>
        env.updateIps && IpAddress(rec, env.cfg.ipOrder).None? && Get(attributes, "ipaddress") != Null))
  {
    var labels :- HostLabels(rec, env.hostnameField);
    var futureTags :- FutureTags(env.tags, rec);
    if TagCatalogue(env.tags) then
      FutureTagsAreTags(env, rec);
      Success(ModificationOf(env, attributes, labels, futureTags, HostAttributes(rec), IpAddress(rec, env.cfg.ipOrder), overtake))
    else
      Success(ModificationOf(env, attributes, labels, futureTags, HostAttributes(rec), IpAddress(rec, env.cfg.ipOrder), overtake))
  }

  /**
   * The body of `get_host_modification_tuple` once the record's labels,
   * tags, attributes and IP address are read: an update is needed when the
   * host is overtaken or when the attributes, the managed labels, the tags
   * (with a catalogue) or the IP address (with IP updates on) differ.
   */
  function ModificationOf(env: Env, attributes: Attributes, labels: map<string, string>, futureTags: map<string, string>,
                          futureAttributes: map<string, string>, futureIp: Option<string>, overtake: bool): (r: Option<Modification>)
    requires forall k :: k in futureAttributes ==> k !in BUILTIN_ATTRIBUTES
    ensures overtake ==> r.Some? && Get(r.value.attributes, "locked_by") == env.cfg.globalIdent
    ensures r.Some? ==> "hostname" !in r.value.attributes
    ensures r.Some? ==> forall k :: k in futureAttributes && k != "hostname" ==>
      k in r.value.attributes && r.value.attributes[k] == Str(futureAttributes[k])
    ensures r.Some? && (forall k :: k in futureTags ==> IsTag(k)) ==> (
      (!overtake ==> Get(r.value.attributes, "locked_by") == Get(attributes, "locked_by")) &&
      Get(r.value.attributes, "labels") == Obj(LabelsOf(attributes) + AddPrefixToLabels(labels, env.cfg.labelPrefix)))
    ensures r.Some? ==> (
      (r.value.unset == [] || r.value.unset == ["ipaddress"]) &&
      (r.value.unset == ["ipaddress"] <==> env.updateIps && futureIp.None? && Get(attributes, "ipaddress") != Null))
  {
    if UpdateNeeded(env, attributes, labels, futureTags, futureAttributes, futureIp, overtake) then
      Some(Modified(env, attributes, labels, futureTags, futureAttributes, futureIp, overtake))
    else None
  }

  /** `update_needed`. */
  predicate UpdateNeeded(env: Env, attributes: Attributes, labels: map<string, string>, futureTags: map<string, string>,
                         futureAttributes: map<string, string>, futureIp: Option<string>, overtake: bool)
  {
    overtake ||
    NeedsModification(CleanCmkAttributes(attributes), Lift(futureAttributes)) ||
    NeedsModification(ManagedLabels(LabelsOf(attributes), env.cfg.labelPrefix), AddPrefixToLabels(labels, env.cfg.labelPrefix)) ||
    (env.tags.Some? && NeedsModification(TagAttributes(attributes), Lift(futureTags))) ||
    (env.updateIps && IpNeedsModification(Get(attributes, "ipaddress"), futureIp))
  }

  /** The modification itself, when an update is needed. */
  function Modified(env: Env, attributes: Attributes, labels: map<string, string>, futureTags: map<string, string>,
                    futureAttributes: map<string, string>, futureIp: Option<string>, overtake: bool): (m: Modification)
    requires forall k :: k in futureAttributes ==> k !in BUILTIN_ATTRIBUTES
    ensures overtake ==> Get(m.attributes, "locked_by") == env.cfg.globalIdent
    ensures "hostname" !in m.attributes
    ensures forall k :: k in futureAttributes && k != "hostname" ==> k in m.attributes && m.attributes[k] == Str(futureAttributes[k])
    ensures (forall k :: k in futureTags ==> IsTag(k)) ==> (
      (!overtake ==> Get(m.attributes, "locked_by") == Get(attributes, "locked_by")) &&
      Get(m.attributes, "labels") == Obj(LabelsOf(attributes) + AddPrefixToLabels(labels, env.cfg.labelPrefix)))
    ensures (m.unset == [] || m.unset == ["ipaddress"]) &&
      (m.unset == ["ipaddress"] <==> env.updateIps && futureIp.None? && Get(attributes, "ipaddress") != Null)
  {
    var existingIp := Get(attributes, "ipaddress");
    var unset := if env.updateIps && futureIp.None? && existingIp != Null then ["ipaddress"] else [];
    var ip := if env.updateIps then futureIp else None;
    var apiLabel := LabelsOf(attributes) + AddPrefixToLabels(labels, env.cfg.labelPrefix);
    var after := ModifiedAttributes(env.cfg.globalIdent, attributes, apiLabel, ip, futureTags, futureAttributes, overtake);
    if forall k :: k in futureTags ==> IsTag(k) then
      ModifiedAttributesReserved(env.cfg.globalIdent, attributes, apiLabel, ip, futureTags, futureAttributes, overtake);
      Modification(after, unset)
    else Modification(after, unset)
  }

  /**
   * `get_host_move_tuple`: the new folder when `/` plus the path the
   * record's labels give differs from the host's folder.
   */
  function MoveTuple(env: Env, existing: RemoteHost, labels: map<string, string>, name: string): (r: Option<(string, string)>)
    ensures r.Some? <==> existing.folder != "/" + FolderPathOf(env.cfg, labels)
    ensures r.Some? ==> r.value == (name, FolderPathOf(env.cfg, labels))
  {
    var future := FolderPathOf(env.cfg, labels);
    if existing.folder != "/" + future then Some((name, future)) else None
  }

  // ---------------------------------------------------------------- the record loop

  /** What the record loop has built so far: the remote hosts as changed in place, and the planned actions. */
  datatype Progress = Progress(
    hosts: map<string, RemoteHost>,
    creates: seq<Creation>,
    pending: seq<(string, seq<string>)>,
    moves: seq<(string, string)>)

  /** `normalize_hostname(host[hostname_field])`; a record without the field raises KeyError. */
  function RecordName(hostnameField: string, rec: Record): Result<string, Error> {
    if hostnameField in ToMap(rec) then Success(NormalizeHostname(ToMap(rec)[hostnameField]))
    else Failure(KeyMissing(hostnameField))
  }

  /** One pass of the record loop. */
  function Step(env: Env, p: Progress, rec: Record): (r: Result<Progress, Error>)
    requires p.hosts.Keys == env.remote.Keys
    ensures r.Success? ==> r.value.hosts.Keys == env.remote.Keys
    ensures r.Success? ==> env.hostnameField in ToMap(rec)
    ensures r.Success? ==> (r.value.pending == p.pending ||
      (|r.value.pending| == |p.pending| + 1 && r.value.pending[..|p.pending|] == p.pending &&
       r.value.pending[|p.pending|].0 in env.remote))
  {
    var name :- RecordName(env.hostnameField, rec);
    if !HostMatchesFilters(env.cfg, name) then Success(p)
    else if name !in env.remote then
      var c :- CreationTuple(env, rec, name);
      Success(p.(creates := p.creates + [c]))
    else if name in env.unrelated then Success(p)
    else
      var existing := p.hosts[name];
      var m :- ModificationTuple(env, existing.attributes, rec, name in env.overtake);
      var p1 :=
        if m.Some? then
          p.(hosts := p.hosts[name := existing.(attributes := m.value.attributes)], pending := p.pending + [(name, m.value.unset)])
        else p;
      var mv := MoveTuple(env, existing, HostLabels(rec, env.hostnameField).value, name);
      Success(if mv.Some? then p1.(moves := p1.moves + [mv.value]) else p1)
  }

  /**
   * The cases of one pass: a record the host filters reject or that names an
   * unrelated host changes nothing; an unknown name adds one creation; a
   * managed or overtaken host may get a modification (recorded in the host
   * map and in `pending`) and a move.
   */
  lemma StepCases(env: Env, p: Progress, rec: Record)
    requires p.hosts.Keys == env.remote.Keys && Step(env, p, rec).Success?
    ensures var q := Step(env, p, rec).value;
      var name := RecordName(env.hostnameField, rec).value;
      RecordName(env.hostnameField, rec).Success? &&
      (!HostMatchesFilters(env.cfg, name) || (name in env.remote && name in env.unrelated) ==> q == p) &&
      (HostMatchesFilters(env.cfg, name) && name !in env.remote ==>
        CreationTuple(env, rec, name).Success? &&
        q == p.(creates := p.creates + [CreationTuple(env, rec, name).value])) &&
      (HostMatchesFilters(env.cfg, name) && name in env.remote && name !in env.unrelated ==>
        var m := ModificationTuple(env, p.hosts[name].attributes, rec, name in env.overtake);
        m.Success? && HostLabels(rec, env.hostnameField).Success? &&
        q.creates == p.creates &&
        (m.value.None? ==> q.hosts == p.hosts && q.pending == p.pending) &&
        (m.value.Some? ==>
          q.hosts == p.hosts[name := p.hosts[name].(attributes := m.value.value.attributes)] &&
          q.pending == p.pending + [(name, m.value.value.unset)]) &&
        var mv := MoveTuple(env, p.hosts[name], HostLabels(rec, env.hostnameField).value, name);
        q.moves == p.moves + (if mv.Some? then [mv.value] else []))
  {
  }

  /** The record loop over `records`; the first record that raises ends it. */
  function Routed(env: Env, records: seq<Record>): (r: Result<Progress, Error>)
    ensures r.Success? ==> r.value.hosts.Keys == env.remote.Keys
    decreases |records|
  {
    if records == [] then Success(Progress(env.remote, [], [], []))
    else
      var p :- Routed(env, records[..|records| - 1]);
      Step(env, p, records[|records| - 1])
  }

  /** Every planned modification names a site host, and every record read so far had the hostname field. */
  predicate WellFormed(env: Env, p: Progress, records: seq<Record>) {
    (forall i :: 0 <= i < |p.pending| ==> p.pending[i].0 in env.remote) &&
    (forall i :: 0 <= i < |records| ==> env.hostnameField in ToMap(records[i]))
  }

  /** A completed loop read the hostname field of every record, and planned modifications only for remote hosts. */
  lemma {:induction false} RoutedWellFormed(env: Env, records: seq<Record>)
    requires Routed(env, records).Success?
    ensures forall i :: 0 <= i < |Routed(env, records).value.pending| ==> Routed(env, records).value.pending[i].0 in env.remote
    ensures forall i :: 0 <= i < |records| ==> env.hostnameField in ToMap(records[i])
    decreases |records|
  {
    if records != [] {
      var init := records[..|records| - 1];
      RoutedWellFormed(env, init);
      assert init + [records[|records| - 1]] == records;
      StepWellFormed(env, Routed(env, init).value, init, records[|records| - 1]);
    }
  }

  lemma StepWellFormed(env: Env, p: Progress, records: seq<Record>, rec: Record)
    requires p.hosts.Keys == env.remote.Keys && WellFormed(env, p, records) && Step(env, p, rec).Success?
    ensures WellFormed(env, Step(env, p, rec).value, records + [rec])
  {
    WellFormedKept(env, p, Step(env, p, rec).value, records, rec);
  }

  lemma WellFormedKept(env: Env, p: Progress, q: Progress, records: seq<Record>, rec: Record)
    requires WellFormed(env, p, records) && env.hostnameField in ToMap(rec)
    requires q.pending == p.pending ||
      (|q.pending| == |p.pending| + 1 && q.pending[..|p.pending|] == p.pending && q.pending[|p.pending|].0 in env.remote)
    ensures WellFormed(env, q, records + [rec])
  {
    assert forall i :: 0 <= i < |p.pending| ==> q.pending[i] == p.pending[i];
    assert forall i :: 0 <= i < |records| ==> (records + [rec])[i] == records[i];
  }

  /** The first record that raises ends the loop: a failure on a prefix is the failure of the whole loop. */
  lemma {:induction false} RoutedPrefixFailure(env: Env, records: seq<Record>, n: nat)
    requires n <= |records| && Routed(env, records[..n]).Failure?
    ensures Routed(env, records) == Routed(env, records[..n])
    decreases |records|
  {
    if n < |records| {
      assert records[..|records| - 1][..n] == records[..n];
      RoutedPrefixFailure(env, records[..|records| - 1], n);
    } else {
      assert records[..n] == records;
    }
  }

  lemma RoutedStep(env: Env, records: seq<Record>, i: nat)
    requires i < |records| && Routed(env, records[..i]).Success?
    ensures Routed(env, records[..i + 1]) == Step(env, Routed(env, records[..i]).value, records[i])
  {
    assert records[..i + 1][..i] == records[..i];
  }

  // ---------------------------------------------------------------- the result

  /** A planned modification: name, new attributes, attributes to unset. */
  datatype ModifyEntry = ModifyEntry(name: string, attributes: Attributes, unset: seq<string>)

  datatype Partition = Partition(
    creates: seq<Creation>,
    modifications: seq<ModifyEntry>,
    deletes: seq<string>,
    moves: seq<(string, string)>)

  /**
   * The modify entries: every Python tuple holds the host's attribute dict
   * itself, so each shows that dict as it is when the loop is over.
   */
  function ModifyEntries(hosts: map<string, RemoteHost>, pending: seq<(string, seq<string>)>): (r: seq<ModifyEntry>)
    requires forall i :: 0 <= i < |pending| ==> pending[i].0 in hosts
    ensures |r| == |pending|
    ensures forall i :: 0 <= i < |pending| ==>
      r[i] == ModifyEntry(pending[i].0, hosts[pending[i].0].attributes, pending[i].1)
  {
    seq(|pending|, i requires 0 <= i < |pending| => ModifyEntry(pending[i].0, hosts[pending[i].0].attributes, pending[i].1))
  }

  /** Some record, whether or not the host filters pass it, has the normalised name `name`. */
  predicate Imported(hostnameField: string, records: seq<Record>, name: string) {
    exists i :: 0 <= i < |records| && RecordName(hostnameField, records[i]) == Success(name)
  }

  function EnvOf(cfg: Config, catalogue: Option<Catalogue>, hostnameField: string, updateIps: bool,
                 remote: map<string, RemoteHost>): Env
  {
    Env(cfg, if catalogue.Some? then Some(TagMatcher(catalogue.value)) else None, hostnameField, updateIps,
        remote, OwnedAs(cfg, remote, Overtaken), OwnedAs(cfg, remote, Unrelated))
  }
}
