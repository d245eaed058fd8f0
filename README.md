# File connector host reconciliation, modelled in Dafny

This project models the core of the Checkmk dynamic configuration file
connector (`lib/check_mk/cee/dcd/plugins/connectors/fileconnector.py`). Phase 1
reads hosts from a CSV, JSON or BVQ file. Phase 2 reconciles them with the hosts
the site already has: it classifies the site's hosts by their `locked_by` lock,
routes every imported record to a creation, a modification and/or a move,
computes the hosts to delete, and applies all of that through the site's API in
a fixed order, optionally in chunks.

Modules, one per part of the program:

- `Wrappers`, `Errors` (wrappers.dfy): `Option`, `Result`, and the exceptions the
  connector can raise (a missing key, a `:sep(` key the pattern does not match,
  an empty separator, an unknown tag, an unpacking mismatch).
- `Text` (text.dfy): the `str` methods the connector uses (`lower`,
  `startswith`, `split`, `join`, `strip`, `replace`, `%i`, ordering for
  `sorted`).
- `PyDict` (pydict.dfy): a Python `dict` whose insertion order matters, as a
  sequence of pairs in which a later key wins.
- `Records` (records.dfy): the record helpers (`normalize_hostname`,
  `sanitise_str`, `get_host_label`, `get_host_attributes`, `get_ip_address`,
  `get_host_tags`, `is_tag`, `is_attribute`, `fields_contain_ip_addresses`) and
  the importer value transforms (lower-casing, sanitising, `BVQImporter.format_host`).
- `Tags` (tags.dfy): `create_hostlike_tags`, `TagMatcher`, and `create_host_tags`.
- `Paths` (paths.dfy): `generate_path_from_labels` and the folder path of a host.
- `Remote` (remote.dfy): the attributes of a site host as JSON-like values.
- `Engine`, `Partitioning` (engine.dfy, partitioning.dfy): `_partition_hosts`
  with its nested helpers, and what its result guarantees.
- `Client` (client.dfy): the API calls as a request log, `prefix_path`,
  `get_folders_from_new_hosts`, `_remove_meta_data`, `move_host`.
- `Chunking` (chunker.dfy): `Chunker.chunks` and its two wrappers.
- `Apply` (apply.dfy): `_update_config` and the stages it calls, the change message,
  and the phase 2.4 activation.
- `Exchange` (exchange.dfy): the `FileConnectorHosts` serialisation.

The site is modelled as values:
- An `Api` holds the site's flavour (HTTP or REST) and its existing folders.
- Functions give the site's replies to host additions, edits and moves.
- Every request the connector sends is appended to a log (`seq<Call>`).
- The end-to-end method `Apply.UpdateConfig` proves these things about that log:
  - The partition it applies is the one `_partition_hosts` computes: its
    creations and moves, its modifications with the final attribute dicts,
    and each obsolete host once.
  - The log and the result are exactly those `Apply.Applies` describes: the
    needed folder requests, then the requests of the creation, edit,
    deletion and move steps, stopping after a step that raises; the result
    is that step's error, or the change message of the four steps.
  - Requests come in the fixed order: folders, creations (with service
    discovery), edits, deletions, moves.
  - No request ever names a host that is locked by someone else.
  - Deletions name only hosts this connection manages and the import no longer holds.

Regular expressions (host filters and overtake filters) are predicates on the
host name. The order in which `get_ip_address` tries the IP fields (a Python
`set`) is a parameter: any permutation of the three names.

## Model

| member | source | states |
|---|---|---|
| Records.NormalizeHostname | lib/check_mk/cee/dcd/plugins/connectors/fileconnector.py:78-80 | the normalised name has the same length; each character is the lower-cased character, a blank becoming `_`; no blank is left |
| Records.NormalizeHostnameIdempotent | lib/check_mk/cee/dcd/plugins/connectors/fileconnector.py:78-80 | normalising a normalised name changes nothing |
| Records.TagAndAttributeExclusive | lib/check_mk/cee/dcd/plugins/connectors/fileconnector.py:150-152 | no field name is both a tag (`tag_`) and an attribute (`attr_`), ignoring case |
| Records.SanitiseStr | lib/check_mk/cee/dcd/plugins/connectors/fileconnector.py:84-89 | the replacement loop yields the character-wise sanitised string |
| Records.SanitisedClean | lib/check_mk/cee/dcd/plugins/connectors/fileconnector.py:84-89 | no replaceable character is left, sanitising is idempotent, every other character is kept in place |
| Records.SanitiseRecord | lib/check_mk/cee/dcd/plugins/connectors/fileconnector.py:458-461 | the keys stay the same and in order; every value is sanitised |
| Records.LowercaseRecord | lib/check_mk/cee/dcd/plugins/connectors/fileconnector.py:411-414 | the lower-cased record is a dict: its keys are distinct |
| Records.LowercaseRecordFields | lib/check_mk/cee/dcd/plugins/connectors/fileconnector.py:411-414 | every key and value of the result is in lower case and is the lower-cased key and value of one input field; every key of the input appears lower-cased |
| Records.LowercaseRecordLastWins | lib/check_mk/cee/dcd/plugins/connectors/fileconnector.py:411-414 | names equal up to case collapse, the later field winning: a field no later field matches up to case gives its lower-cased value |
| Records.LowercaseFields | lib/check_mk/cee/dcd/plugins/connectors/fileconnector.py:416-422 | no field list stays none; otherwise one name per input name, the i-th being the i-th input name lower-cased |
| Records.LowercaseHostnameField | lib/check_mk/cee/dcd/plugins/connectors/fileconnector.py:424-430 | no hostname field stays none; otherwise it is the input name lower-cased |
| Records.LowercaseImporterConsistent | lib/check_mk/cee/dcd/plugins/connectors/fileconnector.py:411-430 | the lower-cased hostname field, and each lower-cased field name whose original named a field of the record, names a field of the lower-cased record |
| Records.FormatHost | lib/check_mk/cee/dcd/plugins/connectors/fileconnector.py:355-370 | formatting raises a KeyError exactly when the BVQ host has no `name` |
| Records.FormatHostFields | lib/check_mk/cee/dcd/plugins/connectors/fileconnector.py:362-368 | the result holds `name`, `label_bvq_type` iff `tag` is given, `ipv4` and `ipv6` iff given, with their values, and nothing else |
| Records.HostAttributes | lib/check_mk/cee/dcd/plugins/connectors/fileconnector.py:135-147 | no attribute is named after a built-in attribute |
| Records.HostAttributesKeys | lib/check_mk/cee/dcd/plugins/connectors/fileconnector.py:135-147 | `a` is an attribute iff some `attr_` field (any case) has the suffix `a` and `a` is not built-in |
| Records.HostAttributesValues | lib/check_mk/cee/dcd/plugins/connectors/fileconnector.py:135-147 | an attribute's value is that of the last `attr_` field (any case) naming it |
| Records.HostAttributesLastWins | lib/check_mk/cee/dcd/plugins/connectors/fileconnector.py:135-147 | an `attr_` field that no later `attr_` field naming the same attribute overrides sets that attribute, unless it is built-in |
| Records.HostTags | lib/check_mk/cee/dcd/plugins/connectors/fileconnector.py:183-185 | the tags are exactly the record's fields whose name is a tag name |
| Records.IpAddressSpec | lib/check_mk/cee/dcd/plugins/connectors/fileconnector.py:155-171 | no address iff no IP field is present; otherwise the trimmed text before the first comma of a present IP field, whatever the field order |
| Records.FieldsContainIpAddresses | lib/check_mk/cee/dcd/plugins/connectors/fileconnector.py:174-180 | true iff some field name is an IP field name |
| Records.SepKey | lib/check_mk/cee/dcd/plugins/connectors/fileconnector.py:115 | a match splits the key into name and separator at the last `:sep(` before the last `)` |
| Records.SepKeyOfForm | lib/check_mk/cee/dcd/plugins/connectors/fileconnector.py:114-115 | a key of the form `name:sep(x)` yields exactly `name` and `x` |
| Records.SepAssignments | lib/check_mk/cee/dcd/plugins/connectors/fileconnector.py:116-118 | one lower-cased `name/token` label set to `true` per token, in token order |
| Records.SepFieldAssignment | lib/check_mk/cee/dcd/plugins/connectors/fileconnector.py:114-119 | a `name:sep(x)` field with a non-empty separator assigns the tokens of its value split at `x` |
| Records.PlainFieldAssignment | lib/check_mk/cee/dcd/plugins/connectors/fileconnector.py:121-131 | a plain field assigns its lower-cased key; tag, attribute, IP and built-in keys are reserved |
| Records.TmpAssignmentsPrefixFailure | lib/check_mk/cee/dcd/plugins/connectors/fileconnector.py:109-121 | the first field that raises decides the outcome: later fields cannot change it |
| Records.LabelViewKeys | lib/check_mk/cee/dcd/plugins/connectors/fileconnector.py:123-132 | the label names are exactly the unreserved keys of `tmp` with a leading `label_` removed |
| Records.HostLabelsKeys | lib/check_mk/cee/dcd/plugins/connectors/fileconnector.py:92-132 | the host's label names are exactly the unreserved assigned keys without `label_` |
| Records.LabelViewValues | lib/check_mk/cee/dcd/plugins/connectors/fileconnector.py:123-132 | a label's value is that of the last unreserved `tmp` key giving that label name |
| Records.HostLabelsValues | lib/check_mk/cee/dcd/plugins/connectors/fileconnector.py:92-132 | every label's value is one assigned to `tmp`, by the last assignment to its key |
| Records.HostLabelsLastWins | lib/check_mk/cee/dcd/plugins/connectors/fileconnector.py:92-132 | when one `tmp` key gives label `k`, the label is present and takes the value last assigned under that key |
| Records.HostnameFieldIgnored | lib/check_mk/cee/dcd/plugins/connectors/fileconnector.py:110-112 | removing the hostname field from the record changes neither the assignments nor the labels |
| Records.GetHostLabel | lib/check_mk/cee/dcd/plugins/connectors/fileconnector.py:92-133 | the loop building `tmp` and the closing comprehension give the labels specified by `HostLabels`, or the same error |
| Tags.CreateHostlikeTags | lib/check_mk/cee/dcd/plugins/connectors/fileconnector.py:198-205 | the catalogue is a dict: its names are distinct |
| Tags.HostlikeTagsSpec | lib/check_mk/cee/dcd/plugins/connectors/fileconnector.py:198-205 | the names are exactly `tag_` plus a group id, all tag names; a name maps to the choices of the last group with that id |
| Tags.TagMatcher.GetTag | lib/check_mk/cee/dcd/plugins/connectors/fileconnector.py:1682-1698 | an exact name is returned as it is; otherwise the last catalogue name equal up to case; ValueError iff no name is equal up to case |
| Tags.TagMatcher.IsPossibleValue | lib/check_mk/cee/dcd/plugins/connectors/fileconnector.py:1700-1714 | true iff the value is among the resolved tag's choices; raises iff the tag does not resolve, or raising is asked for and the value is not a choice |
| Tags.GetTagIgnoresCase | lib/check_mk/cee/dcd/plugins/connectors/fileconnector.py:1684-1698 | two non-exact names equal up to case resolve alike |
| Tags.CreateHostTags | lib/check_mk/cee/dcd/plugins/connectors/fileconnector.py:1195-1204 | succeeds iff every tag field of the record resolves |
| Tags.CreateHostTagsFrom | lib/check_mk/cee/dcd/plugins/connectors/fileconnector.py:1195-1197 | every resolved tag is a catalogue name and carries the value of a field that resolves to it |
| Tags.CreateHostTagsComplete | lib/check_mk/cee/dcd/plugins/connectors/fileconnector.py:1195-1197 | every tag field's resolved tag is present; a field no later field resolves alike gives the tag its value |
| Paths.Segment | lib/check_mk/cee/dcd/plugins/connectors/fileconnector.py:1725-1727 | a segment is the label's value, or the placeholder when the label is missing or empty; never empty |
| Paths.GeneratePathFromLabels | lib/check_mk/cee/dcd/plugins/connectors/fileconnector.py:1717-1729 | without labels: `depth` placeholder segments (none for a non-positive depth); with labels: one segment per key, the `Segment` of that key; no segment is empty |
| Paths.GeneratedSegments | lib/check_mk/cee/dcd/plugins/connectors/fileconnector.py:1717-1729 | without labels every segment is the placeholder; with labels the i-th segment is the i-th key's label value when that is set and non-empty, and the placeholder otherwise |
| Paths.DynamicSegments | lib/check_mk/cee/dcd/plugins/connectors/fileconnector.py:1225-1237 | a configured folder comes first, with blanks made `_`; then the i-th generated segment with blanks made `_`, and nothing else; no segment contains a blank |
| Paths.DynamicFolderPathSplits | lib/check_mk/cee/dcd/plugins/connectors/fileconnector.py:1222-1244 | when no value contains `/`, splitting the path at `/` gives back the folder and the segments, blanks made `_` |
| Remote.CleanCmkAttributes | lib/check_mk/cee/dcd/plugins/connectors/fileconnector.py:1209-1220 | keeps exactly the attributes that are neither built-in nor tags, with their values |
| Remote.TagAttributes | lib/check_mk/cee/dcd/plugins/connectors/fileconnector.py:1322 | keeps exactly the site host's tag attributes, with their values |
| Engine.OwnershipPartition | lib/check_mk/cee/dcd/plugins/connectors/fileconnector.py:1129-1154 | every site host is in exactly one of managed, overtaken, unrelated; managed iff locked by this connection; overtaken hosts are unlocked and matched by an overtake filter; none without overtake filters |
| Engine.ClassifyHosts | lib/check_mk/cee/dcd/plugins/connectors/fileconnector.py:1135-1154 | the classification loop yields exactly the three ownership groups |
| Engine.NeedsModificationIffUpdateChanges | lib/check_mk/cee/dcd/plugins/connectors/fileconnector.py:1178-1193 | nothing needs modifying iff updating the old dict with the new one leaves it unchanged |
| Engine.AddPrefixToLabels | lib/check_mk/cee/dcd/plugins/connectors/fileconnector.py:1170-1176 | no prefix: the labels themselves; otherwise each label is present under the prefixed name, and every name is prefixed and comes from a label |
| Engine.ManagedLabels | lib/check_mk/cee/dcd/plugins/connectors/fileconnector.py:1314-1319 | exactly the site labels whose name starts with the prefix, with their values |
| Engine.FutureTagsAreTags | lib/check_mk/cee/dcd/plugins/connectors/fileconnector.py:1321-1324 | with a catalogue of tag names, every resolved tag is a tag name |
| Engine.CreationAttributes | lib/check_mk/cee/dcd/plugins/connectors/fileconnector.py:1255-1272 | the keys are `labels`, `locked_by`, `ipaddress` when there is an address, the tags and the imported attributes; imported attributes win over tags; the address stays unless a tag or attribute named `ipaddress` overrides it; with tag-named tags the host is locked by this connection and carries the labels |
| Engine.CreationTuple | lib/check_mk/cee/dcd/plugins/connectors/fileconnector.py:1246-1274 | raises iff the labels or the tags raise; the tuple has the loop's host name and the computed folder, and carries the lock, the prefixed labels and every imported attribute |
| Engine.CreationTupleValues | lib/check_mk/cee/dcd/plugins/connectors/fileconnector.py:1263-1272 | the new host carries each resolved tag that no imported attribute overrides, with its value, and (with a catalogue of tag names) the record's address, or none, unless an imported attribute overrides it |
| Engine.ModifiedAttributes | lib/check_mk/cee/dcd/plugins/connectors/fileconnector.py:1354-1389 | `hostname` is removed; tags are set, then imported attributes, which win over tags; an overtake sets the lock; other attributes are kept |
| Engine.ModifiedAttributesReserved | lib/check_mk/cee/dcd/plugins/connectors/fileconnector.py:1354-1373 | the labels are the merged labels, the lock is kept unless overtaking, and with `update_ips` the address is the new one or stays as it was |
| Engine.ModificationTuple | lib/check_mk/cee/dcd/plugins/connectors/fileconnector.py:1296-1391 | raises iff the labels or tags raise; an overtaken host always gets a locked modification; the result has no `hostname`, has every imported attribute and the site labels updated with the prefixed labels; `ipaddress` is unset iff `update_ips`, the record has no address and the site host has one |
| Engine.MoveTuple | lib/check_mk/cee/dcd/plugins/connectors/fileconnector.py:1276-1294 | a move iff the site folder differs from `/` plus the computed path; it names the host and that path |
| Engine.Step | lib/check_mk/cee/dcd/plugins/connectors/fileconnector.py:1397-1431 | one pass keeps the set of site hosts, needs the hostname field, and adds at most one modification, for a site host |
| Engine.StepCases | lib/check_mk/cee/dcd/plugins/connectors/fileconnector.py:1397-1431 | a filtered-out or unrelated host changes nothing; a new host adds its creation; a known host updates its attributes, adds a modification when one is needed, and adds a move when one is needed |
| Engine.Routed | lib/check_mk/cee/dcd/plugins/connectors/fileconnector.py:1393-1431 | the record loop keeps the set of site hosts |
| Engine.RoutedWellFormed | lib/check_mk/cee/dcd/plugins/connectors/fileconnector.py:1398-1426 | after a loop that does not raise, every modification names a site host and every record had the hostname field |
| Engine.RoutedPrefixFailure | lib/check_mk/cee/dcd/plugins/connectors/fileconnector.py:1397-1431 | once a record raises, later records do not matter |
| Engine.ModifyEntries | lib/check_mk/cee/dcd/plugins/connectors/fileconnector.py:1304-1389 | each modify tuple shows its host's attribute dict as it is at the end of the loop (the tuple holds that dict itself) |
| Partitioning.RoutedHostsFrame | lib/check_mk/cee/dcd/plugins/connectors/fileconnector.py:1304-1389 | only hosts with a planned modification have their attributes changed in place; no host changes folder |
| Partitioning.RoutedEntriesFrame | lib/check_mk/cee/dcd/plugins/connectors/fileconnector.py:1402-1431 | modifications and moves never name an unrelated host; moves name site hosts; creations name only hosts the site lacks |
| Partitioning.UnrelatedUntouched | lib/check_mk/cee/dcd/plugins/connectors/fileconnector.py:1402-1405 | an unrelated host is left as it is and named by no creation, modification or move |
| Partitioning.RoutedLocks | lib/check_mk/cee/dcd/plugins/connectors/fileconnector.py:1375-1380 | managed hosts stay locked by this connection; every host with a planned modification is locked by it and has no `hostname` |
| Partitioning.OvertakenModified | lib/check_mk/cee/dcd/plugins/connectors/fileconnector.py:1329-1334 | an overtaken host that the import routes always gets a modification and the lock |
| Partitioning.CreatesSound | lib/check_mk/cee/dcd/plugins/connectors/fileconnector.py:1406-1415 | every creation is for a host the site lacks and is the creation tuple of a routed record |
| Partitioning.CreatesComplete | lib/check_mk/cee/dcd/plugins/connectors/fileconnector.py:1406-1415 | every routed record of a host the site lacks gets its creation |
| Partitioning.CreatesLocked | lib/check_mk/cee/dcd/plugins/connectors/fileconnector.py:1256-1261 | every creation locks the host by this connection and carries labels |
| Partitioning.MovesSound | lib/check_mk/cee/dcd/plugins/connectors/fileconnector.py:1428-1431 | every move is for a related site host whose folder differs from the one a routed record computes |
| Partitioning.MovesComplete | lib/check_mk/cee/dcd/plugins/connectors/fileconnector.py:1428-1431 | every routed related site host whose folder differs gets a move to the computed path |
| Partitioning.ModificationNoneIff | lib/check_mk/cee/dcd/plugins/connectors/fileconnector.py:1331-1352 | a host that is not overtaken gets no modification iff attributes, managed labels, tags (with a catalogue) and the address (with `update_ips`) all already match |
| Partitioning.ForeignLabelsKept | lib/check_mk/cee/dcd/plugins/connectors/fileconnector.py:1314-1360 | labels outside the prefix keep their values in the modification |
| Partitioning.ModificationConverges | lib/check_mk/cee/dcd/plugins/connectors/fileconnector.py:1296-1391 | once a modification is applied, the same record plans no further modification |
| Partitioning.PartitionHosts | lib/check_mk/cee/dcd/plugins/connectors/fileconnector.py:1104-1445 | raises iff the record loop raises; creations and moves are the loop's; modifications show the final attribute dicts; the deletes are exactly the managed hosts no record names, without duplicates |
| Partitioning.PartitionRecord | lib/check_mk/cee/dcd/plugins/connectors/fileconnector.py:1397-1431 | one pass of the loop, written as statements, agrees with the pass `Step` that the loop lemmas are about: a missing hostname field raises, filtered and unrelated hosts are skipped, unknown hosts get their creation, related hosts their in-place modification and move |
| Partitioning.HostsToDelete | lib/check_mk/cee/dcd/plugins/connectors/fileconnector.py:1433-1435 | a host is deleted iff it is managed and no record names it; no host is listed twice |
| Client.PrefixPath | lib/check_mk/cee/dcd/plugins/connectors/fileconnector.py:739-745 | the result starts with `/`; a path that already does is unchanged, any other gets `/` in front |
| Client.PrefixPathIdempotent | lib/check_mk/cee/dcd/plugins/connectors/fileconnector.py:739-745 | prefixing twice is prefixing once |
| Client.FoldersFromNewHosts | lib/check_mk/cee/dcd/plugins/connectors/fileconnector.py:734-736 | exactly the folders of the creations, prefixed for REST (and as written for HTTP, lines 638-640) |
| Client.FoldersFromMovesAsWritten | lib/check_mk/cee/dcd/plugins/connectors/fileconnector.py:1088 | passing the two-element move tuples to a three-name unpacking raises unless there is no move |
| Client.FoldersFromMoves | lib/check_mk/cee/dcd/plugins/connectors/fileconnector.py:1084-1088 | exactly the target folders of the moves, as the flavour writes them |
| Client.MoveFoldersCounterexample | lib/check_mk/cee/dcd/plugins/connectors/fileconnector.py:1088 | one move to `site/berlin` raises as written; the corrected step yields `/site/berlin` |
| Client.FoldersFromMovesAgree | lib/check_mk/cee/dcd/plugins/connectors/fileconnector.py:1084-1088 | moves and creations into the same folders ask for the same folders |
| Client.RemoveMetaData | lib/check_mk/cee/dcd/plugins/connectors/fileconnector.py:584-600 | every entry keeps its name, unset list and attributes except `meta_data`, which it loses |
| Client.MoveHostCall | lib/check_mk/cee/dcd/plugins/connectors/fileconnector.py:747-778 | the request moves the named host; the REST target folder starts with `/` |
| Chunking.Chunks | lib/check_mk/cee/dcd/plugins/connectors/fileconnector.py:868-873 | no chunks for a non-positive count; otherwise the fewest chunks of `count` slots that hold every item |
| Chunking.CompactPad | lib/check_mk/cee/dcd/plugins/connectors/fileconnector.py:869-882 | dropping falsy slots of a padded chunk keeps the chunk's truthy items in order |
| Chunking.BatchesConcat | lib/check_mk/cee/dcd/plugins/connectors/fileconnector.py:881-882 | the batches sent, concatenated, are the truthy items in order |
| Chunking.BatchesPartition | lib/check_mk/cee/dcd/plugins/connectors/fileconnector.py:868-882 | with truthy items: ceil(n/count) batches, each of 1 to count items, concatenating to the items |
| Chunking.BatchesNonEmpty | lib/check_mk/cee/dcd/plugins/connectors/fileconnector.py:881-882 | with truthy items no batch is empty |
| Chunking.BatchesElements | lib/check_mk/cee/dcd/plugins/connectors/fileconnector.py:881-882 | every item of a batch is a truthy item of the input |
| Chunking.MergeReply | lib/check_mk/cee/dcd/plugins/connectors/fileconnector.py:884-891 | the succeeded lists are concatenated, the accumulated one first; the failed dicts are united, the reply winning and every other accumulated entry kept; a side without the list or dict takes the other side's; a key is present iff either side has it |
| Chunking.ChunkReturningCall | lib/check_mk/cee/dcd/plugins/connectors/fileconnector.py:875-897 | the loop sends one request per batch, merges the truthy replies and activates after each |
| Chunking.ReturnedActivations | lib/check_mk/cee/dcd/plugins/connectors/fileconnector.py:884-893 | one activation per truthy reply |
| Chunking.ReturnedContents | lib/check_mk/cee/dcd/plugins/connectors/fileconnector.py:884-891 | a name is in the merged succeeded list or failed dict iff some truthy reply has it there |
| Chunking.ChunkCall | lib/check_mk/cee/dcd/plugins/connectors/fileconnector.py:899-908 | the loop sends one request per batch and activates after each |
| Chunking.CalledActivations | lib/check_mk/cee/dcd/plugins/connectors/fileconnector.py:904-906 | one activation per batch |
| Apply.SortedFolders | lib/check_mk/cee/dcd/plugins/connectors/fileconnector.py:1461 | `sorted` of a set: sorted, same size, same members |
| Apply.CreateFolders | lib/check_mk/cee/dcd/plugins/connectors/fileconnector.py:1463-1480 | no folders: no request; otherwise one `add_folder` per folder in order, then one activation, and all are reported created |
| Apply.ProcessFolders | lib/check_mk/cee/dcd/plugins/connectors/fileconnector.py:1447-1461 | creates, in sorted order, exactly the needed folders the site lacks |
| Apply.SucceededHosts | lib/check_mk/cee/dcd/plugins/connectors/fileconnector.py:1525-1530 | a reply without `failed_hosts` raises on that key; otherwise the `succeeded_hosts` list, raising when it is missing; in particular the empty reply a chunker returns when no reply was truthy raises on `failed_hosts` |
| Apply.CreateNewHosts | lib/check_mk/cee/dcd/plugins/connectors/fileconnector.py:1503-1530 | the stage follows its specification `Created`: nothing to create sends nothing; otherwise add the hosts, then discover the created ones |
| Apply.CreatedPlain | lib/check_mk/cee/dcd/plugins/connectors/fileconnector.py:1503-1530 | without chunking: one addition; raises iff a reply key is missing; discovery follows iff hosts were created and discovery is on |
| Apply.CreatedSends | lib/check_mk/cee/dcd/plugins/connectors/fileconnector.py:1503-1530 | every planned creation is sent exactly once and in order, in one request or through a chunker with a positive chunk size; a negative chunk size sends nothing and fails on `failed_hosts`; through a chunker a host is reported created iff a truthy batch reply lists it as succeeded; discovery of the created hosts is the last request iff some were created and discovery is on |
| Apply.ModifyExistingHosts | lib/check_mk/cee/dcd/plugins/connectors/fileconnector.py:1564-1610 | the stage follows its specification `Modified`: nothing to modify sends nothing; otherwise edit without `meta_data` and report the succeeded hosts |
| Apply.ModifiedSends | lib/check_mk/cee/dcd/plugins/connectors/fileconnector.py:1564-1610 | every planned edit is sent exactly once, in order, with `meta_data` removed, in one request or through a chunker with a positive chunk size; a negative chunk size sends nothing and fails on `failed_hosts`; the result is the reply's succeeded hosts, through a chunker exactly those some truthy batch reply lists |
| Apply.DeleteObsoleteHosts | lib/check_mk/cee/dcd/plugins/connectors/fileconnector.py:1612-1624 | the stage follows its specification `Deleted` |
| Apply.DeletedSends | lib/check_mk/cee/dcd/plugins/connectors/fileconnector.py:1612-1624 | the names are reported deleted; the requests delete them all without chunking, the non-empty ones with a positive chunk size, and none with a negative one |
| Apply.Moved | lib/check_mk/cee/dcd/plugins/connectors/fileconnector.py:1579-1596 | one move request per planned move, in order; a host is reported moved iff one of its moves succeeded |
| Apply.MoveHosts | lib/check_mk/cee/dcd/plugins/connectors/fileconnector.py:1579-1596 | the loop gives the moves specified by `Moved` |
| Apply.NothingChanged | lib/check_mk/cee/dcd/plugins/connectors/fileconnector.py:1627-1652 | the message is "Nothing changed" iff all four lists are empty; otherwise it starts with "Hosts: " |
| Apply.SingleChangeMessage | lib/check_mk/cee/dcd/plugins/connectors/fileconnector.py:1637-1648 | a single kind of change reads "Hosts: <count> created" (modified, deleted, moved alike) |
| Apply.TwoChangesMessage | lib/check_mk/cee/dcd/plugins/connectors/fileconnector.py:1637-1648 | creations and deletions read "Hosts: <n> created, <m> deleted", in that order |
| Apply.UpdateConfig | lib/check_mk/cee/dcd/plugins/connectors/fileconnector.py:1077-1102 | a partitioning error is raised before any request; otherwise the partition applied has the creations and moves `_partition_hosts` computes, its modifications with the final attribute dicts, and each obsolete host once, and the log and result are what `Applies` describes; requests come in the fixed order; no request names an unrelated host; deletions name only managed hosts no record names; the flag is set iff the message is not "Nothing changed". With a label path template and a pending move the model goes on where the code as written raises at line 1088: the corrected behaviour under Findings |
| Apply.ApplyPartition | lib/check_mk/cee/dcd/plugins/connectors/fileconnector.py:1084-1102 | the log and result are what `Applies` describes: with a label path template the two sorted folder steps of `FolderRequests`, none without; then the requests of the creation, edit, deletion and move steps, stopping after a creation or edit step that raises; the result is that error, or `ChangeMessage` of the four steps' results; the order and safety hold for every partition that spares the given hosts, whatever the site replies |
| Apply.ApplyFolders | lib/check_mk/cee/dcd/plugins/connectors/fileconnector.py:1084-1088 | only folder requests and activations; none without a label path template; with one, the requests of `_create_folders` on the sorted folders the new hosts need that the site lacks, then on the sorted folders the moved hosts need that are still missing; each needed folder is asked for once and no other folder |
| Apply.FolderPlanUnique | lib/check_mk/cee/dcd/plugins/connectors/fileconnector.py:1447-1480 | the two sorted folder lists are determined by the partition and the site, so the folder requests are too |
| Apply.FolderRequestsOnce | lib/check_mk/cee/dcd/plugins/connectors/fileconnector.py:1447-1480 | the folder requests ask for exactly the needed folders the site lacks, each once |
| Apply.ApplyHostSteps | lib/check_mk/cee/dcd/plugins/connectors/fileconnector.py:1090-1102 | the requests are those of the creation, edit, deletion and move steps in order, stopping after a creation or edit step that raises; the result is that error or the change message of the four results, flagged iff it is not "Nothing changed" |
| Apply.FinalActivation | lib/check_mk/cee/dcd/plugins/connectors/fileconnector.py:1029-1036 | activate iff hosts changed and the client is not a chunker (which activates by itself) |
| Exchange.Serialize | lib/check_mk/cee/dcd/plugins/connectors/fileconnector.py:1745-1751 | exactly the keys `hosts`, `hostname_field`, `fieldnames`, holding the three attributes |
| Exchange.DeserializeSerialize | lib/check_mk/cee/dcd/plugins/connectors/fileconnector.py:1740-1751 | reading back a serialised object gives the same object |
| Exchange.SerializeDeserialize | lib/check_mk/cee/dcd/plugins/connectors/fileconnector.py:1740-1751 | reading succeeds iff all three keys are present, otherwise the first missing one raises; what was read serialises back to those three entries |

## Left out

- File reading by the CSV, JSON and BVQ importers, and the choice of the hostname field after reading, is input: the records are a parameter.
- The HTTP and REST requests themselves are out of scope. This covers listing hosts and folders, the etag fetch, `add_folder` with its parent-folder retry, activation and service discovery. The site's replies are functions in `Client.Api`, and the requests are entries of a log.
- `_get_checkmk_version` and the tag-support probe are network reads and are not modelled.
- `_wait_for_folders` and `_wait_for_bulk_discovery` poll with clock timeouts and are left out. `Apply.ApplyPartition` assumes that folders created by the first folder step are visible to the second.
- Host filters and overtake filters are predicates on the host name, in place of compiled regular expressions.
- Records.SepKey: the greedy `(.*):sep\((.*)\)` match is modelled as if `.` matched every character; a field name holding a line break, where `re.findall` can find other matches, is not modelled.
- `str.lower` is modelled for ASCII and Latin-1 letters, and `str.strip` for Latin-1 white space, not for all of Unicode.
- The int, float and bool pass-through of the lower-casing and sanitising importers is left out: values are strings.
- Records.IpAddress: the order of the IP field names is a parameter, because Python's set order is unspecified. `Records.IpAddressSpec` states only what holds for every order.
- A site `labels` attribute that is not a dict is read as no labels. The code as written raises then whenever it touches the labels: with a label prefix (line 1318), with non-empty future labels (line 1181), or when the host needs an update (line 1358). It goes on only without a prefix, with no future labels and nothing to update, and then the model agrees with it.
- Client.RemoveMetaData: the deletion from the caller's dicts in place is modelled on values. The caller does not use those dicts afterwards.
- Partitioning.ModificationConverges: "applied" is the site's edit semantics, taken as an assumption: the new attributes minus the unset ones.
- Engine.MoveTuple takes the labels already computed for the record. Python recomputes them with the same call and gets the same result.
- `Chunker.__getattr__` reflection is modelled as the explicit choice of wrapper per request kind.
- Apply.UpdateConfig: service discovery requests name the hosts the site reports created, so they are not covered by the guarantee about unrelated hosts.
- Apply.DeletedSends: a negative chunk size sends no deletion, yet the hosts are still reported deleted. This is as written.
- Site attribute values (`Remote.Value`) are text, objects of text values, or null. JSON numbers, booleans, lists (such as `locked_attributes`) and nested objects (such as the `meta_data` timestamps) are not represented. Every comparison the connector makes is against text, the lock ident or None, so no contract depends on them.
- Exchange.Serialize: the three fields are the values phase 1 stores, and the framework's JSON encoding is not modelled.
- Logging, `_()` translation, configuration loading and the status steps are left out.

## Findings

| source | as written | input that shows it | evidently intended | confidence | as-written member | corrected member |
|---|---|---|---|---|---|---|
| lib/check_mk/cee/dcd/plugins/connectors/fileconnector.py:1088 | `_process_folders(hosts_to_move)` hands the two-element move tuples to `get_folders_from_new_hosts`, which unpacks three names (lines 640 and 736), so a ValueError is raised | `label_path_template` set and one planned move `("web01", "site/berlin")` | create the folders the moved hosts go to, as for new hosts | not executed | Client.FoldersFromMovesAsWritten, Client.MoveFoldersCounterexample | Client.FoldersFromMoves (used by Apply.ApplyPartition) |
