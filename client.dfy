/**
 * The site's API as the connector uses it (`BaseApiClient`,
 * `HttpApiClient`, `RestApiClient`): the calls it makes, the replies it
 * reads, and the pure helpers around them. The site itself is a set of
 * reply functions; every call is recorded in a log.
 */
module Client {
  import opened Wrappers
  import opened Errors
  import opened Text
  import opened Paths
  import opened Remote
  import opened Engine

  /** The two API flavours: the legacy HTTP API and the REST API. */
  datatype Flavour = Http | Rest

  /** A request the connector sends to the site. */
  datatype Call =
    | AddFolder(folder: string)
    | AddHosts(creates: seq<Creation>)
    | EditHosts(entries: seq<ModifyEntry>)
    | DeleteHosts(names: seq<string>)
    | MoveHost(name: string, folder: string)
    | ActivateChanges
    | DiscoverServices(names: seq<string>)

  /**
   * The reply to adding or editing hosts: the `succeeded_hosts` list and
   * the `failed_hosts` dict, each `None` when the reply has no such key.
   */
  datatype Reply = Reply(succeeded: Option<seq<string>>, failed: Option<map<string, string>>)

  /** Every call of a log passes `ok`. */
  predicate AllCalls(calls: seq<Call>, ok: Call -> bool) {
    forall i :: 0 <= i < |calls| ==> ok(calls[i])
  }

  /** A reply dict is truthy when it has a key at all. */
  predicate ReplyTruthy(r: Reply) {
    r.succeeded.Some? || r.failed.Some?
  }

  /**
   * The site as the connector sees it: its flavour, its folders, and how it
   * answers host additions, edits and moves.
   */
  datatype Api = Api(
    flavour: Flavour,
    folders: set<string>,
    added: seq<Creation> -> Reply,
    edited: seq<ModifyEntry> -> Reply,
    moved: (string, string) -> bool)

  // ---------------------------------------------------------------- paths

  /** `RestApiClient.prefix_path`: a path that does not start with `/` gets one. */
  function PrefixPath(path: string): (r: string)
    ensures StartsWith(r, PATH_SEPERATOR)
    ensures StartsWith(path, PATH_SEPERATOR) ==> r == path
    ensures !StartsWith(path, PATH_SEPERATOR) ==> r == PATH_SEPERATOR + path
  {
    if !StartsWith(path, PATH_SEPERATOR) then PATH_SEPERATOR + path else path
  }

  /** Prefixing twice is prefixing once. */
  lemma PrefixPathIdempotent(path: string)
    ensures PrefixPath(PrefixPath(path)) == PrefixPath(path)
  {
  }

  /** The folder a creation asks for, written as the flavour expects it. */
  function FolderOf(flavour: Flavour, path: string): (r: string)
    ensures flavour == Rest ==> StartsWith(r, PATH_SEPERATOR)
  {
    if flavour == Rest then PrefixPath(path) else path
  }

  /**
   * `get_folders_from_new_hosts`: the folders of the hosts to create, as
   * they are written (HTTP) or prefixed with `/` (REST).
   */
  function FoldersFromNewHosts(flavour: Flavour, creates: seq<Creation>): (r: set<string>)
    ensures forall f :: f in r <==> exists i :: 0 <= i < |creates| && f == FolderOf(flavour, creates[i].folder)
  {
    set i | 0 <= i < |creates| :: FolderOf(flavour, creates[i].folder)
  }

  /**
   * `get_folders_from_new_hosts` applied to the planned moves, as
   * `_process_folders(hosts_to_move)` does: it unpacks every entry into
   * three names, so any move makes it raise.
   */
  function FoldersFromMovesAsWritten(flavour: Flavour, moves: seq<(string, string)>): (r: Result<set<string>, Error>)
    ensures r.Success? <==> moves == []
    ensures r.Success? ==> r.value == {}
  {
    if moves == [] then Success({}) else Failure(UnpackMismatch)
  }

  /** The folders the planned moves lead to, written as the flavour expects them. */
  function FoldersFromMoves(flavour: Flavour, moves: seq<(string, string)>): (r: set<string>)
    ensures forall f :: f in r <==> exists i :: 0 <= i < |moves| && f == FolderOf(flavour, moves[i].1)
  {
    set i | 0 <= i < |moves| :: FolderOf(flavour, moves[i].1)
  }

  /**
   * A single planned move into a new folder makes the folder step raise
   * instead of creating that folder; the corrected step yields it.
   */
  lemma MoveFoldersCounterexample()
    ensures FoldersFromMovesAsWritten(Rest, [("web01", "site/berlin")]).Failure?
    ensures FoldersFromMoves(Rest, [("web01", "site/berlin")]) == {"/site/berlin"}
  {
    var moves := [("web01", "site/berlin")];
    assert moves[0].1[0] == 's';
    assert FolderOf(Rest, moves[0].1) == "/site/berlin";
    assert "/site/berlin" in FoldersFromMoves(Rest, moves);
  }

  /** Moves and creations for the same folders ask for the same folders. */
  lemma FoldersFromMovesAgree(flavour: Flavour, creates: seq<Creation>, moves: seq<(string, string)>)
    requires |creates| == |moves|
    requires forall i :: 0 <= i < |moves| ==> moves[i].1 == creates[i].folder
    ensures FoldersFromMoves(flavour, moves) == FoldersFromNewHosts(flavour, creates)
  {
    forall f | f in FoldersFromNewHosts(flavour, creates) ensures f in FoldersFromMoves(flavour, moves) {
      var i :| 0 <= i < |creates| && f == FolderOf(flavour, creates[i].folder);
      assert f == FolderOf(flavour, moves[i].1);
    }
  }

  // ---------------------------------------------------------------- calls

  /** One entry without its `meta_data` attribute. */
  function WithoutMetaData(entry: ModifyEntry): (r: ModifyEntry)
    ensures r.name == entry.name && r.unset == entry.unset
    ensures forall k :: k in r.attributes <==> k in entry.attributes && k != "meta_data"
    ensures forall k :: k in r.attributes ==> r.attributes[k] == entry.attributes[k]
  {
    entry.(attributes := entry.attributes - {"meta_data"})
  }

  function MetaDataRemoved(hosts: seq<ModifyEntry>): (r: seq<ModifyEntry>)
    ensures |r| == |hosts| && forall i :: 0 <= i < |hosts| ==> r[i] == WithoutMetaData(hosts[i])
  {
    seq(|hosts|, i requires 0 <= i < |hosts| => WithoutMetaData(hosts[i]))
  }

  /**
   * `_remove_meta_data`: every entry loses its `meta_data` attribute, which
   * the site refuses in an edit; nothing else changes.
   */
  method RemoveMetaData(hosts: seq<ModifyEntry>) returns (cleaned: seq<ModifyEntry>)
    ensures cleaned == MetaDataRemoved(hosts)
    ensures forall i :: 0 <= i < |hosts| ==>
      cleaned[i].name == hosts[i].name && cleaned[i].unset == hosts[i].unset &&
      (forall k :: k in cleaned[i].attributes <==> k in hosts[i].attributes && k != "meta_data") &&
      (forall k :: k in cleaned[i].attributes ==> cleaned[i].attributes[k] == hosts[i].attributes[k])
  {
    cleaned := [];
    for i := 0 to |hosts|
      invariant |cleaned| == i
      invariant forall j :: 0 <= j < i ==> cleaned[j] == WithoutMetaData(hosts[j])
    {
      var ModifyEntry(name, attributes, unset) := hosts[i];
      if "meta_data" in attributes {
        attributes := attributes - {"meta_data"};
      }
      assert ModifyEntry(name, attributes, unset) == WithoutMetaData(hosts[i]);
      cleaned := cleaned + [ModifyEntry(name, attributes, unset)];
    }
  }

  /** `add_hosts`: one request with all the given hosts. */
  function AddHostsCall(api: Api, creates: seq<Creation>): (r: (Reply, seq<Call>))
  {
    (api.added(creates), [AddHosts(creates)])
  }

  /** `modify_hosts`: one request with the entries, without `meta_data`. */
  function ModifyHostsCall(api: Api, hosts: seq<ModifyEntry>): (r: (Reply, seq<Call>))
  {
    (api.edited(MetaDataRemoved(hosts)), [EditHosts(MetaDataRemoved(hosts))])
  }

  /** `delete_hosts`: one request with the names. */
  function DeleteHostsCall(names: seq<string>): (r: seq<Call>)
  {
    [DeleteHosts(names)]
  }

  /** `move_host`: the REST client prefixes the target folder with `/`; the reply says whether it worked. */
  function MoveHostCall(api: Api, name: string, path: string): (r: (bool, Call))
    ensures r.1.MoveHost? && r.1.name == name
    ensures api.flavour == Rest ==> StartsWith(r.1.folder, PATH_SEPERATOR)
  {
    var folder := FolderOf(api.flavour, path);
    (api.moved(name, folder), MoveHost(name, folder))
  }
}
