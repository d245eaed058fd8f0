/**
 * Phase 2.3 and 2.4 of the file connector: `_update_config` applies the
 * partition to the site in a fixed order (folders, creations, edits,
 * deletions, moves), reports what changed, and phase 2.4 activates the
 * changes when the client does not do so itself.
 */
module Apply {
  import opened Wrappers
  import opened Errors
  import opened Text
  import opened Records
  import opened Tags
  import opened Remote
  import opened Engine
  import opened Partitioning
  import opened Client
  import opened Chunking

  /** The client the connector talks to, wrapped in a chunker when a chunk size is configured. */
  datatype Connection = Connection(api: Api, chunkSize: int, useServiceDiscovery: bool)

  /** `_get_api_client`: a chunk size other than zero wraps the client in a `Chunker`. */
  predicate Chunked(conn: Connection) {
    conn.chunkSize != 0
  }

  // ---------------------------------------------------------------- the request log

  /** Which step of the fixed order a request belongs to; activations may come anywhere. */
  function Stage(c: Call): nat {
    match c
    case AddFolder(_) => 0
    case AddHosts(_) => 1
    case DiscoverServices(_) => 1
    case EditHosts(_) => 2
    case DeleteHosts(_) => 3
    case MoveHost(_, _) => 4
    case ActivateChanges => 0
  }

  /** The requests come in the fixed order: no request of a later step precedes one of an earlier step. */
  predicate InOrder(calls: seq<Call>) {
    forall i, j :: 0 <= i < j < |calls| && calls[i] != ActivateChanges && calls[j] != ActivateChanges ==>
      Stage(calls[i]) <= Stage(calls[j])
  }

  /** The request adds, edits, deletes or moves host `n`. */
  predicate Mentions(c: Call, n: string) {
    match c
    case AddHosts(creates) => exists i :: 0 <= i < |creates| && creates[i].name == n
    case EditHosts(entries) => exists i :: 0 <= i < |entries| && entries[i].name == n
    case DeleteHosts(names) => n in names
    case MoveHost(name, _) => name == n
    case _ => false
  }

  /** The request leaves the hosts in `spared` alone and deletes only hosts in `obsolete`. */
  predicate SafeCall(c: Call, spared: set<string>, obsolete: set<string>) {
    (forall n :: n in spared ==> !Mentions(c, n)) &&
    (c.DeleteHosts? ==> forall n :: n in c.names ==> n in obsolete)
  }

  /** A request of step `k` (or an activation) that is safe. */
  function Allowed(k: nat, spared: set<string>, obsolete: set<string>): Call -> bool {
    c => (c == ActivateChanges || Stage(c) == k) && SafeCall(c, spared, obsolete)
  }

  /** A log of safe requests in the fixed order, none past step `k`. */
  predicate Good(calls: seq<Call>, k: nat, spared: set<string>, obsolete: set<string>) {
    InOrder(calls) &&
    forall i :: 0 <= i < |calls| ==>
      (calls[i] == ActivateChanges || Stage(calls[i]) <= k) && SafeCall(calls[i], spared, obsolete)
  }

  lemma AppendStage(acc: seq<Call>, s: seq<Call>, k: nat, k': nat, spared: set<string>, obsolete: set<string>)
    requires Good(acc, k, spared, obsolete) && k <= k'
    requires AllCalls(s, Allowed(k', spared, obsolete))
    ensures Good(acc + s, k', spared, obsolete)
  {
    var t := acc + s;
    forall i | 0 <= i < |t|
      ensures (t[i] == ActivateChanges || Stage(t[i]) <= k') && SafeCall(t[i], spared, obsolete)
    {
      if i >= |acc| {
        assert t[i] == s[i - |acc|];
        assert Allowed(k', spared, obsolete)(s[i - |acc|]);
      }
    }
    forall i, j | 0 <= i < j < |t| && t[i] != ActivateChanges && t[j] != ActivateChanges
      ensures Stage(t[i]) <= Stage(t[j])
    {
      if j >= |acc| {
        assert t[j] == s[j - |acc|];
        assert Allowed(k', spared, obsolete)(s[j - |acc|]);
      }
      if i >= |acc| {
        assert t[i] == s[i - |acc|];
        assert Allowed(k', spared, obsolete)(s[i - |acc|]);
      }
    }
  }

  // ---------------------------------------------------------------- folders

  /** Python's `sorted` on a set of folder names. */
  method SortedFolders(folders: set<string>) returns (r: seq<string>)
    ensures Sorted(r) && |r| == |folders|
    ensures forall f :: f in r <==> f in folders
  {
    r := [];
    var rest := folders;
    while rest != {}
      invariant rest <= folders && Sorted(r)
      invariant forall f :: f in r <==> f in folders && f !in rest
      invariant |r| + |rest| == |folders|
      decreases |rest|
    {
      var f :| f in rest;
      var r' := Insert(f, r);
      assert |multiset(r')| == |multiset(r)| + 1;
      assert forall g :: g in r' <==> g in multiset(r');
      r := r';
      rest := rest - {f};
    }
  }

  /**
   * `_create_folders`: one `add_folder` request per folder, then a single
   * activation; no folders, no requests.
   */
  method CreateFolders(folders: seq<string>) returns (created: seq<string>, calls: seq<Call>)
    ensures created == folders
    ensures folders == [] ==> calls == []
    ensures folders != [] ==> (|calls| == |folders| + 1 && calls[|folders|] == ActivateChanges &&
      forall i :: 0 <= i < |folders| ==> calls[i] == AddFolder(folders[i]))
  {
    if folders == [] {
      return [], [];
    }
    created, calls := [], [];
    for i := 0 to |folders|
      invariant created == folders[..i] && |calls| == i
      invariant forall j :: 0 <= j < i ==> calls[j] == AddFolder(folders[j])
    {
      calls := calls + [AddFolder(folders[i])];
      created := created + [folders[i]];
    }
    calls := calls + [ActivateChanges];
  }

  /**
   * `_process_folders`: the folders the hosts need that the site does not
   * have yet are created, in sorted order.
   */
  method ProcessFolders(hostFolders: set<string>, existing: set<string>) returns (created: seq<string>, calls: seq<Call>)
    ensures Sorted(created) && |created| == |hostFolders - existing|
    ensures forall f :: f in created <==> f in hostFolders && f !in existing
    ensures created == [] ==> calls == []
    ensures created != [] ==> (|calls| == |created| + 1 && calls[|created|] == ActivateChanges &&
      forall i :: 0 <= i < |created| ==> calls[i] == AddFolder(created[i]))
    ensures calls == FolderStep(created)
  {
    var missing := SortedFolders(hostFolders - existing);
    created, calls := CreateFolders(missing);
  }

  /** The requests of one `_create_folders` call on a list of folders. */
  function FolderStep(folders: seq<string>): (r: seq<Call>)
    ensures folders == [] ==> r == []
    ensures folders != [] ==> (|r| == |folders| + 1 && r[|folders|] == ActivateChanges &&
      forall i :: 0 <= i < |folders| ==> r[i] == AddFolder(folders[i]))
  {
    if folders == [] then []
    else seq(|folders|, i requires 0 <= i < |folders| => AddFolder(folders[i])) + [ActivateChanges]
  }

  /**
   * The two folder steps of `_update_config`: the folders the new hosts
   * need that the site lacks, sorted; then the folders the moved hosts
   * need that are still missing, sorted.
   */
  ghost predicate FolderPlan(api: Api, partition: Partition, a: seq<string>, b: seq<string>) {
    Sorted(a) && Sorted(b) &&
    (forall f :: f in a <==> f in FoldersFromNewHosts(api.flavour, partition.creates) && f !in api.folders) &&
    (forall f :: f in b <==> f in FoldersFromMoves(api.flavour, partition.moves) && f !in api.folders && f !in a)
  }

  /** The folder requests are those of the two folder steps. */
  ghost predicate FolderRequests(api: Api, partition: Partition, calls: seq<Call>) {
    exists a, b :: FolderPlan(api, partition, a, b) && calls == FolderStep(a) + FolderStep(b)
  }

  /** The two folder lists are determined, so the folder requests are too. */
  lemma FolderPlanUnique(api: Api, partition: Partition, a: seq<string>, b: seq<string>, a': seq<string>, b': seq<string>)
    requires FolderPlan(api, partition, a, b) && FolderPlan(api, partition, a', b')
    ensures a == a' && b == b'
  {
    SortedUnique(a, a');
    SortedUnique(b, b');
  }

  /** A sorted list names no folder twice. */
  lemma SortedDistinct(s: seq<string>)
    requires Sorted(s)
    ensures forall i, j :: 0 <= i < j < |s| ==> s[i] != s[j]
  {
    forall i, j | 0 <= i < j < |s| ensures s[i] != s[j] {
      StrLessIrreflexive(s[i]);
    }
  }

  /**
   * The folder requests ask for each needed folder the site lacks exactly
   * once, and for no other folder.
   */
  lemma FolderRequestsOnce(api: Api, partition: Partition, calls: seq<Call>)
    requires FolderRequests(api, partition, calls)
    ensures forall f :: AddFolder(f) in calls <==> f in NeededFolders(api, partition)
    ensures forall i, j :: 0 <= i < j < |calls| && calls[i].AddFolder? ==> calls[i] != calls[j]
  {
    var a, b :| FolderPlan(api, partition, a, b) && calls == FolderStep(a) + FolderStep(b);
    FolderStepsAdd(a, b);
    FolderStepsOnce(a, b);
  }

  /** Two folder steps add exactly the folders of their lists. */
  lemma FolderStepsAdd(a: seq<string>, b: seq<string>)
    ensures forall f :: AddFolder(f) in FolderStep(a) + FolderStep(b) <==> f in a || f in b
  {
    var sa, sb := FolderStep(a), FolderStep(b);
    var calls := sa + sb;
    forall f ensures AddFolder(f) in calls <==> f in a || f in b {
      if AddFolder(f) in calls {
        var i :| 0 <= i < |calls| && calls[i] == AddFolder(f);
        if i < |sa| { assert sa[i] == calls[i]; assert a[i] == f; }
        else { assert sb[i - |sa|] == calls[i]; assert b[i - |sa|] == f; }
      }
      if f in a {
        var i :| 0 <= i < |a| && a[i] == f;
        assert calls[i] == sa[i];
      } else if f in b {
        var i :| 0 <= i < |b| && b[i] == f;
        assert calls[|sa| + i] == sb[i];
      }
    }
  }

  /** Two folder steps over sorted, disjoint lists ask for no folder twice. */
  lemma FolderStepsOnce(a: seq<string>, b: seq<string>)
    requires Sorted(a) && Sorted(b) && forall f :: f in b ==> f !in a
    ensures var calls := FolderStep(a) + FolderStep(b);
      forall i, j :: 0 <= i < j < |calls| && calls[i].AddFolder? ==> calls[i] != calls[j]
  {
    SortedDistinct(a);
    SortedDistinct(b);
    var sa, sb := FolderStep(a), FolderStep(b);
    var calls := sa + sb;
    forall i, j | 0 <= i < j < |calls| && calls[i].AddFolder? ensures calls[i] != calls[j] {
      if j < |sa| {
        assert calls[i] == sa[i] && calls[j] == sa[j];
      } else if i >= |sa| {
        assert calls[i] == sb[i - |sa|] && calls[j] == sb[j - |sa|];
      } else {
        assert calls[i] == sa[i] && calls[j] == sb[j - |sa|];
        if calls[j].AddFolder? {
          assert a[i] in a && b[j - |sa|] in b;
        }
      }
    }
  }


  // ---------------------------------------------------------------- replies

  /**
   * `_create_hosts` / `_modify_hosts` read `failed_hosts`, then
   * `succeeded_hosts` out of the reply; a reply without either key raises.
   */
  function SucceededHosts(reply: Reply): (r: Result<seq<string>, Error>)
    ensures r.Success? <==> reply.failed.Some? && reply.succeeded.Some?
    ensures r.Success? ==> r.value == reply.succeeded.value
    ensures reply.failed.None? ==> r == Failure(KeyMissing("failed_hosts"))
  {
    if reply.failed.None? then Failure(KeyMissing("failed_hosts"))
    else if reply.succeeded.None? then Failure(KeyMissing("succeeded_hosts"))
    else Success(reply.succeeded.value)
  }

  /** A tuple is truthy: every creation and every edit is sent. */
  function TupleTruthy<T>(): T -> bool {
    x => true
  }

  /** A host name is truthy unless it is empty. */
  function NameTruthy(): string -> bool {
    n => n != ""
  }

  function AddSender(api: Api): seq<Creation> -> (Reply, seq<Call>) {
    b => AddHostsCall(api, b)
  }

  function EditSender(api: Api): seq<ModifyEntry> -> (Reply, seq<Call>) {
    b => ModifyHostsCall(api, b)
  }

  function DeleteSender(): seq<string> -> seq<Call> {
    b => DeleteHostsCall(b)
  }

  // ---------------------------------------------------------------- what a log carries

  function AddsOf(c: Call): seq<Creation> {
    if c.AddHosts? then c.creates else []
  }

  function EditsOf(c: Call): seq<ModifyEntry> {
    if c.EditHosts? then c.entries else []
  }

  function DeletesOf(c: Call): seq<string> {
    if c.DeleteHosts? then c.names else []
  }

  /** What the requests of a log carry, in order, as `of` reads each request. */
  function Carried<T>(calls: seq<Call>, of: Call -> seq<T>): seq<T> {
    if calls == [] then []
    else Carried(calls[..|calls| - 1], of) + of(calls[|calls| - 1])
  }

  lemma {:induction false} CarriedAppend<T>(a: seq<Call>, b: seq<Call>, of: Call -> seq<T>)
    ensures Carried(a + b, of) == Carried(a, of) + Carried(b, of)
    decreases |b|
  {
    if b == [] {
      assert a + b == a;
    } else {
      assert (a + b)[..|a + b| - 1] == a + b[..|b| - 1];
      CarriedAppend(a, b[..|b| - 1], of);
    }
  }

  lemma CarriedOne<T>(c: Call, of: Call -> seq<T>)
    ensures Carried([c], of) == of(c)
  {
    assert [c][..0] == [];
  }

  lemma {:induction false} FlattenAppend<T>(xss: seq<seq<T>>, x: seq<T>)
    ensures Flatten(xss + [x]) == Flatten(xss) + x
    decreases |xss|
  {
    if xss == [] {
      assert [x][1..] == [];
    } else {
      assert (xss + [x])[1..] == xss[1..] + [x];
      FlattenAppend(xss[1..], x);
    }
  }

  // ---------------------------------------------------------------- creations

  /** What `_create_new_hosts` returns and the requests it makes. */
  function Created(conn: Connection, creates: seq<Creation>): (r: (Result<seq<string>, Error>, seq<Call>))
  {
    if creates == [] then (Success([]), [])
    else
      var (reply, sent) := CreateSent(conn, creates);
      Discovering(conn, SucceededHosts(reply), sent)
  }

  /**
   * `_create_new_hosts`: nothing to create, no request; otherwise the hosts
   * are added (chunk by chunk through a chunker) and the created ones are
   * discovered when service discovery is on.
   */
  method CreateNewHosts(conn: Connection, creates: seq<Creation>) returns (r: Result<seq<string>, Error>, calls: seq<Call>)
    ensures (r, calls) == Created(conn, creates)
  {
    if creates == [] {
      return Success([]), [];
    }
    var reply;
    if Chunked(conn) {
      reply, calls := ChunkReturningCall(creates, conn.chunkSize, TupleTruthy(), AddSender(conn.api));
    } else {
      reply, calls := conn.api.added(creates), [AddHosts(creates)];
    }
    var names :- SucceededHosts(reply);
    if names != [] && conn.useServiceDiscovery {
      calls := calls + [DiscoverServices(names)];
    }
    r := Success(names);
  }

  /**
   * Without a chunker the hosts go out in one request and the result is
   * what the site reports; with none to create nothing is sent; discovery
   * runs exactly when it is on and some host was created.
   */
  lemma CreatedPlain(conn: Connection, creates: seq<Creation>)
    requires !Chunked(conn) && creates != []
    ensures var (r, calls) := Created(conn, creates);
      var reply := conn.api.added(creates);
      calls[0] == AddHosts(creates) &&
      (r.Failure? <==> reply.failed.None? || reply.succeeded.None?) &&
      (r.Success? ==> (r.value == reply.succeeded.value &&
        (calls == [AddHosts(creates), DiscoverServices(r.value)] <==> r.value != [] && conn.useServiceDiscovery) &&
        (calls == [AddHosts(creates)] <==> r.value == [] || !conn.useServiceDiscovery)))
  {
  }

  lemma {:induction false} AddsReturned(api: Api, batches: seq<seq<Creation>>)
    ensures Carried(Returned(AddSender(api), batches).1, AddsOf) == Flatten(batches)
    decreases |batches|
  {
    if batches != [] {
      var init := batches[..|batches| - 1];
      var last := batches[|batches| - 1];
      AddsReturned(api, init);
      var c := Returned(AddSender(api), init).1;
      CarriedAppend(c, [AddHosts(last)], AddsOf);
      CarriedAppend(c + [AddHosts(last)], [ActivateChanges], AddsOf);
      CarriedOne(AddHosts(last), AddsOf);
      CarriedOne(ActivateChanges, AddsOf);
      FlattenAppend(init, last);
      assert init + [last] == batches;
    }
  }

  /**
   * Every planned creation is sent exactly once, in order: in one request,
   * or through a chunker with a positive chunk size. A negative chunk size
   * sends nothing, and the empty merged reply then fails the step. Through
   * a chunker, the hosts reported created are exactly those some truthy
   * reply lists as succeeded; discovery, when on, is the last request.
   */
  lemma CreatedSends(conn: Connection, creates: seq<Creation>)
    ensures conn.chunkSize >= 0 ==> Carried(Created(conn, creates).1, AddsOf) == creates
    ensures conn.chunkSize < 0 && creates != [] ==>
      Carried(Created(conn, creates).1, AddsOf) == [] && Created(conn, creates).0 == Failure(KeyMissing("failed_hosts"))
    ensures var r := Created(conn, creates).0;
      var b := Batches(creates, conn.chunkSize, TupleTruthy());
      r.Success? && Chunked(conn) ==> forall x :: x in r.value <==>
        exists i :: 0 <= i < |b| && ReplyTruthy(conn.api.added(b[i])) &&
          conn.api.added(b[i]).succeeded.Some? && x in conn.api.added(b[i]).succeeded.value
    ensures var (r, calls) := Created(conn, creates);
      r.Success? ==> (|calls| > 0 && calls[|calls| - 1] == DiscoverServices(r.value) <==>
        r.value != [] && conn.useServiceDiscovery)
  {
    if creates != [] {
      var (reply, sent) := CreateSent(conn, creates);
      if Chunked(conn) {
        CreatedChunked(conn, creates, Batches(creates, conn.chunkSize, TupleTruthy()));
      } else {
        CarriedOne(AddHosts(creates), AddsOf);
        assert Adding(sent[0]);
      }
      CreatedDiscovers(conn, SucceededHosts(reply), sent);
    }
  }

  /** The requests of the addition itself, before any discovery. */
  function CreateSent(conn: Connection, creates: seq<Creation>): (Reply, seq<Call>) {
    if Chunked(conn) then Returned(AddSender(conn.api), Batches(creates, conn.chunkSize, TupleTruthy()))
    else AddHostsCall(conn.api, creates)
  }

  /** An addition request or an activation. */
  predicate Adding(c: Call) {
    c.AddHosts? || c == ActivateChanges
  }

  /** The step after the additions: the result, and a discovery of the created hosts when on. */
  function Discovering(conn: Connection, r: Result<seq<string>, Error>, sent: seq<Call>): (Result<seq<string>, Error>, seq<Call>) {
    match r
    case Failure(e) => (Failure(e), sent)
    case Success(names) =>
      if names != [] && conn.useServiceDiscovery then (Success(names), sent + [DiscoverServices(names)])
      else (Success(names), sent)
  }

  lemma CreatedDiscovers(conn: Connection, r: Result<seq<string>, Error>, sent: seq<Call>)
    requires AllCalls(sent, Adding)
    ensures var (r', calls) := Discovering(conn, r, sent);
      r' == r && Carried(calls, AddsOf) == Carried(sent, AddsOf) &&
      (r.Success? ==> (|calls| > 0 && calls[|calls| - 1] == DiscoverServices(r.value) <==>
        r.value != [] && conn.useServiceDiscovery))
  {
    if r.Success? {
      CarriedAppend(sent, [DiscoverServices(r.value)], AddsOf);
      CarriedOne(DiscoverServices(r.value), AddsOf);
      if |sent| > 0 {
        assert Adding(sent[|sent| - 1]);
      }
    }
  }

  lemma CreatedChunked(conn: Connection, creates: seq<Creation>, b: seq<seq<Creation>>)
    requires Chunked(conn) && creates != [] && b == Batches(creates, conn.chunkSize, TupleTruthy())
    ensures AllCalls(CreateSent(conn, creates).1, Adding)
    ensures conn.chunkSize > 0 ==> Carried(CreateSent(conn, creates).1, AddsOf) == creates
    ensures conn.chunkSize < 0 ==> CreateSent(conn, creates) == (Reply(None, None), [])
    ensures var reply := CreateSent(conn, creates).0;
      SucceededHosts(reply).Success? ==> forall x :: x in SucceededHosts(reply).value <==>
        exists i :: 0 <= i < |b| && ReplyTruthy(conn.api.added(b[i])) &&
          conn.api.added(b[i]).succeeded.Some? && x in conn.api.added(b[i]).succeeded.value
  {
    AddsReturned(conn.api, b);
    if conn.chunkSize > 0 {
      BatchesPartition(creates, conn.chunkSize, TupleTruthy());
    }
    var reply := CreateSent(conn, creates).0;
    if SucceededHosts(reply).Success? {
      forall x ensures x in SucceededHosts(reply).value <==>
        exists i :: 0 <= i < |b| && ReplyTruthy(conn.api.added(b[i])) &&
          conn.api.added(b[i]).succeeded.Some? && x in conn.api.added(b[i]).succeeded.value
      {
        ReturnedContents(AddSender(conn.api), b, x);
      }
    }
    forall i | 0 <= i < |b| ensures AllCalls(AddSender(conn.api)(b[i]).1, Adding) {
      assert AddSender(conn.api)(b[i]).1 == [AddHosts(b[i])];
    }
    ReturnedAll(AddSender(conn.api), b, Adding);
  }

  /** Every request the creation step makes is a step-1 request naming only hosts being created. */
  lemma CreatedAllowed(conn: Connection, creates: seq<Creation>, spared: set<string>, obsolete: set<string>)
    requires forall i :: 0 <= i < |creates| ==> creates[i].name !in spared
    ensures AllCalls(Created(conn, creates).1, Allowed(1, spared, obsolete))
  {
    var ok := Allowed(1, spared, obsolete);
    if creates != [] {
      if Chunked(conn) {
        var batches := Batches(creates, conn.chunkSize, TupleTruthy());
        BatchesElements(creates, conn.chunkSize, TupleTruthy());
        forall i | 0 <= i < |batches| ensures AllCalls(AddSender(conn.api)(batches[i]).1, ok) {
          assert AddSender(conn.api)(batches[i]).1 == [AddHosts(batches[i])];
          forall n | n in spared ensures !Mentions(AddHosts(batches[i]), n) {
            forall j | 0 <= j < |batches[i]| ensures batches[i][j].name != n {
              assert batches[i][j] in batches[i];
            }
          }
        }
        ReturnedAll(AddSender(conn.api), batches, ok);
      } else {
        assert ok(AddHosts(creates));
      }
    }
  }

  // ---------------------------------------------------------------- edits

  /** What `_modify_existing_hosts` returns and the requests it makes. */
  function Modified(conn: Connection, entries: seq<ModifyEntry>): (r: (Result<seq<string>, Error>, seq<Call>))
  {
    if entries == [] then (Success([]), [])
    else
      var (reply, calls) :=
        if Chunked(conn) then Returned(EditSender(conn.api), Batches(entries, conn.chunkSize, TupleTruthy()))
        else ModifyHostsCall(conn.api, entries);
      (SucceededHosts(reply), calls)
  }

  /** `_modify_existing_hosts`: the entries are sent without `meta_data`, chunk by chunk through a chunker. */
  method ModifyExistingHosts(conn: Connection, entries: seq<ModifyEntry>) returns (r: Result<seq<string>, Error>, calls: seq<Call>)
    ensures (r, calls) == Modified(conn, entries)
  {
    if entries == [] {
      return Success([]), [];
    }
    var reply;
    if Chunked(conn) {
      reply, calls := ChunkReturningCall(entries, conn.chunkSize, TupleTruthy(), EditSender(conn.api));
    } else {
      var cleaned := RemoveMetaData(entries);
      reply, calls := conn.api.edited(cleaned), [EditHosts(cleaned)];
    }
    r := SucceededHosts(reply);
  }

  lemma MetaDataRemovedAppend(a: seq<ModifyEntry>, b: seq<ModifyEntry>)
    ensures MetaDataRemoved(a + b) == MetaDataRemoved(a) + MetaDataRemoved(b)
  {
    assert forall i :: 0 <= i < |a + b| ==> MetaDataRemoved(a + b)[i] == (MetaDataRemoved(a) + MetaDataRemoved(b))[i];
  }

  lemma {:induction false} EditsReturned(api: Api, batches: seq<seq<ModifyEntry>>)
    ensures Carried(Returned(EditSender(api), batches).1, EditsOf) == MetaDataRemoved(Flatten(batches))
    decreases |batches|
  {
    if batches != [] {
      var init := batches[..|batches| - 1];
      var last := batches[|batches| - 1];
      EditsReturned(api, init);
      var c := Returned(EditSender(api), init).1;
      var edit := EditHosts(MetaDataRemoved(last));
      CarriedAppend(c, [edit], EditsOf);
      CarriedAppend(c + [edit], [ActivateChanges], EditsOf);
      CarriedOne(edit, EditsOf);
      CarriedOne(ActivateChanges, EditsOf);
      FlattenAppend(init, last);
      MetaDataRemovedAppend(Flatten(init), last);
      assert init + [last] == batches;
    }
  }

  /**
   * Every planned edit is sent exactly once, in order and without its
   * `meta_data`: in one request, or through a chunker with a positive chunk
   * size. A negative chunk size sends nothing, and the empty merged reply
   * then fails the step. The hosts reported edited are those the reply lists
   * as succeeded; through a chunker, exactly those some truthy reply lists.
   */
  lemma ModifiedSends(conn: Connection, entries: seq<ModifyEntry>)
    ensures conn.chunkSize >= 0 ==> Carried(Modified(conn, entries).1, EditsOf) == MetaDataRemoved(entries)
    ensures conn.chunkSize < 0 && entries != [] ==>
      Carried(Modified(conn, entries).1, EditsOf) == [] && Modified(conn, entries).0 == Failure(KeyMissing("failed_hosts"))
    ensures !Chunked(conn) && entries != [] ==>
      Modified(conn, entries).0 == SucceededHosts(conn.api.edited(MetaDataRemoved(entries)))
    ensures var r := Modified(conn, entries).0;
      var b := Batches(entries, conn.chunkSize, TupleTruthy());
      r.Success? && Chunked(conn) ==> forall x :: x in r.value <==>
        exists i :: 0 <= i < |b| && ReplyTruthy(conn.api.edited(MetaDataRemoved(b[i]))) &&
          conn.api.edited(MetaDataRemoved(b[i])).succeeded.Some? &&
          x in conn.api.edited(MetaDataRemoved(b[i])).succeeded.value
  {
    var r := Modified(conn, entries).0;
    if entries != [] {
      if Chunked(conn) {
        var b := Batches(entries, conn.chunkSize, TupleTruthy());
        EditsReturned(conn.api, b);
        if conn.chunkSize > 0 {
          BatchesPartition(entries, conn.chunkSize, TupleTruthy());
        }
        if r.Success? {
          forall x ensures x in r.value <==>
            exists i :: 0 <= i < |b| && ReplyTruthy(conn.api.edited(MetaDataRemoved(b[i]))) &&
              conn.api.edited(MetaDataRemoved(b[i])).succeeded.Some? &&
              x in conn.api.edited(MetaDataRemoved(b[i])).succeeded.value
          {
            ReturnedContents(EditSender(conn.api), b, x);
          }
        }
      } else {
        CarriedOne(EditHosts(MetaDataRemoved(entries)), EditsOf);
      }
    } else {
      assert MetaDataRemoved(entries) == [];
    }
  }

  /** Every request the edit step makes is a step-2 request naming only hosts with a planned edit. */
  lemma ModifiedAllowed(conn: Connection, entries: seq<ModifyEntry>, spared: set<string>, obsolete: set<string>)
    requires forall i :: 0 <= i < |entries| ==> entries[i].name !in spared
    ensures AllCalls(Modified(conn, entries).1, Allowed(2, spared, obsolete))
  {
    var ok := Allowed(2, spared, obsolete);
    if entries != [] {
      if Chunked(conn) {
        var batches := Batches(entries, conn.chunkSize, TupleTruthy());
        BatchesElements(entries, conn.chunkSize, TupleTruthy());
        forall i | 0 <= i < |batches| ensures AllCalls(EditSender(conn.api)(batches[i]).1, ok) {
          EditAllowed(batches[i], entries, spared, obsolete);
        }
        ReturnedAll(EditSender(conn.api), batches, ok);
      } else {
        EditAllowed(entries, entries, spared, obsolete);
      }
    }
  }

  lemma EditAllowed(batch: seq<ModifyEntry>, entries: seq<ModifyEntry>, spared: set<string>, obsolete: set<string>)
    requires forall i :: 0 <= i < |entries| ==> entries[i].name !in spared
    requires forall x :: x in batch ==> x in entries
    ensures Allowed(2, spared, obsolete)(EditHosts(MetaDataRemoved(batch)))
  {
    var cleaned := MetaDataRemoved(batch);
    forall n | n in spared ensures !Mentions(EditHosts(cleaned), n) {
      forall j | 0 <= j < |cleaned| ensures cleaned[j].name != n {
        assert batch[j] in batch;
      }
    }
  }

  // ---------------------------------------------------------------- deletions

  /** What `_delete_hosts` returns and the requests it makes. */
  function Deleted(conn: Connection, names: seq<string>): (r: (seq<string>, seq<Call>))
  {
    if names == [] then ([], [])
    else if Chunked(conn) then (names, Called(DeleteSender(), Batches(names, conn.chunkSize, NameTruthy())))
    else (names, [DeleteHosts(names)])
  }

  /** `_delete_hosts`: the names are deleted (chunk by chunk through a chunker) and reported as deleted. */
  method DeleteObsoleteHosts(conn: Connection, names: seq<string>) returns (deleted: seq<string>, calls: seq<Call>)
    ensures (deleted, calls) == Deleted(conn, names)
  {
    if names == [] {
      return [], [];
    }
    if Chunked(conn) {
      calls := ChunkCall(names, conn.chunkSize, NameTruthy(), DeleteSender());
    } else {
      calls := [DeleteHosts(names)];
    }
    deleted := names;
  }

  lemma {:induction false} DeletesCalled(batches: seq<seq<string>>)
    ensures Carried(Called(DeleteSender(), batches), DeletesOf) == Flatten(batches)
    decreases |batches|
  {
    if batches != [] {
      var init := batches[..|batches| - 1];
      var last := batches[|batches| - 1];
      DeletesCalled(init);
      var c := Called(DeleteSender(), init);
      CarriedAppend(c, [DeleteHosts(last)], DeletesOf);
      CarriedAppend(c + [DeleteHosts(last)], [ActivateChanges], DeletesOf);
      CarriedOne(DeleteHosts(last), DeletesOf);
      CarriedOne(ActivateChanges, DeletesOf);
      FlattenAppend(init, last);
      assert init + [last] == batches;
    }
  }

  /**
   * Every host of the delete list is sent for deletion exactly once, in
   * order: in one request, or through a chunker with a positive chunk size
   * all but the empty names; a negative chunk size sends nothing at all,
   * although the names are still reported as deleted.
   */
  lemma DeletedSends(conn: Connection, names: seq<string>)
    ensures Deleted(conn, names).0 == names
    ensures !Chunked(conn) ==> Carried(Deleted(conn, names).1, DeletesOf) == names
    ensures Chunked(conn) && conn.chunkSize > 0 ==> Carried(Deleted(conn, names).1, DeletesOf) == Chunking.Truthy(names, NameTruthy())
    ensures conn.chunkSize < 0 ==> Carried(Deleted(conn, names).1, DeletesOf) == []
  {
    if names != [] && Chunked(conn) {
      DeletesCalled(Batches(names, conn.chunkSize, NameTruthy()));
      if conn.chunkSize > 0 {
        BatchesConcat(names, conn.chunkSize, NameTruthy());
      }
    } else if names != [] {
      CarriedOne(DeleteHosts(names), DeletesOf);
    }
  }

  /** Every request the delete step makes is a step-3 request naming only hosts of the delete list. */
  lemma DeletedAllowed(conn: Connection, names: seq<string>, spared: set<string>, obsolete: set<string>)
    requires forall n :: n in names ==> n in obsolete && n !in spared
    ensures AllCalls(Deleted(conn, names).1, Allowed(3, spared, obsolete))
  {
    var ok := Allowed(3, spared, obsolete);
    if names != [] {
      if Chunked(conn) {
        var batches := Batches(names, conn.chunkSize, NameTruthy());
        BatchesElements(names, conn.chunkSize, NameTruthy());
        forall i | 0 <= i < |batches| ensures AllCalls(DeleteSender()(batches[i]), ok) {
          assert DeleteSender()(batches[i]) == [DeleteHosts(batches[i])];
        }
        CalledAll(DeleteSender(), batches, ok);
      } else {
        assert ok(DeleteHosts(names));
      }
    }
  }

  // ---------------------------------------------------------------- moves

  /** What `_move_hosts` returns and the requests it makes. */
  function Moved(api: Api, moves: seq<(string, string)>): (r: (seq<string>, seq<Call>))
    ensures |r.1| == |moves|
    ensures forall i :: 0 <= i < |moves| ==> r.1[i] == MoveHost(moves[i].0, FolderOf(api.flavour, moves[i].1))
    ensures forall n :: n in r.0 <==>
      exists i :: 0 <= i < |moves| && moves[i].0 == n && api.moved(n, FolderOf(api.flavour, moves[i].1))
  {
    if moves == [] then ([], [])
    else
      var init := moves[..|moves| - 1];
      var (succeeded, calls) := Moved(api, init);
      var (name, path) := moves[|moves| - 1];
      var (ok, call) := MoveHostCall(api, name, path);
      assert forall i :: 0 <= i < |init| ==> init[i] == moves[i];
      (if ok then succeeded + [name] else succeeded, calls + [call])
  }

  /** `_move_hosts`: one move request per planned move; the hosts whose move worked are reported. */
  method MoveHosts(api: Api, moves: seq<(string, string)>) returns (succeeded: seq<string>, calls: seq<Call>)
    ensures (succeeded, calls) == Moved(api, moves)
  {
    succeeded, calls := [], [];
    for i := 0 to |moves|
      invariant (succeeded, calls) == Moved(api, moves[..i])
    {
      assert moves[..i + 1][..i] == moves[..i];
      var (host, path) := moves[i];
      var (ok, call) := MoveHostCall(api, host, path);
      calls := calls + [call];
      if ok {
        succeeded := succeeded + [host];
      }
    }
    assert moves[..|moves|] == moves;
  }

  lemma MovedAllowed(api: Api, moves: seq<(string, string)>, spared: set<string>, obsolete: set<string>)
    requires forall i :: 0 <= i < |moves| ==> moves[i].0 !in spared
    ensures AllCalls(Moved(api, moves).1, Allowed(4, spared, obsolete))
  {
    var calls := Moved(api, moves).1;
    forall i | 0 <= i < |calls| ensures Allowed(4, spared, obsolete)(calls[i]) {
      assert calls[i] == MoveHost(moves[i].0, FolderOf(api.flavour, moves[i].1));
    }
  }

  // ---------------------------------------------------------------- the change message

  const NOTHING_CHANGED: string := "Nothing changed"
  const HOSTS_PREFIX: string := "Hosts: "

  /** The part of the message for one kind of change: its count, as `format` writes it, and what happened. */
  function Part(names: seq<string>, what: string, format: nat -> string): (p: seq<string>)
  {
    if names == [] then [] else [format(|names|) + what]
  }

  /** The parts in the order created, modified, moved, deleted. */
  function ChangeParts(created: seq<string>, modified: seq<string>, deleted: seq<string>, moved: seq<string>,
                       format: nat -> string): seq<string> {
    Part(created, " created", format) + Part(modified, " modified", format) +
    Part(moved, " moved", format) + Part(deleted, " deleted", format)
  }

  /** `_get_change_message`: the counts of what changed, or that nothing did. */
  function ChangeMessage(created: seq<string>, modified: seq<string>, deleted: seq<string>, moved: seq<string>): (m: string)
  {
    if created != [] || modified != [] || moved != [] || deleted != [] then
      HOSTS_PREFIX + Join(ChangeParts(created, modified, deleted, moved, NatToString), ", ")
    else NOTHING_CHANGED
  }

  /** The message says nothing changed exactly when all four lists are empty; otherwise it lists counts. */
  lemma NothingChanged(created: seq<string>, modified: seq<string>, deleted: seq<string>, moved: seq<string>)
    ensures ChangeMessage(created, modified, deleted, moved) == NOTHING_CHANGED <==>
      created == [] && modified == [] && deleted == [] && moved == []
    ensures ChangeMessage(created, modified, deleted, moved) != NOTHING_CHANGED ==>
      StartsWith(ChangeMessage(created, modified, deleted, moved), HOSTS_PREFIX)
  {
    var m := ChangeMessage(created, modified, deleted, moved);
    if created != [] || modified != [] || moved != [] || deleted != [] {
      assert m[0] == 'H' != NOTHING_CHANGED[0];
    }
  }

  lemma SingleChangeParts(names: seq<string>, format: nat -> string)
    requires names != []
    ensures ChangeParts(names, [], [], [], format) == [format(|names|) + " created"]
    ensures ChangeParts([], names, [], [], format) == [format(|names|) + " modified"]
    ensures ChangeParts([], [], names, [], format) == [format(|names|) + " deleted"]
    ensures ChangeParts([], [], [], names, format) == [format(|names|) + " moved"]
  {
  }

  /** A run that changed one kind of host only reports its count. */
  lemma SingleChangeMessage(names: seq<string>)
    requires names != []
    ensures ChangeMessage(names, [], [], []) == HOSTS_PREFIX + (NatToString(|names|) + " created")
    ensures ChangeMessage([], names, [], []) == HOSTS_PREFIX + (NatToString(|names|) + " modified")
    ensures ChangeMessage([], [], names, []) == HOSTS_PREFIX + (NatToString(|names|) + " deleted")
    ensures ChangeMessage([], [], [], names) == HOSTS_PREFIX + (NatToString(|names|) + " moved")
  {
    SingleChangeParts(names, NatToString);
  }

  lemma TwoChangeParts(created: seq<string>, deleted: seq<string>, format: nat -> string)
    requires created != [] && deleted != []
    ensures Join(ChangeParts(created, [], deleted, [], format), ", ") ==
      format(|created|) + " created" + ", " + (format(|deleted|) + " deleted")
  {
    var parts := [format(|created|) + " created", format(|deleted|) + " deleted"];
    assert ChangeParts(created, [], deleted, [], format) == parts;
    assert parts[1..] == [parts[1]];
  }

  /** Two parts are joined with `", "`, creations before deletions. */
  lemma TwoChangesMessage(created: seq<string>, deleted: seq<string>)
    requires created != [] && deleted != []
    ensures ChangeMessage(created, [], deleted, []) ==
      HOSTS_PREFIX + (NatToString(|created|) + " created" + ", " + (NatToString(|deleted|) + " deleted"))
  {
    TwoChangeParts(created, deleted, NatToString);
  }

  // ---------------------------------------------------------------- _update_config

  /** The hosts this connection may delete: managed by it and no longer imported. */
  function Obsolete(cfg: Config, remote: map<string, RemoteHost>, records: seq<Record>, hostnameField: string): set<string> {
    set n | n in OwnedAs(cfg, remote, Managed) && !Imported(hostnameField, records, n)
  }

  /** The partition names no host in `spared` and deletes only hosts in `obsolete`. */
  predicate PartitionSafe(partition: Partition, spared: set<string>, obsolete: set<string>) {
    (forall i :: 0 <= i < |partition.creates| ==> partition.creates[i].name !in spared) &&
    (forall i :: 0 <= i < |partition.modifications| ==> partition.modifications[i].name !in spared) &&
    (forall i :: 0 <= i < |partition.moves| ==> partition.moves[i].0 !in spared) &&
    (forall n :: n in partition.deletes ==> n in obsolete && n !in spared)
  }

  /**
   * `_update_config`: partition, then apply the partition. The log holds
   * every request made, also those made before a failure. `plan` is the
   * partition applied: the planned creations, edits and moves of the
   * records, and the obsolete hosts in the order the set of them is read.
   */
  method UpdateConfig(conn: Connection, cfg: Config, remote: map<string, RemoteHost>, records: seq<Record>,
                      hostnameField: string, catalogue: Option<Catalogue>, updateIps: bool)
    returns (r: Result<(bool, string), Error>, calls: seq<Call>, ghost plan: Partition)
    ensures var env := EnvOf(cfg, catalogue, hostnameField, updateIps, remote);
      Routed(env, records).Failure? ==> r == Failure(Routed(env, records).error) && calls == []
    ensures var env := EnvOf(cfg, catalogue, hostnameField, updateIps, remote);
      Routed(env, records).Success? ==> (
        var p := Routed(env, records).value;
        plan.creates == p.creates && plan.moves == p.moves &&
        |plan.modifications| == |p.pending| &&
        (forall k :: 0 <= k < |p.pending| ==> (p.pending[k].0 in p.hosts &&
          plan.modifications[k] == ModifyEntry(p.pending[k].0, p.hosts[p.pending[k].0].attributes, p.pending[k].1))) &&
        (forall n :: n in plan.deletes <==> n in Obsolete(cfg, remote, records, hostnameField)) &&
        (forall j, k :: 0 <= j < k < |plan.deletes| ==> plan.deletes[j] != plan.deletes[k]) &&
        Applies(conn, cfg.labelPathTemplate != "", plan, r, calls))
    ensures InOrder(calls)
    ensures forall i, n :: 0 <= i < |calls| && n in OwnedAs(cfg, remote, Unrelated) ==> !Mentions(calls[i], n)
    ensures forall i, n :: 0 <= i < |calls| && calls[i].DeleteHosts? && n in calls[i].names ==>
      n in OwnedAs(cfg, remote, Managed) && !Imported(hostnameField, records, n)
    ensures r.Success? ==> (r.value.0 <==> r.value.1 != NOTHING_CHANGED)
  {
    calls, plan := [], Partition([], [], [], []);
    var partition :- PartitionHosts(cfg, remote, records, hostnameField, catalogue, updateIps);
    plan := partition;
    ghost var spared := OwnedAs(cfg, remote, Unrelated);
    ghost var obsolete := Obsolete(cfg, remote, records, hostnameField);
    PartitionSpares(cfg, remote, records, hostnameField, catalogue, updateIps, partition);
    r, calls := ApplyPartition(conn, cfg.labelPathTemplate != "", partition, spared, obsolete);
    assert forall n :: n in obsolete ==> n in OwnedAs(cfg, remote, Managed) && !Imported(hostnameField, records, n);
  }

  /** The folders the new and the moved hosts need that the site lacks. */
  function NeededFolders(api: Api, partition: Partition): set<string> {
    (FoldersFromNewHosts(api.flavour, partition.creates) + FoldersFromMoves(api.flavour, partition.moves)) - api.folders
  }

  /**
   * What applying a partition does: folder requests (only when folders come
   * from labels, and then the two sorted folder steps of `FolderRequests`,
   * which ask for each needed folder once), then
   * the requests of the creation, edit, deletion and move steps in that
   * order, stopping after a step that raises; the result is that step's
   * error, or the message of what the four steps changed.
   */
  ghost predicate Applies(conn: Connection, labelPath: bool, partition: Partition,
                    r: Result<(bool, string), Error>, calls: seq<Call>) {
    var (c, cc) := Created(conn, partition.creates);
    var (m, mc) := Modified(conn, partition.modifications);
    var (d, dc) := Deleted(conn, partition.deletes);
    var (v, vc) := Moved(conn.api, partition.moves);
    var steps := if c.Failure? then cc else if m.Failure? then cc + mc else cc + mc + dc + vc;
    |steps| <= |calls| && calls[|calls| - |steps|..] == steps &&
    (forall i :: 0 <= i < |calls| - |steps| ==> calls[i].AddFolder? || calls[i] == ActivateChanges) &&
    (!labelPath ==> calls == steps) &&
    (labelPath ==> forall f :: AddFolder(f) in calls <==> f in NeededFolders(conn.api, partition)) &&
    (labelPath ==> FolderRequests(conn.api, partition, calls[..|calls| - |steps|])) &&
    (c.Failure? ==> r == Failure(c.error)) &&
    (c.Success? && m.Failure? ==> r == Failure(m.error)) &&
    (c.Success? && m.Success? ==> r.Success? && r.value.1 == ChangeMessage(c.value, m.value, d, v))
  }

  /**
   * The rest of `_update_config`: create the folders the new and the moved
   * hosts need (when folders come from labels), then create, edit, delete
   * and move hosts, and report whether anything changed.
   */
  method ApplyPartition(conn: Connection, labelPath: bool, partition: Partition, ghost spared: set<string>, ghost obsolete: set<string>)
    returns (r: Result<(bool, string), Error>, calls: seq<Call>)
    requires PartitionSafe(partition, spared, obsolete)
    ensures Applies(conn, labelPath, partition, r, calls)
    ensures InOrder(calls)
    ensures forall i, n :: 0 <= i < |calls| && n in spared ==> !Mentions(calls[i], n)
    ensures forall i, n :: 0 <= i < |calls| && calls[i].DeleteHosts? && n in calls[i].names ==> n in obsolete
    ensures r.Success? ==> (r.value.0 <==> r.value.1 != NOTHING_CHANGED)
  {
    var folders := ApplyFolders(conn.api, labelPath, partition, spared, obsolete);
    var steps;
    r, steps := ApplyHostSteps(conn, partition, spared, obsolete);
    AppendLog(folders, steps, spared, obsolete);
    Logged(conn, labelPath, partition, r, folders, steps);
    calls := folders + steps;
    GoodSafe(calls, spared, obsolete);
  }

  /**
   * The folder step of `_update_config`: when folders come from labels,
   * create the folders the new hosts need, then those the moved hosts need
   * that are still missing.
   */
  method ApplyFolders(api: Api, labelPath: bool, partition: Partition, ghost spared: set<string>, ghost obsolete: set<string>)
    returns (calls: seq<Call>)
    ensures Good(calls, 0, spared, obsolete)
    ensures forall i :: 0 <= i < |calls| ==> calls[i].AddFolder? || calls[i] == ActivateChanges
    ensures !labelPath ==> calls == []
    ensures labelPath ==> forall f :: AddFolder(f) in calls <==> f in NeededFolders(api, partition)
    ensures labelPath ==> FolderRequests(api, partition, calls)
    ensures labelPath ==> forall i, j :: 0 <= i < j < |calls| && calls[i].AddFolder? ==> calls[i] != calls[j]
  {
    calls := [];
    if labelPath {
      var created, folderCalls := ProcessFolders(FoldersFromNewHosts(api.flavour, partition.creates), api.folders);
      var createdForMoves, moveFolderCalls := ProcessFolders(FoldersFromMoves(api.flavour, partition.moves),
                                                             api.folders + set f | f in created);
      FolderCallsAdd(created, folderCalls);
      FolderCallsAdd(createdForMoves, moveFolderCalls);
      calls := folderCalls + moveFolderCalls;
      FolderLog(folderCalls, moveFolderCalls, spared, obsolete);
      assert forall f :: f in created || f in createdForMoves <==> f in NeededFolders(api, partition);
      assert FolderPlan(api, partition, created, createdForMoves);
      FolderRequestsOnce(api, partition, calls);
    }
  }

  /** Two folder steps make a log of folder requests and activations only. */
  lemma FolderLog(a: seq<Call>, b: seq<Call>, spared: set<string>, obsolete: set<string>)
    requires forall i :: 0 <= i < |a| ==> a[i].AddFolder? || a[i] == ActivateChanges
    requires forall i :: 0 <= i < |b| ==> b[i].AddFolder? || b[i] == ActivateChanges
    ensures Good(a + b, 0, spared, obsolete)
    ensures forall i :: 0 <= i < |a + b| ==> (a + b)[i].AddFolder? || (a + b)[i] == ActivateChanges
  {
    var t := a + b;
    assert forall i :: 0 <= i < |t| ==> t[i].AddFolder? || t[i] == ActivateChanges by {
      forall i | 0 <= i < |t| ensures t[i].AddFolder? || t[i] == ActivateChanges {
        if i >= |a| {
          assert t[i] == b[i - |a|];
        }
      }
    }
  }

  /** A good log is in order, spares the spared hosts and deletes only obsolete ones. */
  lemma GoodSafe(calls: seq<Call>, spared: set<string>, obsolete: set<string>)
    requires Good(calls, 4, spared, obsolete)
    ensures InOrder(calls)
    ensures forall i, n :: 0 <= i < |calls| && n in spared ==> !Mentions(calls[i], n)
    ensures forall i, n :: 0 <= i < |calls| && calls[i].DeleteHosts? && n in calls[i].names ==> n in obsolete
  {
    forall i, n | 0 <= i < |calls| && n in spared ensures !Mentions(calls[i], n) {
      assert SafeCall(calls[i], spared, obsolete);
    }
    forall i, n | 0 <= i < |calls| && calls[i].DeleteHosts? && n in calls[i].names ensures n in obsolete {
      assert SafeCall(calls[i], spared, obsolete);
    }
  }

  /**
   * The host steps of `_update_config`: create, edit, delete and move
   * hosts, stopping after a step that raises, and report what changed.
   */
  method ApplyHostSteps(conn: Connection, partition: Partition, ghost spared: set<string>, ghost obsolete: set<string>)
    returns (r: Result<(bool, string), Error>, steps: seq<Call>)
    requires PartitionSafe(partition, spared, obsolete)
    ensures var (c, cc) := Created(conn, partition.creates);
      var (m, mc) := Modified(conn, partition.modifications);
      steps == (if c.Failure? then cc else if m.Failure? then cc + mc
        else cc + mc + Deleted(conn, partition.deletes).1 + Moved(conn.api, partition.moves).1) &&
      (c.Failure? ==> r == Failure(c.error)) &&
      (c.Success? && m.Failure? ==> r == Failure(m.error)) &&
      (c.Success? && m.Success? ==>
        (r.Success? && r.value.1 == ChangeMessage(c.value, m.value, Deleted(conn, partition.deletes).0, Moved(conn.api, partition.moves).0)))
    ensures Good(steps, 4, spared, obsolete)
    ensures forall f :: AddFolder(f) !in steps
    ensures r.Success? ==> (r.value.0 <==> r.value.1 != NOTHING_CHANGED)
  {
    var createdR, createCalls := CreateNewHosts(conn, partition.creates);
    CreatedAllowed(conn, partition.creates, spared, obsolete);
    AppendStage([], createCalls, 1, 1, spared, obsolete);
    NoFolders(createCalls, 1, spared, obsolete);
    assert [] + createCalls == createCalls;
    steps := createCalls;
    if createdR.Failure? {
      return Failure(createdR.error), steps;
    }

    var modifiedR, modifyCalls := ModifyExistingHosts(conn, partition.modifications);
    ModifiedAllowed(conn, partition.modifications, spared, obsolete);
    AppendStage(steps, modifyCalls, 1, 2, spared, obsolete);
    NoFolders(modifyCalls, 2, spared, obsolete);
    steps := steps + modifyCalls;
    if modifiedR.Failure? {
      return Failure(modifiedR.error), steps;
    }

    var deleted, deleteCalls := DeleteObsoleteHosts(conn, partition.deletes);
    DeletedAllowed(conn, partition.deletes, spared, obsolete);
    AppendStage(steps, deleteCalls, 2, 3, spared, obsolete);
    NoFolders(deleteCalls, 3, spared, obsolete);
    steps := steps + deleteCalls;

    var moved, moveCalls := MoveHosts(conn.api, partition.moves);
    MovedAllowed(conn.api, partition.moves, spared, obsolete);
    AppendStage(steps, moveCalls, 3, 4, spared, obsolete);
    NoFolders(moveCalls, 4, spared, obsolete);
    steps := steps + moveCalls;

    var created, modified := createdR.value, modifiedR.value;
    NothingChanged(created, modified, deleted, moved);
    var changed := created != [] || modified != [] || deleted != [] || moved != [];
    r := Success((changed, ChangeMessage(created, modified, deleted, moved)));
  }

  /** Safe folder requests followed by safe host steps make a safe log in the fixed order. */
  lemma AppendLog(folders: seq<Call>, steps: seq<Call>, spared: set<string>, obsolete: set<string>)
    requires Good(folders, 0, spared, obsolete) && Good(steps, 4, spared, obsolete)
    ensures Good(folders + steps, 4, spared, obsolete)
  {
    var t := folders + steps;
    forall i | 0 <= i < |t| ensures (t[i] == ActivateChanges || Stage(t[i]) <= 4) && SafeCall(t[i], spared, obsolete) {
      if i >= |folders| {
        assert t[i] == steps[i - |folders|];
      }
    }
    forall i, j | 0 <= i < j < |t| && t[i] != ActivateChanges && t[j] != ActivateChanges
      ensures Stage(t[i]) <= Stage(t[j])
    {
      if i >= |folders| {
        assert t[i] == steps[i - |folders|] && t[j] == steps[j - |folders|];
      }
    }
  }

  /** The log is the folder requests followed by the host steps' requests. */
  lemma Logged(conn: Connection, labelPath: bool, partition: Partition, r: Result<(bool, string), Error>,
               folders: seq<Call>, steps: seq<Call>)
    requires forall i :: 0 <= i < |folders| ==> folders[i].AddFolder? || folders[i] == ActivateChanges
    requires !labelPath ==> folders == []
    requires labelPath ==> forall f :: AddFolder(f) in folders <==> f in NeededFolders(conn.api, partition)
    requires labelPath ==> FolderRequests(conn.api, partition, folders)
    requires forall f :: AddFolder(f) !in steps
    requires var (c, cc) := Created(conn, partition.creates);
      var (m, mc) := Modified(conn, partition.modifications);
      steps == (if c.Failure? then cc else if m.Failure? then cc + mc
        else cc + mc + Deleted(conn, partition.deletes).1 + Moved(conn.api, partition.moves).1) &&
      (c.Failure? ==> r == Failure(c.error)) &&
      (c.Success? && m.Failure? ==> r == Failure(m.error)) &&
      (c.Success? && m.Success? ==>
        (r.Success? && r.value.1 == ChangeMessage(c.value, m.value, Deleted(conn, partition.deletes).0, Moved(conn.api, partition.moves).0)))
    ensures Applies(conn, labelPath, partition, r, folders + steps)
  {
    var calls := folders + steps;
    assert calls[|calls| - |steps|..] == steps;
    assert calls[..|calls| - |steps|] == folders;
  }

  /** The requests of one folder step add exactly the folders it created. */
  lemma FolderCallsAdd(created: seq<string>, calls: seq<Call>)
    requires created == [] ==> calls == []
    requires created != [] ==> (|calls| == |created| + 1 && calls[|created|] == ActivateChanges &&
      forall i :: 0 <= i < |created| ==> calls[i] == AddFolder(created[i]))
    ensures forall f :: AddFolder(f) in calls <==> f in created
    ensures forall i :: 0 <= i < |calls| ==> calls[i].AddFolder? || calls[i] == ActivateChanges
  {
    forall f ensures AddFolder(f) in calls <==> f in created {
      if f in created {
        var i :| 0 <= i < |created| && created[i] == f;
        assert calls[i] == AddFolder(f);
      }
    }
  }

  /** The host steps add no folder. */
  lemma NoFolders(s: seq<Call>, k: nat, spared: set<string>, obsolete: set<string>)
    requires k > 0 && AllCalls(s, Allowed(k, spared, obsolete))
    ensures forall f :: AddFolder(f) !in s
  {
  }

  /** What the partition plans never names an unrelated host, and deletes only obsolete ones. */
  lemma PartitionSpares(cfg: Config, remote: map<string, RemoteHost>, records: seq<Record>, hostnameField: string,
                        catalogue: Option<Catalogue>, updateIps: bool, partition: Partition)
    requires var env := EnvOf(cfg, catalogue, hostnameField, updateIps, remote);
      Routed(env, records).Success? &&
      var p := Routed(env, records).value;
      partition.creates == p.creates && partition.moves == p.moves &&
      |partition.modifications| == |p.pending| &&
      (forall k :: 0 <= k < |p.pending| ==> partition.modifications[k].name == p.pending[k].0) &&
      forall n :: n in partition.deletes <==> n in OwnedAs(cfg, remote, Managed) && !Imported(hostnameField, records, n)
    ensures PartitionSafe(partition, OwnedAs(cfg, remote, Unrelated), Obsolete(cfg, remote, records, hostnameField))
  {
    var env := EnvOf(cfg, catalogue, hostnameField, updateIps, remote);
    RoutedEntriesFrame(env, records);
    OwnershipPartition(cfg, remote);
  }

  /**
   * Phase 2.4: after a run that changed hosts, the changes are activated,
   * unless a chunker already activated them after each request.
   */
  function FinalActivation(conn: Connection, changed: bool): (calls: seq<Call>)
    ensures calls == [ActivateChanges] <==> changed && RequiresActivation(Chunked(conn))
    ensures calls == [] <==> !changed || Chunked(conn)
  {
    if changed && RequiresActivation(Chunked(conn)) then [ActivateChanges] else []
  }
}
