/**
 * What the record loop of `_partition_hosts` guarantees, proved by
 * induction over the records, and the whole partitioning as one method.
 */
module Partitioning {
  import opened Wrappers
  import opened Errors
  import opened Text
  import opened PyDict
  import opened Records
  import opened Tags
  import opened Remote
  import opened Engine

  /** The ownership groups of an environment as the classification builds them. */
  predicate Classified(env: Env) {
    env.overtake == OwnedAs(env.cfg, env.remote, Overtaken) &&
    env.unrelated == OwnedAs(env.cfg, env.remote, Unrelated)
  }

  /** A record whose hostname field normalises to `name` and that passes the host filters. */
  predicate Routes(env: Env, rec: Record, name: string) {
    RecordName(env.hostnameField, rec) == Success(name) && HostMatchesFilters(env.cfg, name)
  }

  /** Some entry of `pending` names `name`. */
  predicate Pending(pending: seq<(string, seq<string>)>, name: string) {
    exists j :: 0 <= j < |pending| && pending[j].0 == name
  }

  // ---------------------------------------------------------------- one pass

  /** A pass changes at most the host its record names, keeps every folder, and plans a modification for a host it changes. */
  predicate HostsShape(p: Progress, q: Progress, name: string) {
    q.hosts.Keys == p.hosts.Keys &&
    (forall n :: n in p.hosts && n != name ==> q.hosts[n] == p.hosts[n]) &&
    (forall n :: n in p.hosts ==> q.hosts[n].folder == p.hosts[n].folder) &&
    (name in p.hosts && q.hosts[name] != p.hosts[name] ==> |q.pending| > |p.pending|)
  }

  /** A pass appends at most one creation, one modification and one move, each for the host its record names. */
  predicate Appends(env: Env, p: Progress, q: Progress, rec: Record, name: string) {
    Extends(p, q) &&
    |q.creates| <= |p.creates| + 1 && |q.pending| <= |p.pending| + 1 && |q.moves| <= |p.moves| + 1 &&
    (|q.creates| > |p.creates| ==> Routes(env, rec, name) && name !in env.remote && q.creates[|p.creates|].name == name) &&
    (|q.pending| > |p.pending| ==>
      Routes(env, rec, name) && name in env.remote && name !in env.unrelated && q.pending[|p.pending|].0 == name) &&
    (|q.moves| > |p.moves| ==>
      Routes(env, rec, name) && name in env.remote && name !in env.unrelated && q.moves[|p.moves|].0 == name)
  }

  /** The creation a pass appends is the record's creation tuple. */
  predicate CreatedBy(env: Env, p: Progress, q: Progress, rec: Record, name: string) {
    |q.creates| > |p.creates| ==> CreationTuple(env, rec, name) == Success(q.creates[|p.creates|])
  }

  /** The move a pass appends leads to the path the record's labels give, which differs from the host's folder. */
  predicate MovedBy(env: Env, p: Progress, q: Progress, rec: Record, name: string) {
    |q.moves| > |p.moves| ==>
      name in p.hosts && HostLabels(rec, env.hostnameField).Success? &&
      q.moves[|p.moves|].1 == FolderPathOf(env.cfg, HostLabels(rec, env.hostnameField).value) &&
      p.hosts[name].folder != "/" + q.moves[|p.moves|].1
  }

  lemma StepHostsShape(env: Env, p: Progress, rec: Record)
    requires p.hosts.Keys == env.remote.Keys && Step(env, p, rec).Success?
    ensures RecordName(env.hostnameField, rec).Success?
    ensures HostsShape(p, Step(env, p, rec).value, RecordName(env.hostnameField, rec).value)
  {
    StepCases(env, p, rec);
  }

  lemma StepAppends(env: Env, p: Progress, rec: Record)
    requires p.hosts.Keys == env.remote.Keys && Step(env, p, rec).Success?
    ensures RecordName(env.hostnameField, rec).Success?
    ensures Appends(env, p, Step(env, p, rec).value, rec, RecordName(env.hostnameField, rec).value)
  {
    StepCases(env, p, rec);
    var q := Step(env, p, rec).value;
    assert q.creates[..|p.creates|] == p.creates;
    assert q.pending[..|p.pending|] == p.pending;
    assert q.moves[..|p.moves|] == p.moves;
  }

  lemma StepCreatedBy(env: Env, p: Progress, rec: Record)
    requires p.hosts.Keys == env.remote.Keys && Step(env, p, rec).Success?
    ensures RecordName(env.hostnameField, rec).Success?
    ensures CreatedBy(env, p, Step(env, p, rec).value, rec, RecordName(env.hostnameField, rec).value)
  {
    StepCases(env, p, rec);
  }

  lemma StepMovedBy(env: Env, p: Progress, rec: Record)
    requires p.hosts.Keys == env.remote.Keys && Step(env, p, rec).Success?
    ensures RecordName(env.hostnameField, rec).Success?
    ensures MovedBy(env, p, Step(env, p, rec).value, rec, RecordName(env.hostnameField, rec).value)
  {
    StepCases(env, p, rec);
  }

  // ---------------------------------------------------------------- frames

  /**
   * The loop changes only the attributes of hosts it plans to modify: every
   * other host stays as the site reported it, and no host changes folder.
   */
  lemma {:induction false} RoutedHostsFrame(env: Env, records: seq<Record>)
    requires Routed(env, records).Success?
    ensures var p := Routed(env, records).value;
      (forall n :: n in env.remote && !Pending(p.pending, n) ==> p.hosts[n] == env.remote[n]) &&
      (forall n :: n in env.remote ==> p.hosts[n].folder == env.remote[n].folder)
    decreases |records|
  {
    if records != [] {
      var init := records[..|records| - 1];
      RoutedHostsFrame(env, init);
      var p := Routed(env, init).value;
      StepHostsShape(env, p, records[|records| - 1]);
      StepAppends(env, p, records[|records| - 1]);
      HostsFrameKept(p, Routed(env, records).value, RecordName(env.hostnameField, records[|records| - 1]).value);
    }
  }

  /** One pass changes at most the host it adds to `pending`. */
  lemma HostsFrameKept(p: Progress, q: Progress, name: string)
    requires HostsShape(p, q, name)
    requires |p.pending| <= |q.pending| <= |p.pending| + 1 && q.pending[..|p.pending|] == p.pending
    requires |q.pending| > |p.pending| ==> q.pending[|p.pending|].0 == name
    ensures forall n :: n in p.hosts && !Pending(q.pending, n) ==> !Pending(p.pending, n) && q.hosts[n] == p.hosts[n]
    ensures forall n :: n in p.hosts ==> q.hosts[n].folder == p.hosts[n].folder
  {
    forall n | n in p.hosts && !Pending(q.pending, n) ensures !Pending(p.pending, n) && q.hosts[n] == p.hosts[n] {
      forall j | 0 <= j < |p.pending| ensures p.pending[j].0 != n {
        assert q.pending[j] == p.pending[j];
      }
      if |q.pending| > |p.pending| {
        assert q.pending[|p.pending|].0 != n;
      }
    }
  }

  /** No entry names an unrelated host, moves name site hosts, and no creation names a host the site already has. */
  predicate EntriesFrame(env: Env, p: Progress) {
    (forall j :: 0 <= j < |p.pending| ==> p.pending[j].0 !in env.unrelated) &&
    (forall j :: 0 <= j < |p.moves| ==> p.moves[j].0 in env.remote && p.moves[j].0 !in env.unrelated) &&
    (forall j :: 0 <= j < |p.creates| ==> p.creates[j].name !in env.remote)
  }

  /** No entry names an unrelated host, and no creation names a host the site already has. */
  lemma {:induction false} RoutedEntriesFrame(env: Env, records: seq<Record>)
    requires Routed(env, records).Success?
    ensures var p := Routed(env, records).value;
      (forall j :: 0 <= j < |p.pending| ==> p.pending[j].0 !in env.unrelated) &&
      (forall j :: 0 <= j < |p.moves| ==> p.moves[j].0 in env.remote && p.moves[j].0 !in env.unrelated) &&
      (forall j :: 0 <= j < |p.creates| ==> p.creates[j].name !in env.remote)
    decreases |records|
  {
    if records != [] {
      var init := records[..|records| - 1];
      RoutedEntriesFrame(env, init);
      var p := Routed(env, init).value;
      var rec := records[|records| - 1];
      StepAppends(env, p, rec);
      EntriesFrameKept(env, p, Routed(env, records).value, rec, RecordName(env.hostnameField, rec).value);
    }
  }

  lemma EntriesFrameKept(env: Env, p: Progress, q: Progress, rec: Record, name: string)
    requires EntriesFrame(env, p) && Appends(env, p, q, rec, name)
    ensures EntriesFrame(env, q)
  {
    Grown(p.pending, q.pending, (e: (string, seq<string>)) => e.0 !in env.unrelated);
    Grown(p.moves, q.moves, (e: (string, string)) => e.0 in env.remote && e.0 !in env.unrelated);
    Grown(p.creates, q.creates, (c: Creation) => c.name !in env.remote);
  }

  /** A sequence that grows by at most one element keeps a property every element has. */
  lemma Grown<T>(s: seq<T>, t: seq<T>, ok: T -> bool)
    requires |s| <= |t| <= |s| + 1 && t[..|s|] == s
    requires forall j :: 0 <= j < |s| ==> ok(s[j])
    requires |t| > |s| ==> ok(t[|s|])
    ensures forall j :: 0 <= j < |t| ==> ok(t[j])
  {
    assert forall j :: 0 <= j < |s| ==> t[j] == s[j];
  }

  /** Unrelated hosts are never touched: no entry names them and their attributes stay as the site reported them. */
  lemma UnrelatedUntouched(env: Env, records: seq<Record>, n: string)
    requires Routed(env, records).Success?
    requires n in env.unrelated && n in env.remote
    ensures var p := Routed(env, records).value;
      p.hosts[n] == env.remote[n] &&
      (forall j :: 0 <= j < |p.creates| ==> p.creates[j].name != n) &&
      (forall j :: 0 <= j < |p.pending| ==> p.pending[j].0 != n) &&
      (forall j :: 0 <= j < |p.moves| ==> p.moves[j].0 != n)
  {
    RoutedHostsFrame(env, records);
    RoutedEntriesFrame(env, records);
  }

  /** The hosts locked by this connection and, among them, those with a planned modification. */
  predicate LocksHold(env: Env, p: Progress) {
    p.hosts.Keys == env.remote.Keys &&
    (forall n :: n in env.remote && n !in env.unrelated && n !in env.overtake ==>
      Get(p.hosts[n].attributes, "locked_by") == env.cfg.globalIdent) &&
    (forall n :: n in p.hosts && Pending(p.pending, n) ==>
      Get(p.hosts[n].attributes, "locked_by") == env.cfg.globalIdent && "hostname" !in p.hosts[n].attributes)
  }

  /** A pass that changes only the host `name`, and leaves it locked and without `hostname` when it changes or plans it. */
  lemma LocksStep(env: Env, p: Progress, q: Progress, name: string)
    requires LocksHold(env, p) && q.hosts.Keys == p.hosts.Keys
    requires q.pending == p.pending || (|q.pending| == |p.pending| + 1 && q.pending[..|p.pending|] == p.pending &&
      q.pending[|p.pending|].0 == name)
    requires forall n :: n in p.hosts && n != name ==> q.hosts[n] == p.hosts[n]
    requires name in p.hosts && (q.hosts[name] != p.hosts[name] || q.pending != p.pending) ==>
      Get(q.hosts[name].attributes, "locked_by") == env.cfg.globalIdent && "hostname" !in q.hosts[name].attributes
    ensures LocksHold(env, q)
  {
    forall n | n in q.hosts && Pending(q.pending, n)
      ensures Get(q.hosts[n].attributes, "locked_by") == env.cfg.globalIdent && "hostname" !in q.hosts[n].attributes
    {
      var j :| 0 <= j < |q.pending| && q.pending[j].0 == n;
      if j < |p.pending| {
        assert p.pending[j] == q.pending[j];
        assert Pending(p.pending, n);
      }
    }
  }

  /** One pass of the loop keeps the locks. */
  lemma StepLocks(env: Env, p: Progress, rec: Record)
    requires TagCatalogue(env.tags) && LocksHold(env, p) && Step(env, p, rec).Success?
    ensures LocksHold(env, Step(env, p, rec).value)
  {
    var q := Step(env, p, rec).value;
    StepCases(env, p, rec);
    var name := RecordName(env.hostnameField, rec).value;
    if HostMatchesFilters(env.cfg, name) && name in env.remote && name !in env.unrelated {
      var m := ModificationTuple(env, p.hosts[name].attributes, rec, name in env.overtake);
      if m.value.Some? {
        var a := m.value.value.attributes;
        assert Get(a, "locked_by") == env.cfg.globalIdent && "hostname" !in a;
        assert q.hosts[name].attributes == a;
      }
    }
    LocksStep(env, p, q, name);
  }

  /**
   * Every host with a planned modification ends up locked by this connection
   * and without a `hostname` attribute; a managed host keeps the lock.
   */
  lemma {:induction false} RoutedLocks(env: Env, records: seq<Record>)
    requires Classified(env) && TagCatalogue(env.tags)
    requires Routed(env, records).Success?
    ensures LocksHold(env, Routed(env, records).value)
    decreases |records|
  {
    if records == [] {
      forall n | n in env.remote && n !in env.unrelated && n !in env.overtake
        ensures Get(env.remote[n].attributes, "locked_by") == env.cfg.globalIdent
      {
        assert OwnershipOf(env.cfg, n, env.remote[n]) == Managed;
      }
    } else {
      var init := records[..|records| - 1];
      RoutedLocks(env, init);
      StepLocks(env, Routed(env, init).value, records[|records| - 1]);
    }
  }

  // ---------------------------------------------------------------- the loop only appends

  /** `q` continues `p`: its creations, planned modifications and moves start with those of `p`. */
  predicate Extends(p: Progress, q: Progress) {
    |p.creates| <= |q.creates| && q.creates[..|p.creates|] == p.creates &&
    |p.pending| <= |q.pending| && q.pending[..|p.pending|] == p.pending &&
    |p.moves| <= |q.moves| && q.moves[..|p.moves|] == p.moves
  }

  lemma ExtendsTransitive(p: Progress, q: Progress, r: Progress)
    requires Extends(p, q) && Extends(q, r)
    ensures Extends(p, r)
  {
    assert r.creates[..|p.creates|] == r.creates[..|q.creates|][..|p.creates|];
    assert r.pending[..|p.pending|] == r.pending[..|q.pending|][..|p.pending|];
    assert r.moves[..|p.moves|] == r.moves[..|q.moves|][..|p.moves|];
  }

  lemma StepExtends(env: Env, p: Progress, rec: Record)
    requires p.hosts.Keys == env.remote.Keys && Step(env, p, rec).Success?
    ensures Extends(p, Step(env, p, rec).value)
  {
    StepCases(env, p, rec);
  }

  /** Every prefix of a completed loop completed too, and the full loop continues it. */
  lemma {:induction false} RoutedPrefix(env: Env, records: seq<Record>, k: nat)
    requires k <= |records| && Routed(env, records).Success?
    ensures Routed(env, records[..k]).Success?
    ensures Extends(Routed(env, records[..k]).value, Routed(env, records).value)
    decreases |records|
  {
    if k == |records| {
      assert records[..k] == records;
    } else {
      var init := records[..|records| - 1];
      assert init[..k] == records[..k];
      RoutedPrefix(env, init, k);
      StepExtends(env, Routed(env, init).value, records[|records| - 1]);
      ExtendsTransitive(Routed(env, records[..k]).value, Routed(env, init).value, Routed(env, records).value);
    }
  }

  /** The pass over record `i`, seen from the completed loop. */
  lemma RoutedAt(env: Env, records: seq<Record>, i: nat)
    requires i < |records| && Routed(env, records).Success?
    ensures Routed(env, records[..i]).Success? && Step(env, Routed(env, records[..i]).value, records[i]).Success?
    ensures Extends(Step(env, Routed(env, records[..i]).value, records[i]).value, Routed(env, records).value)
  {
    RoutedPrefix(env, records, i);
    RoutedStep(env, records, i);
    RoutedPrefix(env, records, i + 1);
  }

  // ---------------------------------------------------------------- overtake

  /**
   * An overtaken host that an imported record names, past the host
   * filters, always gets a planned modification, and ends up locked by
   * this connection.
   */
  lemma OvertakenModified(env: Env, records: seq<Record>, i: nat, name: string)
    requires Classified(env) && TagCatalogue(env.tags)
    requires i < |records| && Routed(env, records).Success?
    requires Routes(env, records[i], name) && name in env.overtake
    ensures var p := Routed(env, records).value;
      Pending(p.pending, name) && Get(p.hosts[name].attributes, "locked_by") == env.cfg.globalIdent
  {
    OwnershipPartition(env.cfg, env.remote);
    RoutedAt(env, records, i);
    var p := Routed(env, records[..i]).value;
    StepCases(env, p, records[i]);
    var q := Step(env, p, records[i]).value;
    var r := Routed(env, records).value;
    assert q.pending[|p.pending|].0 == name;
    assert r.pending[|p.pending|] == q.pending[|p.pending|];
    RoutedLocks(env, records);
  }

  // ---------------------------------------------------------------- creations

  /**
   * Every creation comes from a record past the host filters whose name the
   * site does not have, and is that record's creation tuple: locked by this
   * connection and carrying its labels.
   */
  lemma CreatesSound(env: Env, records: seq<Record>)
    requires Routed(env, records).Success?
    ensures var p := Routed(env, records).value;
      forall j :: 0 <= j < |p.creates| ==> (p.creates[j].name !in env.remote &&
        exists i :: 0 <= i < |records| && Routes(env, records[i], p.creates[j].name) &&
          CreationTuple(env, records[i], p.creates[j].name) == Success(p.creates[j]))
  {
    var p := Routed(env, records).value;
    forall j | 0 <= j < |p.creates|
      ensures exists i :: 0 <= i < |records| && CreatedFrom(env, records[i], p.creates[j])
    {
      var i := CreationOrigin(env, records, j);
    }
  }

  /** `c` is the creation tuple of `rec`, a record past the host filters naming a host the site does not have. */
  predicate CreatedFrom(env: Env, rec: Record, c: Creation) {
    c.name !in env.remote && Routes(env, rec, c.name) && CreationTuple(env, rec, c.name) == Success(c)
  }

  /** The record creation `j` comes from. */
  lemma {:induction false} CreationOrigin(env: Env, records: seq<Record>, j: nat) returns (i: nat)
    requires Routed(env, records).Success? && j < |Routed(env, records).value.creates|
    ensures i < |records| && CreatedFrom(env, records[i], Routed(env, records).value.creates[j])
    decreases |records|
  {
    var init := records[..|records| - 1];
    var rec := records[|records| - 1];
    var p := Routed(env, init).value;
    StepAppends(env, p, rec);
    if j < |p.creates| {
      i := CreationOrigin(env, init, j);
      OriginKept(p.creates, Routed(env, records).value.creates, init, records, i, j);
      CreatedFromSame(env, init[i], records[i], p.creates[j], Routed(env, records).value.creates[j]);
    } else {
      StepCreatedBy(env, p, rec);
      NewCreation(env, p, Routed(env, records).value, rec, RecordName(env.hostnameField, rec).value);
      i := |init|;
    }
  }

  lemma CreatedFromSame(env: Env, rec: Record, rec': Record, c: Creation, c': Creation)
    requires rec == rec' && c == c' && CreatedFrom(env, rec, c)
    ensures CreatedFrom(env, rec', c')
  {
  }

  lemma NewCreation(env: Env, p: Progress, q: Progress, rec: Record, name: string)
    requires Appends(env, p, q, rec, name) && CreatedBy(env, p, q, rec, name) && |q.creates| > |p.creates|
    ensures CreatedFrom(env, rec, q.creates[|p.creates|])
  {
  }

  /** An element of a prefix and the record it comes from keep their places in the longer sequences. */
  lemma OriginKept<R, T>(s: seq<T>, t: seq<T>, init: seq<R>, records: seq<R>, i: nat, j: nat)
    requires |s| <= |t| && t[..|s|] == s && j < |s|
    requires |init| <= |records| && init == records[..|init|] && i < |init|
    ensures t[j] == s[j] && records[i] == init[i]
  {
    assert t[j] == t[..|s|][j];
  }

  /** A record past the host filters whose name the site does not have yields its creation tuple. */
  lemma CreatesComplete(env: Env, records: seq<Record>, i: nat, name: string)
    requires i < |records| && Routed(env, records).Success?
    requires Routes(env, records[i], name) && name !in env.remote
    ensures CreationTuple(env, records[i], name).Success?
    ensures exists j :: (0 <= j < |Routed(env, records).value.creates| &&
      Routed(env, records).value.creates[j] == CreationTuple(env, records[i], name).value)
  {
    RoutedAt(env, records, i);
    var p := Routed(env, records[..i]).value;
    StepCases(env, p, records[i]);
    var q := Step(env, p, records[i]).value;
    assert q.creates[|p.creates|] == CreationTuple(env, records[i], name).value;
    assert Routed(env, records).value.creates[|p.creates|] == q.creates[|p.creates|];
  }

  /** Every new host is locked by this connection and carries its prefixed labels. */
  lemma CreatesLocked(env: Env, records: seq<Record>, j: nat)
    requires TagCatalogue(env.tags) && Routed(env, records).Success?
    requires j < |Routed(env, records).value.creates|
    ensures var c := Routed(env, records).value.creates[j];
      Get(c.attributes, "locked_by") == env.cfg.globalIdent && Get(c.attributes, "labels").Obj?
  {
    CreatesSound(env, records);
  }

  // ---------------------------------------------------------------- moves

  /**
   * Every move names a managed or overtaken host named by a record past the
   * host filters, targets the path that record's labels give, and that path
   * differs from the host's folder.
   */
  lemma MovesSound(env: Env, records: seq<Record>)
    requires Routed(env, records).Success?
    ensures var p := Routed(env, records).value;
      forall j :: 0 <= j < |p.moves| ==> (
        var (name, path) := p.moves[j];
        name in env.remote && name !in env.unrelated && env.remote[name].folder != "/" + path &&
        exists i :: 0 <= i < |records| && Routes(env, records[i], name) &&
          HostLabels(records[i], env.hostnameField).Success? &&
          path == FolderPathOf(env.cfg, HostLabels(records[i], env.hostnameField).value))
  {
    var p := Routed(env, records).value;
    forall j | 0 <= j < |p.moves|
      ensures exists i :: 0 <= i < |records| && MovedFrom(env, records[i], p.moves[j])
    {
      var i := MoveOrigin(env, records, j);
    }
  }

  /**
   * `move` sends a managed or overtaken host named by `rec`, past the host
   * filters, to the path the labels of `rec` give, away from its folder.
   */
  predicate MovedFrom(env: Env, rec: Record, move: (string, string)) {
    var (name, path) := move;
    name in env.remote && name !in env.unrelated && env.remote[name].folder != "/" + path &&
    Routes(env, rec, name) && HostLabels(rec, env.hostnameField).Success? &&
    path == FolderPathOf(env.cfg, HostLabels(rec, env.hostnameField).value)
  }

  /** The record move `j` comes from. */
  lemma {:induction false} MoveOrigin(env: Env, records: seq<Record>, j: nat) returns (i: nat)
    requires Routed(env, records).Success? && j < |Routed(env, records).value.moves|
    ensures i < |records| && MovedFrom(env, records[i], Routed(env, records).value.moves[j])
    decreases |records|
  {
    var init := records[..|records| - 1];
    var rec := records[|records| - 1];
    var p := Routed(env, init).value;
    StepAppends(env, p, rec);
    if j < |p.moves| {
      i := MoveOrigin(env, init, j);
      OriginKept(p.moves, Routed(env, records).value.moves, init, records, i, j);
      MovedFromSame(env, init[i], records[i], p.moves[j], Routed(env, records).value.moves[j]);
    } else {
      StepMovedBy(env, p, rec);
      RoutedHostsFrame(env, init);
      NewMove(env, p, Routed(env, records).value, rec, RecordName(env.hostnameField, rec).value);
      i := |init|;
    }
  }

  lemma MovedFromSame(env: Env, rec: Record, rec': Record, move: (string, string), move': (string, string))
    requires rec == rec' && move == move' && MovedFrom(env, rec, move)
    ensures MovedFrom(env, rec', move')
  {
  }

  lemma NewMove(env: Env, p: Progress, q: Progress, rec: Record, name: string)
    requires Appends(env, p, q, rec, name) && MovedBy(env, p, q, rec, name) && |q.moves| > |p.moves|
    requires p.hosts.Keys == env.remote.Keys && forall n :: n in env.remote ==> p.hosts[n].folder == env.remote[n].folder
    ensures MovedFrom(env, rec, q.moves[|p.moves|])
  {
  }

  /**
   * A record past the host filters that names a managed or overtaken host
   * yields a move exactly when `/` plus the path its labels give differs
   * from the host's folder.
   */
  lemma MovesComplete(env: Env, records: seq<Record>, i: nat, name: string)
    requires i < |records| && Routed(env, records).Success?
    requires Routes(env, records[i], name) && name in env.remote && name !in env.unrelated
    ensures HostLabels(records[i], env.hostnameField).Success?
    ensures var path := FolderPathOf(env.cfg, HostLabels(records[i], env.hostnameField).value);
      env.remote[name].folder != "/" + path ==>
        exists j :: 0 <= j < |Routed(env, records).value.moves| && Routed(env, records).value.moves[j] == (name, path)
  {
    RoutedAt(env, records, i);
    var p := Routed(env, records[..i]).value;
    RoutedHostsFrame(env, records[..i]);
    StepCases(env, p, records[i]);
    var q := Step(env, p, records[i]).value;
    var path := FolderPathOf(env.cfg, HostLabels(records[i], env.hostnameField).value);
    if env.remote[name].folder != "/" + path {
      assert q.moves[|p.moves|] == (name, path);
      assert Routed(env, records).value.moves[|p.moves|] == q.moves[|p.moves|];
    }
  }

  // ---------------------------------------------------------------- convergence

  /** A host's attributes once the site has applied a modification: the new attributes without the unset ones. */
  function Applied(m: Modification): (a: Attributes)
    ensures forall k :: k in a <==> k in m.attributes && k !in m.unset
    ensures forall k :: k in a ==> a[k] == m.attributes[k]
  {
    map k | k in m.attributes && k !in m.unset :: m.attributes[k]
  }

  /**
   * A host that is not overtaken gets no modification exactly when its
   * attributes, its labels (only the prefixed ones when there is a prefix),
   * its tags (when there is a catalogue) and its IP address (when IP updates
   * are on) already hold every value the record asks for.
   */
  lemma ModificationNoneIff(env: Env, attributes: Attributes, rec: Record)
    requires HostLabels(rec, env.hostnameField).Success? && FutureTags(env.tags, rec).Success?
    ensures ModificationTuple(env, attributes, rec, false) == Success(None) <==>
      CleanCmkAttributes(attributes) + Lift(HostAttributes(rec)) == CleanCmkAttributes(attributes) &&
      (var prefixed := AddPrefixToLabels(HostLabels(rec, env.hostnameField).value, env.cfg.labelPrefix);
       var managed := ManagedLabels(LabelsOf(attributes), env.cfg.labelPrefix);
       managed + prefixed == managed) &&
      (env.tags.Some? ==> TagAttributes(attributes) + Lift(FutureTags(env.tags, rec).value) == TagAttributes(attributes)) &&
      (env.updateIps ==> !IpNeedsModification(Get(attributes, "ipaddress"), IpAddress(rec, env.cfg.ipOrder)))
  {
    NeedsModificationIffUpdateChanges(CleanCmkAttributes(attributes), Lift(HostAttributes(rec)));
    NeedsModificationIffUpdateChanges(ManagedLabels(LabelsOf(attributes), env.cfg.labelPrefix),
      AddPrefixToLabels(HostLabels(rec, env.hostnameField).value, env.cfg.labelPrefix));
    NeedsModificationIffUpdateChanges(TagAttributes(attributes), Lift(FutureTags(env.tags, rec).value));
  }

  /** With a label prefix, a modification keeps every remote label outside the prefix as it was. */
  lemma ForeignLabelsKept(env: Env, attributes: Attributes, rec: Record, overtake: bool)
    requires TagCatalogue(env.tags)
    requires ModificationTuple(env, attributes, rec, overtake).Success?
    requires ModificationTuple(env, attributes, rec, overtake).value.Some?
    ensures var after := ModificationTuple(env, attributes, rec, overtake).value.value.attributes;
      Get(after, "labels").Obj? &&
      forall k :: k in LabelsOf(attributes) && !StartsWith(k, env.cfg.labelPrefix) ==>
        k in Get(after, "labels").entries && Get(after, "labels").entries[k] == LabelsOf(attributes)[k]
  {
  }

  /**
   * Once a planned modification is applied, the same record asks for no
   * further one: the host's attributes, labels (the prefixed ones), tags and
   * IP address all match. This needs the catalogue to hold tag names only and
   * the record's `attr_` fields to name no tag, no `hostname` and, when IP
   * updates are on, no `ipaddress`: those are the attributes the connector
   * drops or overrides itself.
   */
  lemma ModificationConverges(env: Env, attributes: Attributes, rec: Record, overtake: bool)
    requires TagCatalogue(env.tags)
    requires PlainAttributes(env, rec)
    requires ModificationTuple(env, attributes, rec, overtake).Success?
    requires ModificationTuple(env, attributes, rec, overtake).value.Some?
    ensures ModificationTuple(env, Applied(ModificationTuple(env, attributes, rec, overtake).value.value), rec, false) == Success(None)
  {
    var labels := HostLabels(rec, env.hostnameField).value;
    var tags := FutureTags(env.tags, rec).value;
    var ip := IpAddress(rec, env.cfg.ipOrder);
    FutureTagsAreTags(env, rec);
    ModificationTupleOf(env, attributes, rec, overtake);
    var m := Modified(env, attributes, labels, tags, HostAttributes(rec), ip, overtake);
    ModifiedConverges(env, attributes, labels, tags, HostAttributes(rec), ip, overtake);
    ModificationTupleOf(env, Applied(m), rec, false);
  }

  /** `ModificationTuple` once the record's labels and tags are read. */
  lemma ModificationTupleOf(env: Env, attributes: Attributes, rec: Record, overtake: bool)
    requires HostLabels(rec, env.hostnameField).Success? && FutureTags(env.tags, rec).Success?
    ensures ModificationTuple(env, attributes, rec, overtake) == Success(ModificationOf(env, attributes,
      HostLabels(rec, env.hostnameField).value, FutureTags(env.tags, rec).value, HostAttributes(rec),
      IpAddress(rec, env.cfg.ipOrder), overtake))
  {
  }

  /** The record's `attr_` fields name no tag, no `hostname` and, with IP updates on, no `ipaddress`. */
  predicate PlainAttributes(env: Env, rec: Record) {
    forall k :: k in HostAttributes(rec) ==> k != "hostname" && !IsTag(k) && (env.updateIps ==> k != "ipaddress")
  }

  /** Attribute names a record may carry: none built in, and none the connector drops or overrides. */
  predicate Plain(env: Env, futureAttributes: map<string, string>) {
    forall k :: k in futureAttributes ==>
      k !in BUILTIN_ATTRIBUTES && k != "hostname" && !IsTag(k) && (env.updateIps ==> k != "ipaddress")
  }

  /** The attributes a modification leaves behind need no further update. */
  lemma ModifiedConverges(env: Env, attributes: Attributes, labels: map<string, string>, tags: map<string, string>,
                          futureAttributes: map<string, string>, ip: Option<string>, overtake: bool)
    requires Plain(env, futureAttributes) && forall k :: k in tags ==> IsTag(k)
    ensures !UpdateNeeded(env, Applied(Modified(env, attributes, labels, tags, futureAttributes, ip, overtake)),
      labels, tags, futureAttributes, ip, false)
  {
    var m := Modified(env, attributes, labels, tags, futureAttributes, ip, overtake);
    AppliedAttributes(m, futureAttributes, env.updateIps);
    AppliedLabels(m, LabelsOf(attributes), labels, env.cfg.labelPrefix);
    forall k | k in tags ensures k in m.attributes && m.attributes[k] == Str(tags[k]) {
      TagNameIsNotReserved(k);
      ModifiedTag(env, attributes, labels, tags, futureAttributes, ip, overtake, k);
    }
    AppliedTags(m, tags);
    AppliedIp(env, attributes, labels, tags, futureAttributes, ip, overtake);
  }

  /** A modification sets every record attribute, and unsets at most `ipaddress`, and that only with IP updates on. */
  lemma AppliedAttributes(m: Modification, futureAttributes: map<string, string>, updateIps: bool)
    requires forall k :: k in futureAttributes ==>
      k !in BUILTIN_ATTRIBUTES && !IsTag(k) && (updateIps ==> k != "ipaddress") &&
      k in m.attributes && m.attributes[k] == Str(futureAttributes[k])
    requires m.unset == [] || (m.unset == ["ipaddress"] && updateIps)
    ensures !NeedsModification(CleanCmkAttributes(Applied(m)), Lift(futureAttributes))
  {
    var a := Applied(m);
    forall k | k in futureAttributes ensures k in a && a[k] == Str(futureAttributes[k]) {
      assert k !in m.unset;
    }
  }

  /** A modification sets every tag, and unsets no tag. */
  lemma AppliedTags(m: Modification, tags: map<string, string>)
    requires forall k :: k in tags ==> IsTag(k) && k in m.attributes && m.attributes[k] == Str(tags[k])
    requires m.unset == [] || m.unset == ["ipaddress"]
    ensures !NeedsModification(TagAttributes(Applied(m)), Lift(tags))
  {
    var a := Applied(m);
    forall k | k in tags ensures k in a && a[k] == Str(tags[k]) {
      TagNameIsNotReserved(k);
      assert k !in m.unset;
    }
  }

  /** A modification sets the merged labels and does not unset them, so the prefixed labels are all in place. */
  lemma AppliedLabels(m: Modification, current: map<string, string>, labels: map<string, string>, prefix: string)
    requires Get(m.attributes, "labels") == Obj(current + AddPrefixToLabels(labels, prefix))
    requires m.unset == [] || m.unset == ["ipaddress"]
    ensures !NeedsModification(ManagedLabels(LabelsOf(Applied(m)), prefix), AddPrefixToLabels(labels, prefix))
  {
    NamesDistinct();
    assert "labels" !in m.unset;
    assert LabelsOf(Applied(m)) == current + AddPrefixToLabels(labels, prefix);
    PrefixedLabelsManaged(current, labels, prefix);
    NeedsModificationIffUpdateChanges(ManagedLabels(LabelsOf(Applied(m)), prefix), AddPrefixToLabels(labels, prefix));
  }

  /** Labels merged in under the prefix are among the labels the connection manages. */
  lemma PrefixedLabelsManaged(current: map<string, string>, labels: map<string, string>, prefix: string)
    ensures var prefixed := AddPrefixToLabels(labels, prefix);
      var managed := ManagedLabels(current + prefixed, prefix);
      managed + prefixed == managed
  {
    var prefixed := AddPrefixToLabels(labels, prefix);
    var managed := ManagedLabels(current + prefixed, prefix);
    forall k | k in prefixed ensures k in managed && managed[k] == prefixed[k] {
      assert StartsWith(k, prefix);
    }
    NeedsModificationIffUpdateChanges(managed, prefixed);
  }

  /** A tag the record does not override as an attribute is set to its value. */
  lemma ModifiedTag(env: Env, attributes: Attributes, labels: map<string, string>, tags: map<string, string>,
                    futureAttributes: map<string, string>, ip: Option<string>, overtake: bool, k: string)
    requires Plain(env, futureAttributes)
    requires k in tags && k !in futureAttributes && k != "hostname" && k != "locked_by"
    ensures var m := Modified(env, attributes, labels, tags, futureAttributes, ip, overtake);
      k in m.attributes && m.attributes[k] == Str(tags[k])
  {
  }

  lemma AppliedIp(env: Env, attributes: Attributes, labels: map<string, string>, tags: map<string, string>,
                  futureAttributes: map<string, string>, ip: Option<string>, overtake: bool)
    requires Plain(env, futureAttributes) && forall k :: k in tags ==> IsTag(k)
    ensures var m := Modified(env, attributes, labels, tags, futureAttributes, ip, overtake);
      env.updateIps ==> !IpNeedsModification(Get(Applied(m), "ipaddress"), ip)
  {
    var apiLabel := LabelsOf(attributes) + AddPrefixToLabels(labels, env.cfg.labelPrefix);
    ModifiedAttributesReserved(env.cfg.globalIdent, attributes, apiLabel, if env.updateIps then ip else None,
      tags, futureAttributes, overtake);
  }

  // ---------------------------------------------------------------- the whole partitioning

  /**
   * The body of the record loop of `_partition_hosts` for one record: a
   * record without the hostname field raises; a name the host filters
   * reject or an unrelated host is skipped; an unknown name is created; a
   * managed or overtaken host gets its modification, applied to the host
   * in place, and its move.
   */
  method PartitionRecord(env: Env, p: Progress, rec: Record) returns (r: Result<Progress, Error>)
    requires p.hosts.Keys == env.remote.Keys
    ensures r == Step(env, p, rec)
  {
    if env.hostnameField !in ToMap(rec) {
      StepMissing(env, p, rec);
      return Failure(KeyMissing(env.hostnameField));
    }
    var name := NormalizeHostname(ToMap(rec)[env.hostnameField]);
    var Progress(hosts, creates, pending, moves) := p;
    if !HostMatchesFilters(env.cfg, name) {
      StepSkipped(env, p, rec, name);
    } else if name !in env.remote {
      StepCreated(env, p, rec, name);
      var c := CreationTuple(env, rec, name);
      if c.Failure? {
        return Failure(c.error);
      }
      creates := creates + [c.value];
    } else if name !in env.unrelated {
      StepModified(env, p, rec, name);
      var existing := hosts[name];
      var m := ModificationTuple(env, existing.attributes, rec, name in env.overtake);
      if m.Failure? {
        return Failure(m.error);
      }
      if m.value.Some? {
        hosts := hosts[name := existing.(attributes := m.value.value.attributes)];
        pending := pending + [(name, m.value.value.unset)];
      }
      var mv := MoveTuple(env, existing, HostLabels(rec, env.hostnameField).value, name);
      if mv.Some? {
        moves := moves + [mv.value];
      }
    } else {
      StepSkipped(env, p, rec, name);
    }
    r := Success(Progress(hosts, creates, pending, moves));
  }

  /** The managed hosts no record names, each listed once. */
  method HostsToDelete(managed: set<string>, imported: set<string>) returns (deletes: seq<string>)
    ensures forall n :: n in deletes <==> n in managed && n !in imported
    ensures forall j, k :: 0 <= j < k < |deletes| ==> deletes[j] != deletes[k]
  {
    var remaining := managed - imported;
    deletes := [];
    while remaining != {}
      invariant remaining <= managed - imported
      invariant forall n :: n in deletes <==> n in managed && n !in imported && n !in remaining
      invariant forall j, k :: 0 <= j < k < |deletes| ==> deletes[j] != deletes[k]
      decreases |remaining|
    {
      var n :| n in remaining;
      deletes := deletes + [n];
      remaining := remaining - {n};
    }
  }

  // ---------------------------------------------------------------- one pass, case by case

  lemma StepMissing(env: Env, p: Progress, rec: Record)
    requires p.hosts.Keys == env.remote.Keys && env.hostnameField !in ToMap(rec)
    ensures Step(env, p, rec) == Failure(KeyMissing(env.hostnameField))
  {
  }

  lemma StepSkipped(env: Env, p: Progress, rec: Record, name: string)
    requires p.hosts.Keys == env.remote.Keys && env.hostnameField in ToMap(rec)
    requires name == NormalizeHostname(ToMap(rec)[env.hostnameField])
    requires !HostMatchesFilters(env.cfg, name) || (name in env.remote && name in env.unrelated)
    ensures Step(env, p, rec) == Success(p)
  {
  }

  lemma StepCreated(env: Env, p: Progress, rec: Record, name: string)
    requires p.hosts.Keys == env.remote.Keys && env.hostnameField in ToMap(rec)
    requires name == NormalizeHostname(ToMap(rec)[env.hostnameField])
    requires HostMatchesFilters(env.cfg, name) && name !in env.remote
    ensures var c := CreationTuple(env, rec, name);
      Step(env, p, rec) == if c.Failure? then Failure(c.error) else Success(p.(creates := p.creates + [c.value]))
  {
  }

  lemma StepModified(env: Env, p: Progress, rec: Record, name: string)
    requires p.hosts.Keys == env.remote.Keys && env.hostnameField in ToMap(rec)
    requires name == NormalizeHostname(ToMap(rec)[env.hostnameField])
    requires HostMatchesFilters(env.cfg, name) && name in env.remote && name !in env.unrelated
    ensures var m := ModificationTuple(env, p.hosts[name].attributes, rec, name in env.overtake);
      (m.Failure? ==> Step(env, p, rec) == Failure(m.error)) &&
      (m.Success? ==> (HostLabels(rec, env.hostnameField).Success? &&
        var p1 := if m.value.Some? then
          p.(hosts := p.hosts[name := p.hosts[name].(attributes := m.value.value.attributes)],
             pending := p.pending + [(name, m.value.value.unset)])
        else p;
        var mv := MoveTuple(env, p.hosts[name], HostLabels(rec, env.hostnameField).value, name);
        Step(env, p, rec) == Success(if mv.Some? then p1.(moves := p1.moves + [mv.value]) else p1)))
  {
  }

  /**
   * `_partition_hosts`: classifies the site's hosts, runs the record loop and
   * plans the deletion of every managed host that no record names (records
   * the host filters skip included). The deletions are listed in no
   * particular order, as Python lists a set.
   */
  method PartitionHosts(cfg: Config, remote: map<string, RemoteHost>, records: seq<Record>, hostnameField: string,
                        catalogue: Option<Catalogue>, updateIps: bool) returns (r: Result<Partition, Error>)
    ensures var env := EnvOf(cfg, catalogue, hostnameField, updateIps, remote);
      r.Failure? <==> Routed(env, records).Failure?
    ensures var env := EnvOf(cfg, catalogue, hostnameField, updateIps, remote);
      r.Failure? ==> r.error == Routed(env, records).error
    ensures var env := EnvOf(cfg, catalogue, hostnameField, updateIps, remote);
      r.Success? ==> (
        var p := Routed(env, records).value;
        r.value.creates == p.creates && r.value.moves == p.moves &&
        |r.value.modifications| == |p.pending| &&
        forall k :: 0 <= k < |p.pending| ==> (p.pending[k].0 in p.hosts &&
          r.value.modifications[k] == ModifyEntry(p.pending[k].0, p.hosts[p.pending[k].0].attributes, p.pending[k].1)))
    ensures r.Success? ==> forall n :: n in r.value.deletes <==>
      n in OwnedAs(cfg, remote, Managed) && !Imported(hostnameField, records, n)
    ensures r.Success? ==> forall j, k :: 0 <= j < k < |r.value.deletes| ==> r.value.deletes[j] != r.value.deletes[k]
  {
    var managed, overtake, unrelated := ClassifyHosts(cfg, remote);
    var tagMatcher := if catalogue.Some? then Some(TagMatcher(catalogue.value)) else None;
    var env := Env(cfg, tagMatcher, hostnameField, updateIps, remote, overtake, unrelated);
    assert env == EnvOf(cfg, catalogue, hostnameField, updateIps, remote);
    var hosts, creates, pending, moves := remote, [], [], [];
    var i := 0;
    while i < |records|
      invariant 0 <= i <= |records|
      invariant Routed(env, records[..i]) == Success(Progress(hosts, creates, pending, moves))
    {
      var next := PartitionRecord(env, Progress(hosts, creates, pending, moves), records[i]);
      RoutedStep(env, records, i);
      if next.Failure? {
        RoutedPrefixFailure(env, records, i + 1);
        return Failure(next.error);
      }
      hosts, creates, pending, moves := next.value.hosts, next.value.creates, next.value.pending, next.value.moves;
      i := i + 1;
    }
    assert records[..i] == records;
    RoutedWellFormed(env, records);
    var imported := set j | 0 <= j < |records| :: NormalizeHostname(ToMap(records[j])[hostnameField]);
    assert forall n :: n in imported <==> Imported(hostnameField, records, n);
    var deletes := HostsToDelete(managed, imported);
    r := Success(Partition(creates, ModifyEntries(hosts, pending), deletes, moves));
  }
}
