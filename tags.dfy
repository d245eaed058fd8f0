/**
 * Host tags: the catalogue of tag groups the site offers, and the
 * case-tolerant matching of imported `tag_` fields against it.
 */
module Tags {
  import opened Wrappers
  import opened Errors
  import opened Text
  import opened PyDict
  import opened Records

  /** One tag group as the site reports it: its id and the ids of its choices. */
  datatype TagGroup = TagGroup(id: string, choices: seq<string>)

  /** Host-like tag name (`tag_<group id>`) to the group's choices, in site order. */
  type Catalogue = Dict<seq<string>>

  function HostlikeItems(groups: seq<TagGroup>): (items: seq<(string, seq<string>)>)
    ensures |items| == |groups|
    ensures forall i :: 0 <= i < |groups| ==> items[i] == ("tag_" + groups[i].id, groups[i].choices)
  {
    seq(|groups|, i requires 0 <= i < |groups| => ("tag_" + groups[i].id, groups[i].choices))
  }

  /** `create_hostlike_tags`: a dict comprehension over the groups; a repeated id keeps the last group. */
  function CreateHostlikeTags(groups: seq<TagGroup>): (r: Catalogue)
    ensures DistinctKeys(r)
  {
    FromItems(HostlikeItems(groups))
  }

  /**
   * The catalogue names exactly the groups, each as `tag_<id>` (so each is a
   * tag name), with the choices of the last group of that id.
   */
  lemma HostlikeTagsSpec(groups: seq<TagGroup>, name: string, i: nat)
    ensures name in ToMap(CreateHostlikeTags(groups)) <==> exists j :: 0 <= j < |groups| && name == "tag_" + groups[j].id
    ensures name in ToMap(CreateHostlikeTags(groups)) ==> IsTag(name)
    ensures i < |groups| && (forall j :: i < j < |groups| ==> groups[j].id != groups[i].id) ==>
      ToMap(CreateHostlikeTags(groups))["tag_" + groups[i].id] == groups[i].choices
  {
    var items := HostlikeItems(groups);
    if name in ToMap(items) {
      ToMapFrom(items, name);
      var j :| 0 <= j < |items| && items[j] == (name, ToMap(items)[name]);
      assert Lower(name)[..4] == Lower("tag_")[..4] == "tag_" by {
        LowerAppend("tag_", groups[j].id);
      }
    }
    if exists j :: 0 <= j < |groups| && name == "tag_" + groups[j].id {
      var j :| 0 <= j < |groups| && name == "tag_" + groups[j].id;
      assert Keys(items)[j] == name;
    }
    if i < |groups| && (forall j :: i < j < |groups| ==> groups[j].id != groups[i].id) {
      forall j | i < j < |items| ensures items[j].0 != items[i].0 {
        assert items[j].0[4..] == groups[j].id;
        assert items[i].0[4..] == groups[i].id;
      }
      ToMapLastWins(items, i);
    }
  }

  /** `TagMatcher`: finds a catalogue entry for a tag name, exactly or ignoring case. */
  datatype TagMatcher = TagMatcher(original: Catalogue) {

    function NormalizedItems(): (items: seq<(string, string)>)
      ensures |items| == |original|
      ensures forall i :: 0 <= i < |original| ==> items[i] == (Lower(original[i].0), original[i].0)
    {
      seq(|original|, i requires 0 <= i < |original| => (Lower(original[i].0), original[i].0))
    }

    /** `_normalized_names`: lower-cased name to catalogue name; of names equal up to case the last wins. */
    function NormalizedNames(): map<string, string> {
      ToMap(NormalizedItems())
    }

    /**
     * `get_tag`: an exact catalogue name is returned as it is; otherwise the
     * last catalogue name equal to `name` up to case; otherwise ValueError.
     */
    function GetTag(name: string): (r: Result<string, Error>)
      ensures name in ToMap(original) ==> r == Success(name)
      ensures r.Success? ==> r.value in ToMap(original) && Lower(r.value) == Lower(name)
      ensures r.Success? && name !in ToMap(original) ==> exists j :: (0 <= j < |original| &&
        original[j].0 == r.value && forall i :: j < i < |original| ==> Lower(original[i].0) != Lower(name))
      ensures r.Failure? <==> forall i :: 0 <= i < |original| ==> Lower(original[i].0) != Lower(name)
      ensures r.Failure? ==> r.error == NoMatchingTag(name)
    {
      if name in ToMap(original) then
        var i :| 0 <= i < |original| && Keys(original)[i] == name;
        assert Lower(original[i].0) == Lower(name);
        Success(name)
      else if Lower(name) in NormalizedNames() then
        var items := NormalizedItems();
        ToMapFrom(items, Lower(name));
        var j0 :| 0 <= j0 < |items| && items[j0] == (Lower(name), NormalizedNames()[Lower(name)]);
        var j := LastMatch(Lower(name), j0);
        ToMapLastWins(items, j);
        assert Keys(original)[j] == original[j].0;
        Success(NormalizedNames()[Lower(name)])
      else
        assert forall i :: 0 <= i < |original| ==> Lower(original[i].0) != Lower(name) by {
          forall i | 0 <= i < |original| ensures Lower(original[i].0) != Lower(name) {
            assert Keys(NormalizedItems())[i] == Lower(original[i].0);
          }
        }
        Failure(NoMatchingTag(name))
    }

    /** The last catalogue position at or after `j` whose name is `low` up to case. */
    function LastMatch(low: string, j: nat): (k: nat)
      requires j < |original| && Lower(original[j].0) == low
      ensures j <= k < |original| && Lower(original[k].0) == low
      ensures forall i :: k < i < |original| ==> Lower(original[i].0) != low
      decreases |original| - j
    {
      if exists i :: j < i < |original| && Lower(original[i].0) == low then
        var i :| j < i < |original| && Lower(original[i].0) == low;
        LastMatch(low, i)
      else j
    }

    /**
     * `is_possible_value`: whether `value` is a choice of the tag `tag`
     * resolves to. An unknown tag raises; a value that is no choice raises
     * only when `raiseError` is set.
     */
    function IsPossibleValue(tag: string, value: string, raiseError: bool): (r: Result<bool, Error>)
      ensures r.Success? ==> GetTag(tag).Success? && (r.value <==> value in ToMap(original)[GetTag(tag).value])
      ensures r.Failure? <==> GetTag(tag).Failure? || (raiseError && value !in ToMap(original)[GetTag(tag).value])
      ensures r.Success? && raiseError ==> r.value
    {
      var resolved :- GetTag(tag);
      var found := value in ToMap(original)[resolved];
      if raiseError && !found then Failure(NotAPossibleChoice(resolved, value)) else Success(found)
    }
  }

  /** Two names equal up to case resolve alike, unless one of them is itself a catalogue name. */
  lemma GetTagIgnoresCase(m: TagMatcher, a: string, b: string)
    requires Lower(a) == Lower(b) && a !in ToMap(m.original) && b !in ToMap(m.original)
    ensures m.GetTag(a).Success? <==> m.GetTag(b).Success?
    ensures m.GetTag(a).Success? ==> m.GetTag(a).value == m.GetTag(b).value
  {
  }

  /**
   * `create_host_tags`: the record's `tag_` fields keyed by the catalogue
   * name each resolves to; of two fields resolving alike the later wins. An
   * unresolvable field name raises. The choice check that follows only logs.
   */
  function CreateHostTags(m: TagMatcher, hostTags: Record): (r: Result<map<string, string>, Error>)
    ensures r.Success? <==> forall i :: 0 <= i < |hostTags| ==> Resolvable(m, hostTags[i].0)
    decreases |hostTags|
  {
    if hostTags == [] then Success(map[])
    else
      var init := hostTags[..|hostTags| - 1];
      var (key, value) := hostTags[|hostTags| - 1];
      assert forall i :: 0 <= i < |init| ==> init[i] == hostTags[i];
      var rest :- CreateHostTags(m, init);
      assert Resolvable(m, key) <==> m.GetTag(key).Success?;
      var t :- m.GetTag(key);
      Success(rest[t := value])
  }

  /**
   * Every tag `create_host_tags` yields is a catalogue name, and its value is
   * that of a field resolving to it.
   */
  lemma {:induction false} CreateHostTagsFrom(m: TagMatcher, hostTags: Record)
    requires CreateHostTags(m, hostTags).Success?
    ensures forall t :: t in CreateHostTags(m, hostTags).value ==> t in ToMap(m.original)
    ensures forall t :: t in CreateHostTags(m, hostTags).value ==> FromField(m, hostTags, t, CreateHostTags(m, hostTags).value[t])
    decreases |hostTags|
  {
    if hostTags != [] {
      var init := hostTags[..|hostTags| - 1];
      var (key, value) := hostTags[|hostTags| - 1];
      CreateHostTagsFrom(m, init);
      var rest := CreateHostTags(m, init).value;
      var t := m.GetTag(key).value;
      var r := CreateHostTags(m, hostTags).value;
      assert r == rest[t := value];
      forall u | u in r ensures u in ToMap(m.original) && FromField(m, hostTags, u, r[u]) {
        if u != t {
          var i :| 0 <= i < |init| && m.GetTag(init[i].0) == Success(u) && rest[u] == init[i].1;
          assert hostTags[i] == init[i];
        } else {
          assert m.GetTag(hostTags[|hostTags| - 1].0) == Success(u);
        }
      }
    }
  }

  /**
   * Every field yields the tag it resolves to, and a field that no later
   * field resolving alike overrides gives that tag its value.
   */
  lemma {:induction false} CreateHostTagsComplete(m: TagMatcher, hostTags: Record, j: nat)
    requires CreateHostTags(m, hostTags).Success? && j < |hostTags|
    ensures m.GetTag(hostTags[j].0).Success? && m.GetTag(hostTags[j].0).value in CreateHostTags(m, hostTags).value
    ensures (forall i :: j < i < |hostTags| ==> m.GetTag(hostTags[i].0) != m.GetTag(hostTags[j].0)) ==>
      CreateHostTags(m, hostTags).value[m.GetTag(hostTags[j].0).value] == hostTags[j].1
    decreases |hostTags|
  {
    var init := hostTags[..|hostTags| - 1];
    assert Resolvable(m, hostTags[j].0);
    if j < |init| {
      assert init[j] == hostTags[j];
      CreateHostTagsComplete(m, init, j);
      if forall i :: j < i < |hostTags| ==> m.GetTag(hostTags[i].0) != m.GetTag(hostTags[j].0) {
        forall i | j < i < |init| ensures m.GetTag(init[i].0) != m.GetTag(init[j].0) {
          assert init[i] == hostTags[i];
        }
      }
    }
  }

  /** `get_tag` finds a catalogue name for `name`. */
  predicate Resolvable(m: TagMatcher, name: string) {
    m.GetTag(name).Success?
  }

  /** Some field of `hostTags` resolves to tag `t` and has value `v`. */
  predicate FromField(m: TagMatcher, hostTags: Record, t: string, v: string) {
    exists i :: 0 <= i < |hostTags| && m.GetTag(hostTags[i].0) == Success(t) && v == hostTags[i].1
  }
}
