/**
 * The record helpers: how one imported host (a dict of field name to text)
 * is split into labels, attributes, tags and an IP address, and the value
 * transforms the importers apply before that.
 */
module Records {
  import opened Wrappers
  import opened Errors
  import opened Text
  import opened PyDict

  /** Attributes the connector sets itself and never takes from a record. */
  const BUILTIN_ATTRIBUTES: set<string> := {"locked_by", "labels", "meta_data"}
  /** Fields that carry a host's IP address. */
  const IP_ATTRIBUTES: set<string> := {"ipv4", "ip", "ipaddress"}
  /** The characters `sanitise_str` replaces: a-, o-, u-umlaut in both cases, parentheses, comma. */
  const REPLACABLE_CHARS: string := "\U{E4}\U{F6}\U{FC}\U{C4}\U{D6}\U{DC}(),"
  const REPLACEMENT_CHAR: char := '_'

  /** One imported host, its fields in file order. */
  type Record = Dict<string>

  /**
   * Python iterates the set IP_ATTRIBUTES in an order the language leaves
   * open; the model takes that order as a parameter.
   */
  type IpFieldOrder = o: seq<string> | |o| == 3 && multiset(o) == multiset{"ipv4", "ip", "ipaddress"}
    witness ["ipv4", "ip", "ipaddress"]

  // ---------------------------------------------------------------- names

  /** `normalize_hostname`: lower case, blanks become underscores. */
  function NormalizeHostname(hostname: string): (r: string)
    ensures |r| == |hostname|
    ensures forall i :: 0 <= i < |hostname| ==>
      r[i] == (if LowerChar(hostname[i]) == ' ' then '_' else LowerChar(hostname[i]))
    ensures ' ' !in r
  {
    ReplaceChar(Lower(hostname), ' ', '_')
  }

  /** Normalising twice changes nothing: a normalised name is its own normal form. */
  lemma NormalizeHostnameIdempotent(hostname: string)
    ensures NormalizeHostname(NormalizeHostname(hostname)) == NormalizeHostname(hostname)
  {
    var n := NormalizeHostname(hostname);
    var l := Lower(hostname);
    forall i | 0 <= i < |n| ensures NormalizeHostname(n)[i] == n[i] {
      assert LowerChar(l[i]) == l[i];
      assert LowerChar('_') == '_';
    }
  }

  /** `is_tag`: the field name starts with `tag_`, ignoring case. */
  predicate IsTag(name: string) {
    StartsWith(Lower(name), "tag_")
  }

  /** `is_attribute`: the field name starts with `attr_`, ignoring case. */
  predicate IsAttribute(name: string) {
    StartsWith(Lower(name), "attr_")
  }

  /** No field is both a tag and an attribute. */
  lemma TagAndAttributeExclusive(name: string)
    ensures !(IsTag(name) && IsAttribute(name))
  {
    assert IsTag(name) ==> Lower(name)[3] == "tag_"[3];
    assert IsAttribute(name) ==> Lower(name)[3] == "attr_"[3];
  }

  // ---------------------------------------------------------------- values

  function SanitiseChar(c: char): char {
    if c in REPLACABLE_CHARS then REPLACEMENT_CHAR else c
  }

  /** What `sanitise_str` computes, character by character. */
  function Sanitised(value: string): (r: string)
    ensures |r| == |value|
  {
    seq(|value|, i requires 0 <= i < |value| => SanitiseChar(value[i]))
  }

  /** `sanitise_str`: one `str.replace` per replaceable character. */
  method SanitiseStr(value: string) returns (r: string)
    ensures r == Sanitised(value)
  {
    r := value;
    for k := 0 to |REPLACABLE_CHARS|
      invariant |r| == |value|
      invariant forall i :: 0 <= i < |value| ==>
        r[i] == (if value[i] in REPLACABLE_CHARS[..k] then REPLACEMENT_CHAR else value[i])
    {
      r := ReplaceChar(r, REPLACABLE_CHARS[k], REPLACEMENT_CHAR);
    }
    assert REPLACABLE_CHARS[..|REPLACABLE_CHARS|] == REPLACABLE_CHARS;
  }

  /** A sanitised value holds no replaceable character, and sanitising again changes nothing. */
  lemma SanitisedClean(value: string)
    ensures forall i :: 0 <= i < |Sanitised(value)| ==> Sanitised(value)[i] !in REPLACABLE_CHARS
    ensures Sanitised(Sanitised(value)) == Sanitised(value)
    ensures forall i :: 0 <= i < |value| && value[i] !in REPLACABLE_CHARS ==> Sanitised(value)[i] == value[i]
  {
  }

  /**
   * `LowercaseImporter` on one record: a dict comprehension over the fields
   * with keys and values lower-cased, so two names equal up to case
   * collapse into one, the later field winning.
   */
  function LowercaseRecord(host: Record): (r: Record)
    ensures DistinctKeys(r)
  {
    FromItems(seq(|host|, i requires 0 <= i < |host| => (Lower(host[i].0), Lower(host[i].1))))
  }

  /** `SanitisingImporter` on one record: every value sanitised, keys and order kept. */
  function SanitiseRecord(host: Record): (r: Record)
    ensures Keys(r) == Keys(host)
    ensures forall i :: 0 <= i < |r| ==> r[i].1 == Sanitised(host[i].1)
  {
    seq(|host|, i requires 0 <= i < |host| => (host[i].0, Sanitised(host[i].1)))
  }

  /**
   * After lower-casing, every field name and value is in lower case; every
   * field is a field of the record lower-cased; and a field the record had
   * under name `k` is found under `Lower(k)`.
   */
  lemma LowercaseRecordFields(host: Record, k: string)
    ensures forall f :: f in ToMap(LowercaseRecord(host)) ==>
      Lower(f) == f && Lower(ToMap(LowercaseRecord(host))[f]) == ToMap(LowercaseRecord(host))[f]
    ensures forall f :: f in ToMap(LowercaseRecord(host)) ==>
      exists j :: 0 <= j < |host| && Lower(host[j].0) == f && ToMap(LowercaseRecord(host))[f] == Lower(host[j].1)
    ensures k in ToMap(host) ==> Lower(k) in ToMap(LowercaseRecord(host))
  {
    var m := ToMap(LowercaseRecord(host));
    forall f | f in m ensures Lower(f) == f && Lower(m[f]) == m[f] &&
      exists j :: 0 <= j < |host| && Lower(host[j].0) == f && m[f] == Lower(host[j].1)
    {
      LowercaseEntry(host, f);
    }
    if k in ToMap(host) {
      LowercaseKey(host, k);
    }
  }

  /** One field of the lower-cased record: lower-case name and value, from some input field. */
  lemma LowercaseEntry(host: Record, f: string)
    requires f in ToMap(LowercaseRecord(host))
    ensures var m := ToMap(LowercaseRecord(host));
      Lower(f) == f && Lower(m[f]) == m[f] &&
      exists j :: 0 <= j < |host| && Lower(host[j].0) == f && m[f] == Lower(host[j].1)
  {
    var items := seq(|host|, i requires 0 <= i < |host| => (Lower(host[i].0), Lower(host[i].1)));
    var m := ToMap(LowercaseRecord(host));
    assert m == ToMap(items);
    ToMapFrom(items, f);
    var j :| 0 <= j < |items| && items[j] == (f, m[f]) && forall i :: j < i < |items| ==> items[i].0 != f;
    LowerIdempotent(host[j].0);
    LowerIdempotent(host[j].1);
  }

  /** A field name of the record is, lower-cased, a field name of the lower-cased record. */
  lemma LowercaseKey(host: Record, k: string)
    requires k in ToMap(host)
    ensures Lower(k) in ToMap(LowercaseRecord(host))
  {
    var items := seq(|host|, i requires 0 <= i < |host| => (Lower(host[i].0), Lower(host[i].1)));
    assert ToMap(LowercaseRecord(host)) == ToMap(items);
    var i :| 0 <= i < |host| && Keys(host)[i] == k;
    assert Keys(items)[i] == Lower(k);
  }

  /**
   * Keys equal up to case collapse into one, the later field winning: a
   * field no later field matches up to case gives its lower-cased value.
   */
  lemma LowercaseRecordLastWins(host: Record, j: nat)
    requires j < |host|
    requires forall i :: j < i < |host| ==> Lower(host[i].0) != Lower(host[j].0)
    ensures Lower(host[j].0) in ToMap(LowercaseRecord(host))
    ensures ToMap(LowercaseRecord(host))[Lower(host[j].0)] == Lower(host[j].1)
  {
    var items := seq(|host|, i requires 0 <= i < |host| => (Lower(host[i].0), Lower(host[i].1)));
    assert ToMap(LowercaseRecord(host)) == ToMap(items);
    ToMapLastWins(items, j);
  }

  /** `LowercaseImporter.fields`: the field names lower-cased; none when the importer has none. */
  function LowercaseFields(fields: Option<seq<string>>): (r: Option<seq<string>>)
    ensures r.None? <==> fields.None?
    ensures r.Some? ==> |r.value| == |fields.value| && forall i :: 0 <= i < |r.value| ==> Lower(r.value[i]) == r.value[i]
    ensures r.Some? ==> forall i :: 0 <= i < |r.value| ==> r.value[i] == Lower(fields.value[i])
  {
    match fields
    case None => None
    case Some(names) =>
      LowerAll(names);
      Some(seq(|names|, i requires 0 <= i < |names| => Lower(names[i])))
  }

  lemma LowerAll(names: seq<string>)
    ensures forall i :: 0 <= i < |names| ==> Lower(Lower(names[i])) == Lower(names[i])
  {
    forall i | 0 <= i < |names| ensures Lower(Lower(names[i])) == Lower(names[i]) {
      LowerIdempotent(names[i]);
    }
  }

  /** `LowercaseImporter.hostname_field`: the name lower-cased; none when the importer has none. */
  function LowercaseHostnameField(hostnameField: Option<string>): (r: Option<string>)
    ensures r.None? <==> hostnameField.None?
    ensures r.Some? ==> Lower(r.value) == r.value
    ensures r.Some? ==> r.value == Lower(hostnameField.value)
  {
    match hostnameField
    case None => None
    case Some(name) =>
      LowerIdempotent(name);
      Some(Lower(name))
  }

  /**
   * The lower-casing importer stays consistent: its hostname field and
   * each of its field names that the record had, before lower-casing,
   * name a field of the lower-cased record.
   */
  lemma LowercaseImporterConsistent(host: Record, fields: seq<string>, hostnameField: string)
    ensures hostnameField in ToMap(host) ==>
      LowercaseHostnameField(Some(hostnameField)).value in ToMap(LowercaseRecord(host))
    ensures forall i :: 0 <= i < |fields| && fields[i] in ToMap(host) ==>
      LowercaseFields(Some(fields)).value[i] in ToMap(LowercaseRecord(host))
  {
    LowercaseRecordFields(host, hostnameField);
    forall i | 0 <= i < |fields| && fields[i] in ToMap(host)
      ensures LowercaseFields(Some(fields)).value[i] in ToMap(LowercaseRecord(host))
    {
      LowercaseRecordFields(host, fields[i]);
    }
  }

  /** The BVQ field mapping: (field name for the connector, JSON key in the BVQ export). */
  const BVQ_FIELD_MAPPING: seq<(string, string)> := [("label_bvq_type", "tag"), ("ipv4", "ipv4"), ("ipv6", "ipv6")]

  /** The mapped fields the BVQ host has, in mapping order. */
  function MappedFields(host: Record, mapping: seq<(string, string)>): (r: Record)
  {
    if mapping == [] then []
    else
      var rest := MappedFields(host, mapping[1..]);
      if mapping[0].1 in ToMap(host) then [(mapping[0].0, ToMap(host)[mapping[0].1])] + rest else rest
  }

  /** `BVQImporter.format_host`: the name plus the mapped fields present; a missing name is a KeyError. */
  function FormatHost(host: Record): (r: Result<Record, Error>)
    ensures r.Failure? <==> "name" !in ToMap(host)
  {
    if "name" !in ToMap(host) then Failure(KeyMissing("name"))
    else Success([("name", ToMap(host)["name"])] + MappedFields(host, BVQ_FIELD_MAPPING))
  }

  /**
   * What a formatted BVQ host holds: the BVQ name under `name`, and
   * `label_bvq_type`, `ipv4`, `ipv6` exactly when the export had `tag`,
   * `ipv4`, `ipv6`, with the same values; no other field.
   */
  function FormattedFields(m: map<string, string>): (f: map<string, string>)
    requires "name" in m
    ensures "name" in f && f["name"] == m["name"]
    ensures ("label_bvq_type" in f <==> "tag" in m) && ("tag" in m ==> f["label_bvq_type"] == m["tag"])
    ensures ("ipv4" in f <==> "ipv4" in m) && ("ipv4" in m ==> f["ipv4"] == m["ipv4"])
    ensures ("ipv6" in f <==> "ipv6" in m) && ("ipv6" in m ==> f["ipv6"] == m["ipv6"])
    ensures f.Keys <= {"name", "label_bvq_type", "ipv4", "ipv6"}
  {
    var f0 := map["name" := m["name"]];
    var f1 := if "tag" in m then f0["label_bvq_type" := m["tag"]] else f0;
    var f2 := if "ipv4" in m then f1["ipv4" := m["ipv4"]] else f1;
    if "ipv6" in m then f2["ipv6" := m["ipv6"]] else f2
  }

  /** `format_host` yields, as a dict, exactly the fields `FormattedFields` describes. */
  lemma FormatHostFields(host: Record)
    requires "name" in ToMap(host)
    ensures ToMap(FormatHost(host).value) == FormattedFields(ToMap(host))
  {
    var m := ToMap(host);
    var r0: Record := [("name", m["name"])];
    var r1 := r0 + Optional("tag" in m, "label_bvq_type", m, "tag");
    var r2 := r1 + Optional("ipv4" in m, "ipv4", m, "ipv4");
    var r3 := r2 + Optional("ipv6" in m, "ipv6", m, "ipv6");
    MappedFieldsBvq(host);
    assert FormatHost(host).value == r3;
    assert ToMap(r0) == map["name" := m["name"]];
    ToMapOptional(r0, "tag" in m, "label_bvq_type", m, "tag");
    ToMapOptional(r1, "ipv4" in m, "ipv4", m, "ipv4");
    ToMapOptional(r2, "ipv6" in m, "ipv6", m, "ipv6");
  }

  /** The item `(k, m[j])` when `present`, else nothing. */
  function Optional(present: bool, k: string, m: map<string, string>, j: string): Record
    requires present ==> j in m
  {
    if present then [(k, m[j])] else []
  }

  lemma ToMapOptional(d: Record, present: bool, k: string, m: map<string, string>, j: string)
    requires present ==> j in m
    ensures ToMap(d + Optional(present, k, m, j)) == if present then ToMap(d)[k := m[j]] else ToMap(d)
  {
    var e := d + Optional(present, k, m, j);
    if present { assert e[..|e| - 1] == d; } else { assert e == d; }
  }

  lemma MappedFieldsBvq(host: Record)
    ensures var m := ToMap(host);
      MappedFields(host, BVQ_FIELD_MAPPING) ==
        Optional("tag" in m, "label_bvq_type", m, "tag") + Optional("ipv4" in m, "ipv4", m, "ipv4") +
        Optional("ipv6" in m, "ipv6", m, "ipv6")
  {
    var m := ToMap(host);
    MappedFieldsBvqTail(host);
    MappedFieldsCons(host, BVQ_FIELD_MAPPING);
    var o1 := Optional("tag" in m, "label_bvq_type", m, "tag");
    var o2 := Optional("ipv4" in m, "ipv4", m, "ipv4");
    var o3 := Optional("ipv6" in m, "ipv6", m, "ipv6");
    assert o1 + (o2 + o3) == o1 + o2 + o3;
  }

  lemma MappedFieldsBvqTail(host: Record)
    ensures var m := ToMap(host);
      MappedFields(host, BVQ_FIELD_MAPPING[1..]) ==
        Optional("ipv4" in m, "ipv4", m, "ipv4") + Optional("ipv6" in m, "ipv6", m, "ipv6")
  {
    var tail := BVQ_FIELD_MAPPING[1..];
    assert tail[0] == ("ipv4", "ipv4") && tail[1..] == [("ipv6", "ipv6")];
    MappedFieldsCons(host, [("ipv6", "ipv6")]);
    MappedFieldsCons(host, tail);
  }

  /** The first mapped field, if present, then the rest. */
  lemma MappedFieldsCons(host: Record, mapping: seq<(string, string)>)
    requires mapping != []
    ensures var m := ToMap(host);
      MappedFields(host, mapping) == Optional(mapping[0].1 in m, mapping[0].0, m, mapping[0].1) + MappedFields(host, mapping[1..])
  {
  }

  // ---------------------------------------------------------------- attributes and tags

  /** `get_host_attributes`: the `attr_` fields without their prefix, built-in names dropped. */
  function HostAttributes(host: Record): (r: map<string, string>)
    ensures forall a :: a in r ==> a !in BUILTIN_ATTRIBUTES
    decreases |host|
  {
    if host == [] then map[]
    else
      var rest := HostAttributes(host[..|host| - 1]);
      var (key, value) := host[|host| - 1];
      if IsAttribute(key) && key[5..] !in BUILTIN_ATTRIBUTES then rest[key[5..] := value] else rest
  }

  /** Field `key` is the `attr_` field for attribute `a`. */
  predicate AttributeField(key: string, a: string) {
    IsAttribute(key) && key[5..] == a
  }

  /** An attribute is present iff some `attr_` field names it, and it is not built in. */
  lemma {:induction false} HostAttributesKeys(host: Record, a: string)
    ensures a in HostAttributes(host) <==>
      a !in BUILTIN_ATTRIBUTES && exists i :: 0 <= i < |host| && AttributeField(host[i].0, a)
    decreases |host|
  {
    if host != [] {
      var init := host[..|host| - 1];
      HostAttributesKeys(init, a);
      if exists i :: 0 <= i < |init| && AttributeField(init[i].0, a) {
        var i :| 0 <= i < |init| && AttributeField(init[i].0, a);
        assert host[i] == init[i];
      }
      if exists i :: 0 <= i < |host| && AttributeField(host[i].0, a) {
        var i :| 0 <= i < |host| && AttributeField(host[i].0, a);
        if i < |init| { assert init[i] == host[i]; }
      }
    }
  }

  /** The value of an attribute is that of the last `attr_` field naming it. */
  lemma {:induction false} HostAttributesValues(host: Record, a: string)
    requires a in HostAttributes(host)
    ensures exists j :: (0 <= j < |host| && AttributeField(host[j].0, a) &&
      HostAttributes(host)[a] == host[j].1 &&
      forall i :: j < i < |host| ==> !(AttributeField(host[i].0, a)))
    decreases |host|
  {
    var init := host[..|host| - 1];
    var (key, value) := host[|host| - 1];
    if !(AttributeField(key, a)) {
      HostAttributesValues(init, a);
      var j :| 0 <= j < |init| && AttributeField(init[j].0, a) &&
        HostAttributes(init)[a] == init[j].1 &&
        forall i :: j < i < |init| ==> !(AttributeField(init[i].0, a));
      assert host[j] == init[j];
      forall i | j < i < |host| ensures !(AttributeField(host[i].0, a)) {
        if i < |init| { assert host[i] == init[i]; }
      }
    }
  }

  /** An `attr_` field no later `attr_` field overrides sets its attribute, unless the name is built in. */
  lemma HostAttributesLastWins(host: Record, j: nat, a: string)
    requires j < |host| && AttributeField(host[j].0, a) && a !in BUILTIN_ATTRIBUTES
    requires forall i :: j < i < |host| ==> !AttributeField(host[i].0, a)
    ensures a in HostAttributes(host) && HostAttributes(host)[a] == host[j].1
  {
    HostAttributesKeys(host, a);
    HostAttributesValues(host, a);
    var k :| 0 <= k < |host| && AttributeField(host[k].0, a) &&
      HostAttributes(host)[a] == host[k].1 &&
      forall i :: k < i < |host| ==> !AttributeField(host[i].0, a);
    assert k == j;
  }

  /** `get_host_tags`: the `tag_` fields, in order, keys and values unchanged. */
  function HostTags(host: Record): (r: Record)
    ensures forall i :: 0 <= i < |r| ==> IsTag(r[i].0) && r[i] in host
    ensures forall i :: 0 <= i < |host| && IsTag(host[i].0) ==> host[i] in r
    decreases |host|
  {
    if host == [] then []
    else
      var rest := HostTags(host[..|host| - 1]);
      assert forall i :: 0 <= i < |host| - 1 ==> host[i] == host[..|host| - 1][i];
      if IsTag(host[|host| - 1].0) then rest + [host[|host| - 1]] else rest
  }

  // ---------------------------------------------------------------- IP address

  /** The first field of `fields` the record has, cut at the first comma and stripped. */
  function IpAddressFrom(host: Record, fields: seq<string>): Option<string> {
    if fields == [] then None
    else if fields[0] in ToMap(host) then Some(Strip(Split(ToMap(host)[fields[0]], ",")[0]))
    else IpAddressFrom(host, fields[1..])
  }

  /** `get_ip_address`, trying the IP fields in the order `order`. */
  function IpAddress(host: Record, order: IpFieldOrder): Option<string> {
    IpAddressFrom(host, order)
  }

  lemma {:induction false} IpAddressFromSpec(host: Record, fields: seq<string>)
    ensures IpAddressFrom(host, fields).None? <==> forall i :: 0 <= i < |fields| ==> fields[i] !in ToMap(host)
    ensures IpAddressFrom(host, fields).Some? ==> exists i :: (0 <= i < |fields| && fields[i] in ToMap(host) &&
      IpAddressFrom(host, fields).value == Strip(Split(ToMap(host)[fields[i]], ",")[0]))
  {
    if fields != [] && fields[0] !in ToMap(host) {
      IpAddressFromSpec(host, fields[1..]);
      assert forall i :: 1 <= i < |fields| ==> fields[i] == fields[1..][i - 1];
      if IpAddressFrom(host, fields).Some? {
        var i :| 0 <= i < |fields[1..]| && fields[1..][i] in ToMap(host) &&
          IpAddressFrom(host, fields[1..]).value == Strip(Split(ToMap(host)[fields[1..][i]], ",")[0]);
        assert fields[i + 1] == fields[1..][i];
      }
    }
  }

  /**
   * Whatever the order of the IP fields: there is no address iff the record
   * has no IP field, and an address is the stripped text before the first
   * comma of one of the IP fields present.
   */
  lemma IpAddressSpec(host: Record, order: IpFieldOrder)
    ensures IpAddress(host, order).None? <==> forall f :: f in IP_ATTRIBUTES ==> f !in ToMap(host)
    ensures IpAddress(host, order).Some? ==> exists f :: (f in IP_ATTRIBUTES && f in ToMap(host) &&
      IpAddress(host, order).value == Strip(Split(ToMap(host)[f], ",")[0]))
  {
    IpAddressFromSpec(host, order);
    assert forall f :: f in IP_ATTRIBUTES <==> f in multiset(order);
    assert forall f :: f in IP_ATTRIBUTES ==> exists i :: 0 <= i < |order| && order[i] == f;
  }

  /** `fields_contain_ip_addresses`. */
  function FieldsContainIpAddresses(fields: seq<string>): (r: bool)
    ensures r <==> exists i :: 0 <= i < |fields| && fields[i] in IP_ATTRIBUTES
  {
    if fields == [] then false
    else if fields[0] in IP_ATTRIBUTES then true
    else
      assert forall i :: 1 <= i < |fields| ==> fields[i] == fields[1..][i - 1];
      FieldsContainIpAddresses(fields[1..])
  }

  // ---------------------------------------------------------------- labels

  /** The last position of `c` in `s`. */
  function LastIndexOfChar(s: string, c: char): (r: Option<nat>)
    ensures r.Some? ==> r.value < |s| && s[r.value] == c && forall j :: r.value < j < |s| ==> s[j] != c
    ensures r.None? ==> c !in s
    decreases |s|
  {
    if s == [] then None
    else if s[|s| - 1] == c then Some(|s| - 1)
    else LastIndexOfChar(s[..|s| - 1], c)
  }

  /** The last occurrence of `pat` starting at or before `p`. */
  function LastOccurrence(s: string, pat: string, p: int): (r: Option<nat>)
    ensures r.Some? ==> r.value <= p && OccursAt(s, pat, r.value)
    ensures r.Some? ==> forall j :: r.value < j <= p ==> !OccursAt(s, pat, j)
    ensures r.None? ==> forall j :: 0 <= j <= p ==> !OccursAt(s, pat, j)
    decreases if p < 0 then 0 else p + 1
  {
    if p < 0 then None
    else if OccursAt(s, pat, p) then Some(p)
    else LastOccurrence(s, pat, p - 1)
  }

  /**
   * The `(name, separator)` pair the greedy `(.*):sep\((.*)\)` match finds:
   * the separator ends at the last `)` and starts after the last `:sep(`
   * that ends before it. `None` when there is no match.
   */
  function SepKey(key: string): (r: Option<(string, string)>)
    ensures r.Some? ==> StartsWith(key, r.value.0 + ":sep(" + r.value.1 + ")")
    ensures r.Some? ==> ')' !in key[|r.value.0| + |r.value.1| + 6..]
  {
    match LastIndexOfChar(key, ')')
    case None => None
    case Some(l) =>
      match LastOccurrence(key, ":sep(", l - 5)
      case None => None
      case Some(p) =>
        assert key[..l + 1] == key[..p] + ":sep(" + key[p + 5..l] + ")" by {
          assert key[p..p + 5] == ":sep(";
        }
        Some((key[..p], key[p + 5..l]))
  }

  /** For a key of the documented form `name:sep(x)`, the match gives back `name` and `x`. */
  lemma SepKeyOfForm(name: string, sep: string)
    requires !Contains(sep, ":sep(")
    ensures SepKey(name + ":sep(" + sep + ")") == Some((name, sep))
  {
    var key := name + ":sep(" + sep + ")";
    var l := |key| - 1;
    var p := |name|;
    assert key[..p] == name;
    assert key[p..p + 5] == ":sep(";
    assert OccursAt(key, ":sep(", p);
    assert key[p + 5..l] == sep;
    NoLaterSepMarker(name, sep);
    var r := LastOccurrence(key, ":sep(", l - 5);
    assert r == Some(p);
  }

  /** In `name:sep(x)` with no `:sep(` inside `x`, no `:sep(` starts after `name`. */
  lemma NoLaterSepMarker(name: string, sep: string)
    requires !Contains(sep, ":sep(")
    ensures forall j :: |name| < j <= |name| + |sep| ==> !OccursAt(name + ":sep(" + sep + ")", ":sep(", j)
  {
    var key := name + ":sep(" + sep + ")";
    var p := |name|;
    assert IndexFrom(sep, ":sep(", 0).None?;
    forall j | p < j <= p + |sep| ensures !OccursAt(key, ":sep(", j) {
      if j < p + 5 {
        assert key[j] == ":sep("[j - p];
      } else if OccursAt(key, ":sep(", j) {
        assert key[j..j + 5] == sep[j - p - 5..j - p];
        assert OccursAt(sep, ":sep(", j - p - 5);
      }
    }
  }

  /** The label a token of a `name:sep(x)` field stands for. */
  function SepLabelKey(name: string, token: string): string {
    Lower(name + "/" + token)
  }

  /** A `name:sep(x)` field sets one `true` label per token of its value. */
  function SepAssignments(name: string, tokens: seq<string>): (r: seq<(string, string)>)
    ensures |r| == |tokens|
    ensures forall i :: 0 <= i < |tokens| ==> r[i] == (SepLabelKey(name, tokens[i]), "true")
    decreases |tokens|
  {
    if tokens == [] then []
    else SepAssignments(name, tokens[..|tokens| - 1]) + [(SepLabelKey(name, tokens[|tokens| - 1]), "true")]
  }

  lemma SepAssignmentsStep(name: string, tokens: seq<string>, k: nat)
    requires k < |tokens|
    ensures SepAssignments(name, tokens[..k + 1]) == SepAssignments(name, tokens[..k]) + [(SepLabelKey(name, tokens[k]), "true")]
  {
    assert tokens[..k + 1][..k] == tokens[..k];
  }

  /** The assignments to `tmp` one field of the record makes in `get_host_label`. */
  function FieldAssignments(key: string, value: string, hostnameField: string): Result<seq<(string, string)>, Error> {
    if key == hostnameField then Success([])
    else if Contains(key, ":sep(") then
      match SepKey(key)
      case None => Failure(SepKeyUnmatched(key))
      case Some((name, sep)) =>
        if sep == "" then Failure(EmptySeparator(key))
        else Success(SepAssignments(name, Split(value, sep)))
    else Success([(Lower(key), value)])
  }

  /** All assignments to `tmp`, field by field; the first bad `:sep(` key aborts. */
  function TmpAssignments(host: Record, hostnameField: string): Result<seq<(string, string)>, Error>
    decreases |host|
  {
    if host == [] then Success([])
    else
      var init :- TmpAssignments(host[..|host| - 1], hostnameField);
      var last :- FieldAssignments(host[|host| - 1].0, host[|host| - 1].1, hostnameField);
      Success(init + last)
  }

  /** The first failing field aborts the whole record: a failure on a prefix is the record's failure. */
  lemma {:induction false} TmpAssignmentsPrefixFailure(host: Record, n: nat, hostnameField: string)
    requires n <= |host| && TmpAssignments(host[..n], hostnameField).Failure?
    ensures TmpAssignments(host, hostnameField) == TmpAssignments(host[..n], hostnameField)
    decreases |host|
  {
    if n < |host| {
      assert host[..|host| - 1][..n] == host[..n];
      TmpAssignmentsPrefixFailure(host[..|host| - 1], n, hostnameField);
    } else {
      assert host[..n] == host;
    }
  }

  /** Keys of `tmp` that never become labels. */
  predicate Reserved(key: string) {
    IsTag(key) || key in IP_ATTRIBUTES || IsAttribute(key) || key in BUILTIN_ATTRIBUTES
  }

  function Unlabelify(key: string): string {
    if StartsWith(key, "label_") then key[6..] else key
  }

  /** The closing dict comprehension of `get_host_label`, over `tmp` in order. */
  function LabelView(tmp: Dict<string>): (r: map<string, string>)
    decreases |tmp|
  {
    if tmp == [] then map[]
    else
      var rest := LabelView(tmp[..|tmp| - 1]);
      var (key, value) := tmp[|tmp| - 1];
      if Reserved(key) then rest else rest[Unlabelify(key) := value]
  }

  /** `get_host_label`. */
  function HostLabels(host: Record, hostnameField: string): Result<map<string, string>, Error> {
    var items :- TmpAssignments(host, hostnameField);
    Success(LabelView(FromItems(items)))
  }

  /** The labels are exactly the unreserved keys of `tmp`, `label_` stripped. */
  lemma {:induction false} LabelViewKeys(tmp: Dict<string>, k: string)
    ensures k in LabelView(tmp) <==> exists i :: 0 <= i < |tmp| && !Reserved(tmp[i].0) && Unlabelify(tmp[i].0) == k
    decreases |tmp|
  {
    if tmp != [] {
      var init := tmp[..|tmp| - 1];
      LabelViewKeys(init, k);
      if exists i :: 0 <= i < |init| && !Reserved(init[i].0) && Unlabelify(init[i].0) == k {
        var i :| 0 <= i < |init| && !Reserved(init[i].0) && Unlabelify(init[i].0) == k;
        assert tmp[i] == init[i];
      }
      if exists i :: 0 <= i < |tmp| && !Reserved(tmp[i].0) && Unlabelify(tmp[i].0) == k {
        var i :| 0 <= i < |tmp| && !Reserved(tmp[i].0) && Unlabelify(tmp[i].0) == k;
        if i < |init| { assert init[i] == tmp[i]; }
      }
    }
  }

  /**
   * `get_host_label` yields label `k` iff some assignment to `tmp` has an
   * unreserved key (not a tag, attribute, IP or built-in name) that is `k`
   * once a leading `label_` is removed.
   */
  lemma HostLabelsKeys(host: Record, hostnameField: string, k: string)
    requires TmpAssignments(host, hostnameField).Success?
    ensures var items := TmpAssignments(host, hostnameField).value;
      HostLabels(host, hostnameField).Success? &&
      (k in HostLabels(host, hostnameField).value <==>
        exists i :: 0 <= i < |items| && !Reserved(items[i].0) && Unlabelify(items[i].0) == k)
  {
    var items := TmpAssignments(host, hostnameField).value;
    var d := FromItems(items);
    LabelViewKeys(d, k);
    if exists i :: 0 <= i < |d| && !Reserved(d[i].0) && Unlabelify(d[i].0) == k {
      var i :| 0 <= i < |d| && !Reserved(d[i].0) && Unlabelify(d[i].0) == k;
      SameKey(d, items, i);
    }
    if exists j :: 0 <= j < |items| && !Reserved(items[j].0) && Unlabelify(items[j].0) == k {
      var j :| 0 <= j < |items| && !Reserved(items[j].0) && Unlabelify(items[j].0) == k;
      SameKey(items, d, j);
    }
  }

  /** `key` is an unreserved key of `tmp` that gives label `k`. */
  predicate LabelField(key: string, k: string) {
    !Reserved(key) && Unlabelify(key) == k
  }

  /** A label's value is that of the last `tmp` entry giving it. */
  lemma {:induction false} LabelViewValues(tmp: Dict<string>, k: string)
    requires k in LabelView(tmp)
    ensures exists j :: (0 <= j < |tmp| && LabelField(tmp[j].0, k) && LabelView(tmp)[k] == tmp[j].1 &&
      forall i :: j < i < |tmp| ==> !LabelField(tmp[i].0, k))
    decreases |tmp|
  {
    var init := tmp[..|tmp| - 1];
    if !LabelField(tmp[|tmp| - 1].0, k) {
      LabelViewValues(init, k);
      var j :| 0 <= j < |init| && LabelField(init[j].0, k) && LabelView(init)[k] == init[j].1 &&
        forall i :: j < i < |init| ==> !LabelField(init[i].0, k);
      NoLaterLabelField(tmp, init, j, k);
    }
  }

  /** A key no later key of the prefix gives label `k` stays so when the last key does not give it either. */
  lemma NoLaterLabelField(tmp: Dict<string>, init: Dict<string>, j: nat, k: string)
    requires 0 < |tmp| && init == tmp[..|tmp| - 1] && j < |init| && !LabelField(tmp[|tmp| - 1].0, k)
    requires forall i :: j < i < |init| ==> !LabelField(init[i].0, k)
    ensures forall i :: j < i < |tmp| ==> !LabelField(tmp[i].0, k)
  {
    forall i | j < i < |tmp| ensures !LabelField(tmp[i].0, k) {
      if i < |init| { assert tmp[i] == init[i]; }
    }
  }

  /**
   * Every label's value was assigned to `tmp` under a key giving that
   * label, by the last assignment to that key.
   */
  lemma HostLabelsValues(host: Record, hostnameField: string, k: string)
    requires TmpAssignments(host, hostnameField).Success?
    requires k in HostLabels(host, hostnameField).value
    ensures var items := TmpAssignments(host, hostnameField).value;
      exists j :: (0 <= j < |items| && LabelField(items[j].0, k) &&
        HostLabels(host, hostnameField).value[k] == items[j].1 &&
        forall i :: j < i < |items| ==> items[i].0 != items[j].0)
  {
    var items := TmpAssignments(host, hostnameField).value;
    var d := FromItems(items);
    LabelViewValues(d, k);
    var j :| 0 <= j < |d| && LabelField(d[j].0, k) && LabelView(d)[k] == d[j].1 &&
      forall i :: j < i < |d| ==> !LabelField(d[i].0, k);
    ToMapAt(d, j);
    ToMapFrom(items, d[j].0);
  }

  /**
   * When a single key of `tmp` gives label `k`, the label takes the value
   * last assigned under that key.
   */
  lemma HostLabelsLastWins(host: Record, hostnameField: string, k: string, j: nat)
    requires TmpAssignments(host, hostnameField).Success?
    requires var items := TmpAssignments(host, hostnameField).value;
      j < |items| && LabelField(items[j].0, k) &&
      (forall i :: 0 <= i < |items| && LabelField(items[i].0, k) ==> items[i].0 == items[j].0) &&
      forall i :: j < i < |items| ==> items[i].0 != items[j].0
    ensures k in HostLabels(host, hostnameField).value
    ensures HostLabels(host, hostnameField).value[k] == TmpAssignments(host, hostnameField).value[j].1
  {
    var items := TmpAssignments(host, hostnameField).value;
    HostLabelsKeys(host, hostnameField, k);
    HostLabelsValues(host, hostnameField, k);
    var j' :| 0 <= j' < |items| && LabelField(items[j'].0, k) &&
      HostLabels(host, hostnameField).value[k] == items[j'].1 &&
      forall i :: j' < i < |items| ==> items[i].0 != items[j'].0;
    assert j' == j;
  }

  /** Two dicts for the same mapping have the same keys. */
  lemma SameKey(d: Dict<string>, e: Dict<string>, i: nat)
    requires ToMap(d) == ToMap(e) && i < |d|
    ensures exists j :: 0 <= j < |e| && e[j].0 == d[i].0
  {
    assert Keys(d)[i] == d[i].0;
    assert d[i].0 in ToMap(e);
    var j :| 0 <= j < |e| && Keys(e)[j] == d[i].0;
  }

  /**
   * A plain field (no `:sep(` in its name) other than the hostname field
   * assigns its value under its lower-cased name; when that name is a tag,
   * attribute, IP or built-in name, the assignment is reserved and never
   * becomes a label.
   */
  lemma PlainFieldAssignment(key: string, value: string, hostnameField: string)
    requires key != hostnameField && !Contains(key, ":sep(")
    ensures FieldAssignments(key, value, hostnameField) == Success([(Lower(key), value)])
    ensures IsTag(key) || IsAttribute(key) || Lower(key) in IP_ATTRIBUTES || Lower(key) in BUILTIN_ATTRIBUTES
      ==> Reserved(Lower(key))
  {
    LowerIdempotent(key);
  }

  /** A field `name:sep(x)` sets `name/token` to `true` for each token of its value split at `x`. */
  lemma SepFieldAssignment(name: string, sep: string, value: string, hostnameField: string)
    requires sep != "" && !Contains(sep, ":sep(") && name + ":sep(" + sep + ")" != hostnameField
    ensures FieldAssignments(name + ":sep(" + sep + ")", value, hostnameField) == Success(SepAssignments(name, Split(value, sep)))
  {
    var key := name + ":sep(" + sep + ")";
    assert key[|name|..|name| + 5] == ":sep(";
    assert OccursAt(key, ":sep(", |name|);
    SepKeyOfForm(name, sep);
  }

  /** The hostname field is never looked at: dropping it from the record gives the same labels. */
  function WithoutField(host: Record, field: string): (r: Record)
    ensures forall i :: 0 <= i < |r| ==> r[i].0 != field
    decreases |host|
  {
    if host == [] then []
    else if host[|host| - 1].0 == field then WithoutField(host[..|host| - 1], field)
    else WithoutField(host[..|host| - 1], field) + [host[|host| - 1]]
  }

  lemma {:induction false} HostnameFieldIgnored(host: Record, hostnameField: string)
    ensures TmpAssignments(WithoutField(host, hostnameField), hostnameField) == TmpAssignments(host, hostnameField)
    ensures HostLabels(WithoutField(host, hostnameField), hostnameField) == HostLabels(host, hostnameField)
    decreases |host|
  {
    if host != [] {
      var init, x := host[..|host| - 1], host[|host| - 1];
      HostnameFieldIgnored(init, hostnameField);
      var w := WithoutField(init, hostnameField);
      assert host == init + [x];
      TmpAssignmentsSnoc(init, x, hostnameField);
      if x.0 == hostnameField {
        assert WithoutField(host, hostnameField) == w;
        assert FieldAssignments(x.0, x.1, hostnameField) == Success([]);
        if TmpAssignments(init, hostnameField).Success? {
          var a := TmpAssignments(init, hostnameField).value;
          assert a + [] == a;
        }
      } else {
        assert WithoutField(host, hostnameField) == w + [x];
        TmpAssignmentsSnoc(w, x, hostnameField);
      }
    }
  }

  /** `TmpAssignments` of a record with one more field. */
  lemma TmpAssignmentsSnoc(init: Record, x: (string, string), hostnameField: string)
    ensures var t, f := TmpAssignments(init, hostnameField), FieldAssignments(x.0, x.1, hostnameField);
      TmpAssignments(init + [x], hostnameField) ==
        if t.Failure? then t else if f.Failure? then f else Success(t.value + f.value)
  {
    assert (init + [x])[..|init|] == init;
    assert (init + [x])[|init|] == x;
  }

  lemma TmpAssignmentsStep(host: Record, i: nat, hostnameField: string, items: seq<(string, string)>)
    requires i < |host| && TmpAssignments(host[..i], hostnameField) == Success(items)
    ensures TmpAssignments(host[..i + 1], hostnameField) ==
      match FieldAssignments(host[i].0, host[i].1, hostnameField)
      case Failure(e) => Failure(e)
      case Success(added) => Success(items + added)
  {
    assert host[..i + 1][..i] == host[..i];
  }

  /** The inner loop of `get_host_label`: one `true` label per token of a `:sep(` field. */
  method AssignTokens(tmp: Dict<string>, ghost items: seq<(string, string)>, name: string, values: seq<string>)
    returns (r: Dict<string>)
    requires tmp == FromItems(items)
    ensures r == FromItems(items + SepAssignments(name, values))
  {
    r := tmp;
    assert items + SepAssignments(name, values[..0]) == items;
    for k := 0 to |values|
      invariant r == FromItems(items + SepAssignments(name, values[..k]))
    {
      var labelKey := SepLabelKey(name, values[k]);
      TokenAssigned(items, name, values, k);
      r := Set(r, labelKey, "true");
    }
    assert values[..|values|] == values;
  }

  lemma TokenAssigned(items: seq<(string, string)>, name: string, values: seq<string>, k: nat)
    requires k < |values|
    ensures FromItems(items + SepAssignments(name, values[..k + 1])) ==
      Set(FromItems(items + SepAssignments(name, values[..k])), SepLabelKey(name, values[k]), "true")
  {
    ghost var before := items + SepAssignments(name, values[..k]);
    SepAssignmentsStep(name, values, k);
    assert items + SepAssignments(name, values[..k + 1]) == before + [(SepLabelKey(name, values[k]), "true")];
    FromItemsSnoc(before, SepLabelKey(name, values[k]), "true");
  }

  /** `get_host_label` as written: `tmp` is filled in a loop over the fields. */
  method GetHostLabel(host: Record, hostnameField: string) returns (r: Result<map<string, string>, Error>)
    ensures r == HostLabels(host, hostnameField)
  {
    var tmp: Dict<string> := [];
    ghost var items: seq<(string, string)> := [];
    var i := 0;
    while i < |host|
      invariant i <= |host|
      invariant TmpAssignments(host[..i], hostnameField) == Success(items)
      invariant tmp == FromItems(items)
    {
      var (key, value) := host[i];
      TmpAssignmentsStep(host, i, hostnameField, items);
      if key == hostnameField {
        i := i + 1;
        assert items + [] == items;
        continue;
      }
      if Contains(key, ":sep(") {
        var parsed := SepKey(key);
        if parsed.None? {
          TmpAssignmentsPrefixFailure(host, i + 1, hostnameField);
          return Failure(SepKeyUnmatched(key));
        }
        var (name, sep) := parsed.value;
        if sep == "" {
          TmpAssignmentsPrefixFailure(host, i + 1, hostnameField);
          return Failure(EmptySeparator(key));
        }
        var values := Split(value, sep);
        tmp := AssignTokens(tmp, items, name, values);
        items := items + SepAssignments(name, values);
        i := i + 1;
        continue;
      }
      FromItemsSnoc(items, Lower(key), value);
      tmp := Set(tmp, Lower(key), value);
      items := items + [(Lower(key), value)];
      i := i + 1;
    }
    assert host[..|host|] == host;
    r := Success(LabelView(tmp));
  }
}
