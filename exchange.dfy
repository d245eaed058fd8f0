/**
 * `FileConnectorHosts`: what phase 1 hands to phase 2, and the dict it is
 * serialised to in between. Python stores the three attributes without
 * looking at their types, so a field holds any of the values phase 1 puts
 * there.
 */
module Exchange {
  import opened Wrappers
  import opened Errors
  import opened Records

  /** A value of the exchanged dict: the imported records, a text, or a list of texts. */
  datatype Field = HostRecords(records: seq<Record>) | Text(text: string) | Texts(items: seq<string>)

  /** The hosts read by phase 1, the field that names them, and all field names of the import. */
  datatype FileConnectorHosts = FileConnectorHosts(hosts: Field, hostnameField: Field, fieldnames: Field)

  const HOSTS_KEY: string := "hosts"
  const HOSTNAME_FIELD_KEY: string := "hostname_field"
  const FIELDNAMES_KEY: string := "fieldnames"

  function Keys(): set<string> {
    {HOSTS_KEY, HOSTNAME_FIELD_KEY, FIELDNAMES_KEY}
  }

  /** `_serialize_attributes`: one entry per attribute. */
  function Serialize(h: FileConnectorHosts): (d: map<string, Field>)
    ensures d.Keys == Keys()
    ensures d[HOSTS_KEY] == h.hosts && d[HOSTNAME_FIELD_KEY] == h.hostnameField && d[FIELDNAMES_KEY] == h.fieldnames
  {
    map[HOSTS_KEY := h.hosts, HOSTNAME_FIELD_KEY := h.hostnameField, FIELDNAMES_KEY := h.fieldnames]
  }

  function Lookup(d: map<string, Field>, key: string): (r: Result<Field, Error>)
    ensures r.Success? <==> key in d
    ensures r.Success? ==> r.value == d[key]
    ensures r.Failure? ==> r.error == KeyMissing(key)
  {
    if key in d then Success(d[key]) else Failure(KeyMissing(key))
  }

  /**
   * `from_serialized_attributes`: the three entries, looked up in argument
   * order; the first missing one raises a `KeyError`. Other entries are
   * ignored.
   */
  function Deserialize(d: map<string, Field>): (r: Result<FileConnectorHosts, Error>)
  {
    var hosts :- Lookup(d, HOSTS_KEY);
    var hostnameField :- Lookup(d, HOSTNAME_FIELD_KEY);
    var fieldnames :- Lookup(d, FIELDNAMES_KEY);
    Success(FileConnectorHosts(hosts, hostnameField, fieldnames))
  }

  /** Serialising and reading back gives the same object. */
  lemma DeserializeSerialize(h: FileConnectorHosts)
    ensures Deserialize(Serialize(h)) == Success(h)
  {
    var d := Serialize(h);
    assert HOSTS_KEY in d && HOSTNAME_FIELD_KEY in d && FIELDNAMES_KEY in d;
  }

  /**
   * Reading fails exactly when one of the three entries is missing, and
   * reports the first one missing; a dict that reads serialises back to
   * its three entries.
   */
  lemma SerializeDeserialize(d: map<string, Field>)
    ensures Deserialize(d).Success? <==> Keys() <= d.Keys
    ensures HOSTS_KEY !in d ==> Deserialize(d) == Failure(KeyMissing(HOSTS_KEY))
    ensures HOSTS_KEY in d && HOSTNAME_FIELD_KEY !in d ==> Deserialize(d) == Failure(KeyMissing(HOSTNAME_FIELD_KEY))
    ensures HOSTS_KEY in d && HOSTNAME_FIELD_KEY in d && FIELDNAMES_KEY !in d ==>
      Deserialize(d) == Failure(KeyMissing(FIELDNAMES_KEY))
    ensures Deserialize(d).Success? ==> Serialize(Deserialize(d).value) == map k | k in d && k in Keys() :: d[k]
  {
    if Keys() <= d.Keys {
      var h := Deserialize(d).value;
      var e := map k | k in d && k in Keys() :: d[k];
      assert Serialize(h).Keys == e.Keys;
    }
  }
}
