/**
 * Hosts as the site reports them: a folder and a dict of attributes whose
 * values are JSON values.
 */
module Remote {
  import opened Records

  /** A remote attribute value: text, an object of text values (labels, the lock ident), or JSON null. */
  datatype Value = Str(s: string) | Obj(entries: map<string, string>) | Null

  /** Python truthiness of a value. */
  predicate Truthy(v: Value) {
    match v
    case Str(s) => s != ""
    case Obj(e) => e != map[]
    case Null => false
  }

  type Attributes = map<string, Value>

  /** A host as the site reports it. */
  datatype RemoteHost = RemoteHost(folder: string, attributes: Attributes)

  /** `attributes.get(key)`: JSON null and a missing key both read as `None`. */
  function Get(attributes: Attributes, key: string): (v: Value)
    ensures key !in attributes ==> v == Null
    ensures key in attributes ==> v == attributes[key]
  {
    if key in attributes then attributes[key] else Null
  }

  /** Text values as attribute values. */
  function Lift(m: map<string, string>): (r: Attributes)
    ensures r.Keys == m.Keys
    ensures forall k :: k in m ==> r[k] == Str(m[k])
  {
    map k | k in m :: Str(m[k])
  }

  /** `clean_cmk_attributes`: the attributes that are neither built in nor tags. */
  function CleanCmkAttributes(attributes: Attributes): (r: Attributes)
    ensures forall k :: k in r <==> k in attributes && k !in BUILTIN_ATTRIBUTES && !IsTag(k)
    ensures forall k :: k in r ==> r[k] == attributes[k]
  {
    map k | k in attributes && !(k in BUILTIN_ATTRIBUTES || IsTag(k)) :: attributes[k]
  }

  /** `get_host_tags` applied to the remote attributes: those whose name is a tag name. */
  function TagAttributes(attributes: Attributes): (r: Attributes)
    ensures forall k :: k in r <==> k in attributes && IsTag(k)
    ensures forall k :: k in r ==> r[k] == attributes[k]
  {
    map k | k in attributes && IsTag(k) :: attributes[k]
  }

  /** `attributes.get("labels", {})`, read as a label dict. */
  function LabelsOf(attributes: Attributes): map<string, string> {
    if "labels" in attributes && attributes["labels"].Obj? then attributes["labels"].entries else map[]
  }

  /** `locked_by`, or null when the host is not locked. */
  function LockedBy(host: RemoteHost): Value {
    Get(host.attributes, "locked_by")
  }
}
