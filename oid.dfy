/** `get_nameform` (certreader/oid.py:9-16). The name table that oid.py loads once
    from data/oid.yml is passed in as a map. */
module Oid {
  import opened Wrappers

  /** `oid_map.get(oid)`: the registered name, or nothing for an unregistered OID. */
  function GetNameform(registry: map<string, string>, oid: string): (r: Option<string>)
    ensures r.Some? <==> oid in registry
    ensures r.Some? ==> r.value == registry[oid]
  {
    if oid in registry then Some(registry[oid]) else None
  }
}
