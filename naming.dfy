/** Name-based identifiers (section 4.3 of RFC 4122). The hashing itself is
    not modelled: `uuid3` and `uuid5` are any two total functions from a
    namespace and a name to the canonical text of a UUID. Nothing here
    assumes they are injective. */
module Naming {

  datatype NameHash = NameHash(uuid3: (string, string) -> string, uuid5: (string, string) -> string)

  /** The text of Python's `uuid.NAMESPACE_DNS`. */
  const NamespaceDns: string := "6ba7b810-9dad-11d1-80b4-00c04fd430c8"

  /** `ACED_NAMESPACE = uuid3(NAMESPACE_DNS, 'aced-ipd.org')` */
  function AcedNamespace(h: NameHash): string {
    h.uuid3(NamespaceDns, "aced-ipd.org")
  }

  /** `str(uuid5(ACED_NAMESPACE, key))` */
  function NameId(h: NameHash, key: string): string {
    h.uuid5(AcedNamespace(h), key)
  }
}
