/** Emitted records: FHIR resources taken as plain JSON objects. Validation
    and serialisation by the schema library are not modelled; a resource is
    its type name and the fields it was built from. */
module Resources {
  import opened Common

  datatype Json =
    | JNull
    | JBool(b: bool)
    | JInt(i: int)
    | JStr(s: string)
    | JArr(items: seq<Json>)
    | JObj(fields: map<string, Json>)

  datatype Resource = Resource(resourceType: string, fields: map<string, Json>)

  /** What `relative_path()` is taken to stand for: the type and the id. */
  datatype Identity = Identity(resourceType: string, id: Option<string>)

  function IdOf(r: Resource): Option<string> {
    if "id" in r.fields && r.fields["id"].JStr? then Some(r.fields["id"].s) else None
  }

  function IdentityOf(r: Resource): Identity {
    Identity(r.resourceType, IdOf(r))
  }

  /** `{"reference": "<resourceType>/<id>"}` */
  function Reference(resourceType: string, id: string): Json {
    JObj(map["reference" := JStr(resourceType + "/" + id)])
  }

  /** The `Type/id` text a reference names. */
  function RelativePath(resourceType: string, id: string): string {
    resourceType + "/" + id
  }
}
