/** Shared vocabulary of the model: optional values, results carrying the
    Python exception that aborts a run, and string-keyed input records. */
module Common {

  datatype Option<+T> = None | Some(value: T)

  /** The exceptions the transforms raise on bad input, by Python kind. */
  datatype Error =
    | MissingField(name: string)      // KeyError from `record[name]`
    | NotAnInteger(text: string)      // ValueError from `int(text)`
    | NoValue(name: string)           // TypeError from `int(None)` after `record.get(name)`
    | UnmappedLigand(ligand: string)  // AssertionError at the end of `code_mappings`

  datatype Result<+T> = Success(value: T) | Failure(error: Error) {
    predicate IsFailure() { Failure? }
    function PropagateFailure<U>(): Result<U>
      requires Failure?
    {
      Failure(error)
    }
    function Extract(): T
      requires Success?
    {
      value
    }
  }

  /** One key/value pair of a record read from a line of JSON. */
  datatype Entry = Entry(key: string, value: string)

  /** A record as the readers hand it over: its entries in insertion order. */
  type Row = seq<Entry>

  /** `record.get(key)`: the value stored under `key`, if any. */
  function Get(row: Row, key: string): (r: Option<string>)
    ensures r.Some? <==> exists i :: 0 <= i < |row| && row[i].key == key
    ensures r.Some? ==> Entry(key, r.value) in row
  {
    if row == [] then None
    else if row[0].key == key then Some(row[0].value)
    else Get(row[1..], key)
  }

  /** `record[key]`: the value stored under `key`, or a KeyError. */
  function Field(row: Row, key: string): (r: Result<string>)
    ensures r.Success? <==> Get(row, key).Some?
    ensures r.Success? ==> r.value == Get(row, key).value
    ensures r.Failure? ==> r.error == MissingField(key)
  {
    match Get(row, key)
    case Some(v) => Success(v)
    case None => Failure(MissingField(key))
  }

  predicate NoDuplicates<T(==)>(xs: seq<T>) {
    forall i, j :: 0 <= i < j < |xs| ==> xs[i] != xs[j]
  }

  /** `s.startswith(prefix)` */
  predicate StartsWith(s: string, prefix: string) {
    |prefix| <= |s| && s[..|prefix|] == prefix
  }
}
