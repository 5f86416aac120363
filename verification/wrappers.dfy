/** Option, Result and Outcome, and the exceptions the modelled code raises. */
module Wrappers {

  datatype Option<+T> = None | Some(value: T)

  /** The kinds of exception the modelled Python code can raise or propagate. */
  datatype Error =
    | ValueError(message: string)
    | KeyError(key: string)
    | TypeError
    | AttributeError
    | IndexError
    | WriteError                          // a Mongo update the server refuses
    | RuntimeError(detail: string)        // speech synthesis failure, re-raised
    | ServiceError(service: string)       // an external model or HTTP call raised
    | FileNotFound(path: string)          // `open` for writing in a missing directory
    | IsADirectory(path: string)          // `open` for writing on an existing directory
    | MakeDirsFailed(dir: string)         // `os.makedirs` met an existing file on its way
    | DecodeError                         // `base64.b64decode` refused its input
    | JobFailed(lang: string, cause: Error)  // "Failed to translate and store for <lang>"

  datatype Result<+T> = Ok(value: T) | Err(error: Error)

  datatype Outcome = Pass | Fail(error: Error)

  /** `table.get(key)` for a dict literal kept as its entries in source order:
      the value of the first entry with that key. */
  function Lookup<K(==), V>(table: seq<(K, V)>, key: K): (r: Option<V>)
    ensures r.Some? <==> exists i :: 0 <= i < |table| && table[i].0 == key
    ensures r.Some? ==> exists i :: 0 <= i < |table| && table[i] == (key, r.value)
                                    && forall j :: 0 <= j < i ==> table[j].0 != key
  {
    if table == [] then None
    else if table[0].0 == key then Some(table[0].1)
    else
      var r := Lookup(table[1..], key);
      assert forall i :: 1 <= i < |table| ==> table[i] == table[1..][i - 1];
      r
  }

  /** The keys of a dict literal, in source order. */
  function KeysOf<K, V>(table: seq<(K, V)>): (r: seq<K>)
    ensures |r| == |table| && forall i :: 0 <= i < |table| ==> r[i] == table[i].0
  {
    seq(|table|, i requires 0 <= i < |table| => table[i].0)
  }
}
