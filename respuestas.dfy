/**
  What the route handlers share: the answer they give, how they read the fields of a
  request body, and the uniqueness of keys some of them keep.
 */
module Respuestas {
  import opened Wrappers
  import opened Text
  import opened Records

  /**
    The answer of a route handler: a JSON body with status 200, or `{ error }` with an
    error status.
   */
  datatype Respuesta<T> = Exito(cuerpo: T) | Error(status: nat, mensaje: string)

  /** `x != null ? String(x).trim() : ""` */
  function Recortado(x: Option<string>): (r: string)
    ensures r == "" <==> IsBlankOpt(x)
    ensures Trim(r) == r
  {
    if x.Some? then TrimIdempotent(x.value); Trim(x.value) else ""
  }

  /** `x != null ? String(x).trim() : undefined` */
  function RecortadoOpcional(x: Option<string>): (r: Option<string>)
    ensures r.Some? <==> x.Some?
    ensures TrimmedOptional(r)
  {
    if x.Some? then TrimIdempotent(x.value); Some(Trim(x.value)) else None
  }

  /**
    Non-blank keys are unique: no two records share a key once trimmed and lower-cased.
    Blank keys may repeat.
   */
  predicate ClavesUnicas(keys: seq<string>) {
    forall i, j :: 0 <= i < j < |keys| && !IsBlank(keys[i]) ==> !SameKey(keys[i], keys[j])
  }

  /** Appending a key that matches none of the non-blank keys keeps them unique. */
  lemma {:induction false} ClaveNuevaConservaUnicas(keys: seq<string>, k: string)
    requires ClavesUnicas(keys)
    requires forall i :: 0 <= i < |keys| && !IsBlank(keys[i]) ==> !SameKey(keys[i], k)
    ensures ClavesUnicas(keys + [k])
  {
    var keys' := keys + [k];
    forall i, j | 0 <= i < j < |keys'| && !IsBlank(keys'[i])
      ensures !SameKey(keys'[i], keys'[j])
    {
      if j == |keys| {
        assert keys'[i] == keys[i] && keys'[j] == k;
      } else {
        assert keys'[i] == keys[i] && keys'[j] == keys[j];
      }
    }
  }
}
