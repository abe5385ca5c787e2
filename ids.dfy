/**
  Sequential ids for sales, purchases and clients: the next id is one more than the
  largest id `parseInt` can read, counting from 0 when none can be read.
 */
module Ids {
  import opened Wrappers
  import opened Text

  /** The largest number `parseInt` reads from the ids, and 0 when that is larger. */
  function MaxParsed(ids: seq<string>): nat {
    if ids == [] then 0 else Larger(MaxParsed(ids[..|ids| - 1]), ParseInt(ids[|ids| - 1]))
  }

  /** The maximum bounds every number read from an id. */
  lemma {:induction false} MaxParsedBound(ids: seq<string>, i: nat)
    requires i < |ids|
    ensures Below(ParseInt(ids[i]), MaxParsed(ids))
  {
    var init := ids[..|ids| - 1];
    if i < |init| {
      MaxParsedBound(init, i);
      assert init[i] == ids[i];
    }
  }

  /** The maximum is 0 or attained: some id reads as it. */
  lemma {:induction false} MaxParsedAttained(ids: seq<string>)
    ensures var m := MaxParsed(ids);
            m == 0 || exists i :: 0 <= i < |ids| && ParseInt(ids[i]) == Some(m as int)
  {
    if ids != [] {
      var init := ids[..|ids| - 1];
      MaxParsedAttained(init);
      var m := MaxParsed(init);
      if MaxParsed(ids) != m {
        assert ParseInt(ids[|ids| - 1]) == Some(MaxParsed(ids) as int);
      } else if m != 0 {
        var i :| 0 <= i < |init| && ParseInt(init[i]) == Some(m as int);
        assert ids[i] == init[i];
      }
    }
  }

  /** A number read, if any, is at most `m`. */
  predicate Below(p: Option<int>, m: int) {
    p.Some? ==> p.value <= m
  }

  /** One step of the running maximum. */
  function Larger(m: nat, p: Option<int>): (r: nat)
    ensures Below(p, r) && m <= r
    ensures r == m || p == Some(r as int)
  {
    if p.Some? && p.value > m then p.value else m
  }

  /**
    The loop of `generarSiguienteIdVenta`, `generarSiguienteIdCompra` and
    `generarSiguienteIdCliente`: the running maximum starts at 0 and takes every larger
    number read; the result is its successor in decimal.
   */
  method SiguienteId(ids: seq<string>) returns (id: string)
    ensures id == NextId(ids)
  {
    var max := 0;
    for i := 0 to |ids|
      invariant max == MaxParsed(ids[..i])
    {
      assert ids[..i + 1][..i] == ids[..i];
      var n := ParseInt(ids[i]);
      if n.Some? && n.value > max {
        max := n.value;
      }
      assert max == Larger(MaxParsed(ids[..i]), n);
    }
    assert ids[..|ids|] == ids;
    id := IntToString(max + 1);
  }

  /** The id `generarSiguienteId*` gives for a list of ids. */
  function NextId(ids: seq<string>): string {
    IntToString(MaxParsed(ids) + 1)
  }

  /**
    The new id is new: no existing id trims to it, so the exact lookups of the sales and
    purchases tabs find no earlier row under it.
   */
  lemma {:induction false} SiguienteIdFresh(ids: seq<string>, i: nat)
    requires i < |ids|
    ensures Trim(ids[i]) != NextId(ids)
  {
    SiguienteIdFreshLower(ids, i);
  }

  /**
    No existing id matches the new one case-insensitively either, so the lookup of the
    clients tab finds no earlier row under it.
   */
  lemma {:induction false} SiguienteIdFreshLower(ids: seq<string>, i: nat)
    requires i < |ids|
    ensures Lower(Trim(ids[i])) != Lower(Trim(NextId(ids)))
    ensures Trim(NextId(ids)) == NextId(ids)
  {
    var n: nat := MaxParsed(ids) + 1;
    var d := IntToString(n);
    assert d == NatToString(n);
    TrimIntToString(n);
    MaxParsedBound(ids, i);
    if Lower(Trim(ids[i])) == Lower(d) {
      assert Lower(d) == d;
      LowerDigits(Trim(ids[i]), d);
      ParseIntOfTrimmed(ids[i], n);
      assert false;
    }
  }

  /** A trimmed cell holding one of the ids never matches the new id case-insensitively. */
  lemma {:induction false} SiguienteIdFreshCell(ids: seq<string>, i: nat, cell: string)
    requires i < |ids| && ids[i] == cell && Trim(cell) == cell
    ensures Lower(cell) != Lower(Trim(NextId(ids)))
  {
    SiguienteIdFreshLower(ids, i);
  }

  /** The new id is written without surrounding blanks. */
  lemma {:induction false} SiguienteIdTrimmed(ids: seq<string>)
    ensures Trim(NextId(ids)) == NextId(ids)
  {
    TrimIntToString(MaxParsed(ids) + 1);
  }
}
