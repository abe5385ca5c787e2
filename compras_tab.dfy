/**
  The rows of the `compras` tab as the writers see them: which row an id designates, the
  merge of a partial update into the purchase found, and the cells a purchase is written as.
 */
module ComprasTab {
  import opened Wrappers
  import opened Text
  import opened SheetTable
  import opened Records
  import opened Ids

  const COMPRA_NO_ENCONTRADA: string := "Compra no encontrada"

  /** The `idcompra` column of the header row, or -1. */
  function IdCompraHeader(tab: Table): int {
    CompraCols(Headers(tab)).idcompra
  }

  /** The column the purchase writers search: the `idcompra` column, or column A when there is none. */
  function IdCompraCol(tab: Table): nat {
    if IdCompraHeader(tab) >= 0 then IdCompraHeader(tab) else 0
  }

  /**
    The row `actualizarCompra` and `eliminarCompra` act on, as written: the first data row
    whose cell in the id column (column A when the header has no `idcompra`) equals the
    trimmed id.
   */
  function LocateCompraAsWritten(tab: Table, key: string): (r: Result<nat, SheetError>)
    ensures r.Failure? ==> r.error == NotFound(COMPRA_NO_ENCONTRADA)
    ensures r.Success? ==> 1 <= r.value < |tab| && Cell(tab[r.value], IdCompraCol(tab)) == Trim(key)
                           && forall i :: 1 <= i < r.value ==> Cell(tab[i], IdCompraCol(tab)) != Trim(key)
    ensures r.Failure? ==> forall i :: 1 <= i < |tab| ==> Cell(tab[i], IdCompraCol(tab)) != Trim(key)
  {
    if |tab| < 2 then Failure(NotFound(COMPRA_NO_ENCONTRADA))
    else
      var i := FindRowExact(tab, IdCompraCol(tab), key);
      if i < 0 then Failure(NotFound(COMPRA_NO_ENCONTRADA)) else Success(i as nat)
  }

  /**
    The row the purchase writers should act on: the lookup as written when the header has
    an `idcompra` column; without one, the row whose number the id is, which is the id the
    list shows for that row (as for sales).
   */
  function LocateCompra(tab: Table, key: string): (r: Result<nat, SheetError>)
    ensures r.Failure? ==> r.error == NotFound(COMPRA_NO_ENCONTRADA)
    ensures r.Success? ==> 1 <= r.value < |tab|
    ensures IdCompraHeader(tab) >= 0 ==> r == LocateCompraAsWritten(tab, key)
    ensures IdCompraHeader(tab) < 0 && |tab| >= 2 ==>
              (r.Success? <==> ParseInt(key).Some? && 1 <= ParseInt(key).value < |tab|)
    ensures r.Success? && IdCompraHeader(tab) < 0 ==> ParseInt(key) == Some(r.value as int)
  {
    if IdCompraHeader(tab) >= 0 then LocateCompraAsWritten(tab, key)
    else if |tab| < 2 then Failure(NotFound(COMPRA_NO_ENCONTRADA))
    else
      var i := RowNumber(tab, key);
      if i < 0 then Failure(NotFound(COMPRA_NO_ENCONTRADA)) else Success(i as nat)
  }

  /** `compras.find(c => c.idcompra.trim() === key.trim())`, as an index (-1 when none). */
  function FindCompraFrom(compras: seq<CompraList>, key: string, from: nat): (j: int)
    decreases |compras| - from
    ensures j == -1 || from <= j < |compras|
    ensures j >= 0 ==> Trim(compras[j].idcompra) == Trim(key)
    ensures forall i :: from <= i < |compras| && (j < 0 || i < j) ==> Trim(compras[i].idcompra) != Trim(key)
  {
    if from >= |compras| then -1
    else if Trim(compras[from].idcompra) == Trim(key) then from
    else FindCompraFrom(compras, key, from + 1)
  }

  function FindCompraById(compras: seq<CompraList>, key: string): int {
    FindCompraFrom(compras, key, 0)
  }

  /** The purchase the search finds has the key. */
  lemma {:induction false} FoundCompraHolds(compras: seq<CompraList>, key: string)
    requires FindCompraById(compras, key) >= 0
    ensures FindCompraById(compras, key) < |compras|
    ensures Trim(compras[FindCompraById(compras, key)].idcompra) == Trim(key)
  {
  }

  /** A list whose first purchase has the id finds it first. */
  lemma {:induction false} FirstCompraFound(compras: seq<CompraList>, key: string)
    requires |compras| > 0 && Trim(compras[0].idcompra) == Trim(key)
    ensures FindCompraById(compras, key) == 0
  {
  }

  /** Purchase `j` of a read of the tab comes from data row `j + 1`. */
  lemma {:induction false} CompraOfRow(tab: Table, j: nat)
    requires j < |ParseCompras(tab)|
    ensures |tab| >= 2 && j + 1 < |tab|
    ensures ParseCompras(tab)[j] == ParseCompra(CompraCols(Headers(tab)), tab[j + 1], j)
  {
    CompraWithAt(CompraCols(Headers(tab)), tab, j);
  }

  /** With an `idcompra` column, the id a purchase is listed with is its cell in that column. */
  lemma {:induction false} ListedCompraIdMatches(tab: Table, j: nat, key: string)
    requires j < |ParseCompras(tab)| && IdCompraHeader(tab) >= 0
    ensures j + 1 < |tab|
    ensures Trim(ParseCompras(tab)[j].idcompra) == Trim(key) <==> Cell(tab[j + 1], IdCompraCol(tab)) == Trim(key)
  {
    CompraOfRow(tab, j);
    CellTrimmed(tab[j + 1], IdCompraCol(tab));
  }

  /**
    The row the corrected lookup locates is the row of the purchase the list shows under
    that id, whether or not the header has an `idcompra` column.
   */
  lemma {:induction false} LocateCompraFindsListed(tab: Table, key: string)
    requires FindCompraById(ParseCompras(tab), key) >= 0
    ensures LocateCompra(tab, key) == Success(FindCompraById(ParseCompras(tab), key) as nat + 1)
  {
    if IdCompraHeader(tab) >= 0 {
      LocateByIdCompraColumn(tab, key);
    } else {
      LocateCompraByRowNumber(tab, key);
    }
  }

  /**
    Conversely, with an `idcompra` column the row the writers locate holds the first
    purchase the list shows under that id.
   */
  lemma {:induction false} LocatedCompraListed(tab: Table, key: string)
    requires IdCompraHeader(tab) >= 0 && LocateCompra(tab, key).Success?
    ensures FindCompraById(ParseCompras(tab), key) == LocateCompra(tab, key).value - 1
  {
    var r := LocateCompra(tab, key).value;
    ListedCompraIdMatches(tab, r - 1, key);
    forall i | 0 <= i < r - 1
      ensures Trim(ParseCompras(tab)[i].idcompra) != Trim(key)
    {
      ListedCompraIdMatches(tab, i, key);
    }
  }

  lemma {:induction false} LocateByIdCompraColumn(tab: Table, key: string)
    requires FindCompraById(ParseCompras(tab), key) >= 0 && IdCompraHeader(tab) >= 0
    ensures LocateCompraAsWritten(tab, key) == Success(FindCompraById(ParseCompras(tab), key) as nat + 1)
  {
    ListedCompraRowFound(tab, key);
  }

  /** The first row whose id cell is the trimmed key is the row of the first purchase listed under it. */
  lemma {:induction false} ListedCompraRowFound(tab: Table, key: string)
    requires FindCompraById(ParseCompras(tab), key) >= 0 && IdCompraHeader(tab) >= 0
    ensures |tab| >= 2 && FindRowExact(tab, IdCompraCol(tab), key) == FindCompraById(ParseCompras(tab), key) + 1
  {
    var j: nat := FindCompraById(ParseCompras(tab), key);
    var col := IdCompraCol(tab);
    FoundCompraRowHolds(tab, key);
    forall r | 1 <= r < j + 1
      ensures Cell(tab[r], col) != Trim(key)
    {
      EarlierCompraRowDiffers(tab, key, r);
    }
    FindRowExactIs(tab, col, key, j + 1);
  }

  /** The row of the first purchase listed under the key holds the key. */
  lemma {:induction false} FoundCompraRowHolds(tab: Table, key: string)
    requires FindCompraById(ParseCompras(tab), key) >= 0 && IdCompraHeader(tab) >= 0
    ensures FindCompraById(ParseCompras(tab), key) + 1 < |tab|
    ensures Cell(tab[FindCompraById(ParseCompras(tab), key) + 1], IdCompraCol(tab)) == Trim(key)
  {
    var all := ParseCompras(tab);
    FoundCompraHolds(all, key);
    var j: nat := FindCompraById(all, key);
    ListedCompraIdMatches(tab, j, key);
  }

  /** A row above the row of the first purchase listed under the key does not hold the key. */
  lemma {:induction false} EarlierCompraRowDiffers(tab: Table, key: string, r: nat)
    requires 1 <= r <= FindCompraById(ParseCompras(tab), key) && IdCompraHeader(tab) >= 0
    ensures r < |tab| && Cell(tab[r], IdCompraCol(tab)) != Trim(key)
  {
    var i := r - 1;
    ListedCompraIdMatches(tab, i, key);
    assert i + 1 == r;
  }

  /** Without an `idcompra` column a purchase is listed under its row number, which `parseInt` reads back. */
  lemma {:induction false} LocateCompraByRowNumber(tab: Table, key: string)
    requires FindCompraById(ParseCompras(tab), key) >= 0 && IdCompraHeader(tab) < 0
    ensures LocateCompra(tab, key) == Success(FindCompraById(ParseCompras(tab), key) as nat + 1)
  {
    var j: nat := FindCompraById(ParseCompras(tab), key);
    var n: nat := j + 1;
    CompraOfRow(tab, j);
    assert ParseCompras(tab)[j].idcompra == IntToString(n) == NatToString(n);
    TrimIntToString(n);
    ParseIntOfTrimmed(key, n);
  }

  /**
    A tab without an `idcompra` header whose column A holds numbers of its own: the list
    shows its purchases as "1" and "2", in row order.
   */
  const SIN_IDCOMPRA: Table := [["codigo"], ["2"], ["1"]]

  /**
    The lookup as written acts on another purchase than the one listed: the list shows the
    purchase of data row 1 as "1", but the writers search column A for "1" and find data
    row 2, so `eliminarCompra("1")` deletes the other purchase and `actualizarCompra("1", …)`
    writes the first purchase's merged fields over the second.
   */
  lemma {:induction false} AsWrittenLocatesOtherPurchase()
    ensures FindCompraById(ParseCompras(SIN_IDCOMPRA), "1") == 0
    ensures LocateCompraAsWritten(SIN_IDCOMPRA, "1") == Success(2)
  {
    SinIdCompraListed();
    SinIdCompraAsWritten();
  }

  lemma {:induction false} SinIdCompraAsWritten()
    ensures LocateCompraAsWritten(SIN_IDCOMPRA, "1") == Success(2)
  {
    SinIdCompraHeader();
    SinIdCompraColumnA();
    FindRowExactIs(SIN_IDCOMPRA, 0, "1", 2);
  }

  /** The header "codigo" is not an `idcompra` alias, so the list numbers the purchases. */
  lemma {:induction false} SinIdCompraListed()
    ensures FindCompraById(ParseCompras(SIN_IDCOMPRA), "1") == 0
  {
    var tab := SIN_IDCOMPRA;
    SinIdCompraHeader();
    assert IntToString(1) == "1";
    CompraOfRow(tab, 0);
    assert ParseCompras(tab)[0].idcompra == "1";
    SinIdCompraColumnA();
    FirstCompraFound(ParseCompras(tab), "1");
  }

  lemma {:induction false} SinIdCompraHeader()
    ensures IdCompraHeader(SIN_IDCOMPRA) == -1 && IdCompraCol(SIN_IDCOMPRA) == 0
  {
    assert Trim("codigo") == "codigo" by { TrimIdempotent("codigo"); }
    assert Headers(SIN_IDCOMPRA) == ["codigo"];
    assert Lower("codigo") == "codigo";
  }

  /** Column A of the example holds "2" and then "1". */
  lemma {:induction false} SinIdCompraColumnA()
    ensures Cell(SIN_IDCOMPRA[1], 0) == "2" && Cell(SIN_IDCOMPRA[2], 0) == "1" && Trim("1") == "1"
  {
    assert Trim("1") == "1" by { TrimIdempotent("1"); }
    assert Trim("2") == "2" by { TrimIdempotent("2"); }
  }

  // ---------------------------------------------------------------------------
  // actualizarCompra

  /** `Partial<Omit<CompraList, 'idcompra'>>`: each field may be left out. */
  datatype CompraPatch = CompraPatch(
    fecha: Option<string>,
    proveedor: Option<string>,
    idarticulo: Option<string>,
    articulo: Option<string>,
    cantidad: Option<int>,
    precio: Option<int>)

  const COMPRA_SIN_CAMBIOS: CompraPatch := CompraPatch(None, None, None, None, None, None)

  /** Every field the patch gives replaces the purchase's; the id is always kept. */
  function MergeCompra(actual: CompraList, p: CompraPatch): (r: CompraList)
    ensures r.idcompra == actual.idcompra
  {
    CompraList(
      actual.idcompra,
      p.fecha.GetOr(actual.fecha),
      p.proveedor.GetOr(actual.proveedor),
      p.idarticulo.GetOr(actual.idarticulo),
      p.articulo.GetOr(actual.articulo),
      p.cantidad.GetOr(actual.cantidad),
      p.precio.GetOr(actual.precio))
  }

  /** An empty patch changes nothing, and applying a patch twice is applying it once. */
  lemma {:induction false} MergeCompraLaws(actual: CompraList, p: CompraPatch)
    ensures MergeCompra(actual, COMPRA_SIN_CAMBIOS) == actual
    ensures MergeCompra(MergeCompra(actual, p), p) == MergeCompra(actual, p)
  {
  }

  /** The cells `A:G` a purchase is written as. */
  function CompraValues(c: CompraList): Row {
    [c.idcompra, c.fecha, c.proveedor, c.idarticulo, c.articulo, IntToString(c.cantidad), IntToString(c.precio)]
  }

  /** The layout the purchase writers rely on: the seven fields in columns A to G, in order. */
  predicate CompraLayout(c: CompraColumns) {
    c == CompraColumns(0, 1, 2, 3, 4, 5, 6)
  }

  predicate CompraTrimmed(c: CompraList) {
    Trim(c.idcompra) == c.idcompra && Trim(c.fecha) == c.fecha && Trim(c.proveedor) == c.proveedor
    && Trim(c.idarticulo) == c.idarticulo && Trim(c.articulo) == c.articulo
  }

  /** In the layout the writers rely on, a row that starts with a purchase's cells reads back as that purchase. */
  lemma {:induction false} CompraRowReadBack(cols: CompraColumns, c: CompraList, row: Row, i: nat)
    requires CompraLayout(cols) && CompraTrimmed(c)
    requires |row| >= 7 && row[..7] == CompraValues(c)
    ensures ParseCompra(cols, row, i) == c
  {
    assert forall j :: 0 <= j < 7 ==> row[j] == CompraValues(c)[j];
    NumAfterWrite(c.cantidad);
    NumAfterWrite(c.precio);
  }

  /**
    `actualizarCompra` seen through `getCompras`: writing a purchase's cells over data row
    `k + 1` replaces exactly the purchase listed from that row, in the layout the writers rely on.
   */
  lemma {:induction false} CompraRowRewritten(tab: Table, k: nat, c: CompraList)
    requires k + 1 < |tab| && CompraLayout(CompraCols(Headers(tab))) && CompraTrimmed(c)
    ensures ParseCompras(tab[k + 1 := WriteRange(tab[k + 1], CompraValues(c))]) == ParseCompras(tab)[k := c]
  {
    var row := WriteRange(tab[k + 1], CompraValues(c));
    ComprasAfterRowUpdate(tab, k, row);
    CompraRowReadBack(CompraCols(Headers(tab)), c, row, k);
  }

  /**
    `actualizarCompra` as a whole, seen through `getCompras`: the purchase listed first under
    the old id lies on data row `k + 1`; with an `idcompra` column that is the row the lookup as
    written locates, and rewriting it with the merged purchase replaces that purchase in the
    list and no other. Without one the lookup searches column A instead
    (`AsWrittenLocatesOtherPurchase`).
   */
  lemma {:induction false} CompraActualizada(tab: Table, key: string, patch: CompraPatch, k: nat, nueva: CompraList)
    requires FindCompraById(ParseCompras(tab), key) == k
    requires k < |ParseCompras(tab)| ==> nueva == MergeCompra(ParseCompras(tab)[k], patch)
    ensures k + 1 < |tab|
    ensures IdCompraHeader(tab) >= 0 ==> LocateCompraAsWritten(tab, key) == Success(k + 1)
    ensures CompraLayout(CompraCols(Headers(tab))) && CompraTrimmed(nueva) ==>
              ParseCompras(tab[k + 1 := WriteRange(tab[k + 1], CompraValues(nueva))]) == ParseCompras(tab)[k := nueva]
  {
    FoundCompraHolds(ParseCompras(tab), key);
    if IdCompraHeader(tab) >= 0 {
      LocateByIdCompraColumn(tab, key);
    }
    if CompraLayout(CompraCols(Headers(tab))) && CompraTrimmed(nueva) {
      CompraRowRewritten(tab, k, nueva);
    }
  }

  /**
    The same with the corrected lookup: whether or not the header has an `idcompra` column,
    the row it locates is that of the first purchase listed under the old id.
   */
  lemma {:induction false} CompraActualizadaCorregida(tab: Table, key: string, patch: CompraPatch, k: nat, nueva: CompraList)
    requires FindCompraById(ParseCompras(tab), key) == k
    requires k < |ParseCompras(tab)| ==> nueva == MergeCompra(ParseCompras(tab)[k], patch)
    ensures k + 1 < |tab| && LocateCompra(tab, key) == Success(k + 1)
    ensures CompraLayout(CompraCols(Headers(tab))) && CompraTrimmed(nueva) ==>
              ParseCompras(tab[k + 1 := WriteRange(tab[k + 1], CompraValues(nueva))]) == ParseCompras(tab)[k := nueva]
  {
    FoundCompraHolds(ParseCompras(tab), key);
    LocateCompraFindsListed(tab, key);
    if CompraLayout(CompraCols(Headers(tab))) && CompraTrimmed(nueva) {
      CompraRowRewritten(tab, k, nueva);
    }
  }

  /** Replacing one data row changes the purchase read from that row only. */
  lemma {:induction false} ComprasAfterRowUpdate(tab: Table, k: nat, row: Row)
    requires k + 1 < |tab|
    ensures ParseCompras(tab[k + 1 := row]) == ParseCompras(tab)[k := ParseCompra(CompraCols(Headers(tab)), row, k)]
  {
    HeadersAfterRowUpdate(tab, k + 1, row);
    ComprasWithRewritten(CompraCols(Headers(tab)), tab, k, row);
  }

  /** A row appended to a tab with a header row adds one purchase at the end and leaves the others. */
  lemma {:induction false} AppendedCompra(tab: Table, row: Row)
    requires |tab| >= 1
    ensures ParseCompras(tab + [row]) == ParseCompras(tab) + [ParseCompra(CompraCols(Headers(tab)), row, |tab| - 1)]
  {
    assert (tab + [row])[0] == tab[0];
    ComprasWithAppended(CompraCols(Headers(tab)), tab, row);
  }

  /**
    Deleting a data row of a tab with an `idcompra` column removes exactly the purchase read
    from it; the other purchases keep their order and their ids.
   */
  lemma {:induction false} ComprasAfterRemoval(tab: Table, r: nat)
    requires 1 <= r < |tab| && IdCompraHeader(tab) >= 0
    ensures ParseCompras(RemoveRow(tab, r)) == ParseCompras(tab)[..r - 1] + ParseCompras(tab)[r..]
  {
    assert RemoveRow(tab, r)[0] == tab[0];
    ComprasWithRemoved(CompraCols(Headers(tab)), tab, r);
  }

  /** The ids of a list of purchases. */
  function CompraIds(compras: seq<CompraList>): (ids: seq<string>)
    ensures |ids| == |compras| && forall j :: 0 <= j < |compras| ==> ids[j] == compras[j].idcompra
  {
    seq(|compras|, j requires 0 <= j < |compras| => compras[j].idcompra)
  }

  // ---------------------------------------------------------------------------
  // insertarCompra

  /** `Omit<CompraList, 'idcompra'>`: the purchase `insertarCompra` receives. */
  datatype CompraNueva = CompraNueva(
    fecha: string,
    proveedor: string,
    idarticulo: string,
    articulo: string,
    cantidad: int,
    precio: int)

  /** The purchase recorded for a new purchase under id `id`. */
  function CompraConId(id: string, c: CompraNueva): CompraList {
    CompraList(id, c.fecha, c.proveedor, c.idarticulo, c.articulo, c.cantidad, c.precio)
  }

  /**
    `insertarCompra` seen through `getCompras`: in the layout the writers rely on, the
    purchase appended under id `id` is listed last, exactly as given.
   */
  lemma {:induction false} InsertedCompraListed(tab: Table, id: string, c: CompraNueva)
    requires |tab| >= 1 && CompraLayout(CompraCols(Headers(tab))) && CompraTrimmed(CompraConId(id, c))
    ensures ParseCompras(tab + [CompraValues(CompraConId(id, c))]) == ParseCompras(tab) + [CompraConId(id, c)]
  {
    var row := CompraValues(CompraConId(id, c));
    assert row[..7] == row;
    AppendedCompra(tab, row);
    CompraRowReadBack(CompraCols(Headers(tab)), CompraConId(id, c), row, |tab| - 1);
  }

  /** The id `generarSiguienteIdCompra` gives for a tab. */
  function NextCompraId(tab: Table): string {
    NextId(CompraIds(ParseCompras(tab)))
  }

  /**
    A purchase appended with the generated id, to a tab whose `idcompra` column is column A,
    is the row the writers then locate under that id.
   */
  lemma {:induction false} InsertedCompraLocated(tab: Table, c: CompraNueva)
    requires |tab| >= 1 && IdCompraHeader(tab) == 0
    ensures var id := NextCompraId(tab);
            LocateCompraAsWritten(tab + [CompraValues(CompraConId(id, c))], id) == Success(|tab|)
  {
    var id := NextCompraId(tab);
    var row := CompraValues(CompraConId(id, c));
    var tab' := tab + [row];
    assert tab'[0] == tab[0];
    assert Headers(tab') == Headers(tab);
    NextCompraIdFresh(tab);
    SiguienteIdTrimmed(CompraIds(ParseCompras(tab)));
    assert Cell(tab'[|tab|], 0) == Trim(id);
    forall i | 1 <= i < |tab|
      ensures Cell(tab'[i], 0) != Trim(id)
    {
      assert tab'[i] == tab[i];
    }
    FindRowExactIs(tab', 0, id, |tab|);
  }

  /** No data row holds the generated id in the `idcompra` column. */
  lemma {:induction false} NextCompraIdFresh(tab: Table)
    requires IdCompraHeader(tab) == 0
    ensures forall i :: 1 <= i < |tab| ==> Cell(tab[i], 0) != Trim(NextCompraId(tab))
  {
    var id := Trim(NextCompraId(tab));
    forall j | 0 <= j < |tab| - 1
      ensures Cell(tab[1..][j], 0) != id
    {
      NextCompraIdFreshAt(tab, j);
    }
    ColumnAvoids(tab, 0, id);
  }

  lemma {:induction false} NextCompraIdFreshAt(tab: Table, j: nat)
    requires IdCompraHeader(tab) == 0 && j + 1 < |tab|
    ensures Cell(tab[j + 1], 0) != Trim(NextCompraId(tab))
  {
    var id := NextCompraId(tab);
    var ids := CompraIds(ParseCompras(tab));
    SiguienteIdFresh(ids, j);
    SiguienteIdTrimmed(ids);
    ListedCompraIdMatches(tab, j, id);
  }
}
