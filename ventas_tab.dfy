/**
  The rows of the `ventas` tab as the writers see them: which row an id designates, the
  merge of a partial update into the sale found, and the cells a sale is written as.
 */
module VentasTab {
  import opened Wrappers
  import opened Text
  import opened SheetTable
  import opened Records
  import opened Ids

  const VENTA_NO_ENCONTRADA: string := "Venta no encontrada"

  /** The column the sale writers look ids up in: `idventa`, compared without trimming the header. */
  function IdVentaCol(tab: Table): int {
    ExactHeaderIndex(Headers(tab), "idventa")
  }

  /**
    The row `eliminarVenta` and `actualizarVenta` act on. With an `idventa` column it is the
    first data row whose cell equals the trimmed id; without one, the id is read as a row
    number with `parseInt` and must designate a data row.
   */
  function LocateVenta(tab: Table, key: string): (r: Result<nat, SheetError>)
    ensures r.Failure? ==> r.error == NotFound(VENTA_NO_ENCONTRADA)
    ensures r.Success? ==> 1 <= r.value < |tab|
    ensures |tab| >= 2 && IdVentaCol(tab) >= 0 ==>
              (r.Success? <==> exists i :: 1 <= i < |tab| && Cell(tab[i], IdVentaCol(tab)) == Trim(key))
    ensures r.Success? && IdVentaCol(tab) >= 0 ==>
              Cell(tab[r.value], IdVentaCol(tab)) == Trim(key)
              && forall i :: 1 <= i < r.value ==> Cell(tab[i], IdVentaCol(tab)) != Trim(key)
    ensures |tab| >= 2 && IdVentaCol(tab) < 0 ==>
              (r.Success? <==> ParseInt(key).Some? && 1 <= ParseInt(key).value < |tab|)
    ensures r.Success? && IdVentaCol(tab) < 0 ==> ParseInt(key) == Some(r.value as int)
  {
    if |tab| < 2 then Failure(NotFound(VENTA_NO_ENCONTRADA))
    else
      var col := IdVentaCol(tab);
      if col >= 0 then
        var i := FindRowExact(tab, col, key);
        if i < 0 then Failure(NotFound(VENTA_NO_ENCONTRADA)) else Success(i as nat)
      else
        var i := RowNumber(tab, key);
        if i < 0 then Failure(NotFound(VENTA_NO_ENCONTRADA)) else Success(i as nat)
  }

  /** `ventas.find(v => v.idventa.trim() === key.trim())`, as an index (-1 when none). */
  function FindVentaFrom(ventas: seq<VentaList>, key: string, from: nat): (j: int)
    decreases |ventas| - from
    ensures j == -1 || from <= j < |ventas|
    ensures j >= 0 ==> Trim(ventas[j].idventa) == Trim(key)
    ensures forall i :: from <= i < |ventas| && (j < 0 || i < j) ==> Trim(ventas[i].idventa) != Trim(key)
  {
    if from >= |ventas| then -1
    else if Trim(ventas[from].idventa) == Trim(key) then from
    else FindVentaFrom(ventas, key, from + 1)
  }

  function FindVentaById(ventas: seq<VentaList>, key: string): int {
    FindVentaFrom(ventas, key, 0)
  }

  /** The sale the search finds has the key. */
  lemma {:induction false} FoundVentaHolds(ventas: seq<VentaList>, key: string)
    requires FindVentaById(ventas, key) >= 0
    ensures FindVentaById(ventas, key) < |ventas|
    ensures Trim(ventas[FindVentaById(ventas, key)].idventa) == Trim(key)
  {
  }

  /** Sale `j` of a read of the tab comes from data row `j + 1`. */
  lemma {:induction false} VentaOfRow(tab: Table, j: nat)
    requires j < |ParseVentas(tab)|
    ensures |tab| >= 2 && j + 1 < |tab|
    ensures ParseVentas(tab)[j] == ParseVenta(VentaCols(Headers(tab)), tab[j + 1], j)
  {
    VentaWithAt(VentaCols(Headers(tab)), tab, j);
  }

  /** The id a sale is listed with, compared as the writers compare it. */
  lemma {:induction false} ListedIdMatches(tab: Table, j: nat, key: string)
    requires j < |ParseVentas(tab)| && IdVentaCol(tab) >= 0
    ensures j + 1 < |tab|
    ensures Trim(ParseVentas(tab)[j].idventa) == Trim(key) <==> Cell(tab[j + 1], IdVentaCol(tab)) == Trim(key)
  {
    VentaOfRow(tab, j);
    CellTrimmed(tab[j + 1], IdVentaCol(tab));
  }

  /**
    The row the writers locate is the row of the sale the list shows under that id: when
    the list has a sale with that (trimmed) id, the lookup succeeds on its data row.
   */
  lemma {:induction false} LocateVentaFindsListed(tab: Table, key: string)
    requires FindVentaById(ParseVentas(tab), key) >= 0
    ensures LocateVenta(tab, key) == Success(FindVentaById(ParseVentas(tab), key) as nat + 1)
  {
    if IdVentaCol(tab) >= 0 {
      LocateByIdVentaColumn(tab, key);
    } else {
      LocateByRowNumber(tab, key);
    }
  }

  lemma {:induction false} LocateByIdVentaColumn(tab: Table, key: string)
    requires FindVentaById(ParseVentas(tab), key) >= 0 && IdVentaCol(tab) >= 0
    ensures LocateVenta(tab, key) == Success(FindVentaById(ParseVentas(tab), key) as nat + 1)
  {
    ListedVentaRowFound(tab, key);
  }

  /** The first row whose id cell is the trimmed key is the row of the first sale listed under it. */
  lemma {:induction false} ListedVentaRowFound(tab: Table, key: string)
    requires FindVentaById(ParseVentas(tab), key) >= 0 && IdVentaCol(tab) >= 0
    ensures |tab| >= 2 && FindRowExact(tab, IdVentaCol(tab), key) == FindVentaById(ParseVentas(tab), key) + 1
  {
    var j: nat := FindVentaById(ParseVentas(tab), key);
    var col := IdVentaCol(tab);
    FoundVentaRowHolds(tab, key);
    forall r | 1 <= r < j + 1
      ensures Cell(tab[r], col) != Trim(key)
    {
      EarlierVentaRowDiffers(tab, key, r);
    }
    FindRowExactIs(tab, col, key, j + 1);
  }

  /** The row of the first sale listed under the key holds the key. */
  lemma {:induction false} FoundVentaRowHolds(tab: Table, key: string)
    requires FindVentaById(ParseVentas(tab), key) >= 0 && IdVentaCol(tab) >= 0
    ensures FindVentaById(ParseVentas(tab), key) + 1 < |tab|
    ensures Cell(tab[FindVentaById(ParseVentas(tab), key) + 1], IdVentaCol(tab)) == Trim(key)
  {
    var all := ParseVentas(tab);
    FoundVentaHolds(all, key);
    var j: nat := FindVentaById(all, key);
    ListedIdMatches(tab, j, key);
  }

  /** A row above the row of the first sale listed under the key does not hold the key. */
  lemma {:induction false} EarlierVentaRowDiffers(tab: Table, key: string, r: nat)
    requires 1 <= r <= FindVentaById(ParseVentas(tab), key) && IdVentaCol(tab) >= 0
    ensures r < |tab| && Cell(tab[r], IdVentaCol(tab)) != Trim(key)
  {
    var i := r - 1;
    ListedIdMatches(tab, i, key);
    assert i + 1 == r;
  }

  /**
    Conversely, with an `idventa` column the row the writers locate holds the first sale
    the list shows under that id.
   */
  lemma {:induction false} LocatedVentaListed(tab: Table, key: string)
    requires IdVentaCol(tab) >= 0 && LocateVenta(tab, key).Success?
    ensures FindVentaById(ParseVentas(tab), key) == LocateVenta(tab, key).value - 1
  {
    var r := LocateVenta(tab, key).value;
    ListedIdMatches(tab, r - 1, key);
    forall i | 0 <= i < r - 1
      ensures Trim(ParseVentas(tab)[i].idventa) != Trim(key)
    {
      ListedIdMatches(tab, i, key);
    }
  }

  /** Without an `idventa` column a sale is listed under its row number, which `parseInt` reads back. */
  lemma {:induction false} LocateByRowNumber(tab: Table, key: string)
    requires FindVentaById(ParseVentas(tab), key) >= 0 && IdVentaCol(tab) < 0
    ensures LocateVenta(tab, key) == Success(FindVentaById(ParseVentas(tab), key) as nat + 1)
  {
    var j: nat := FindVentaById(ParseVentas(tab), key);
    var n: nat := j + 1;
    VentaOfRow(tab, j);
    assert ParseVentas(tab)[j].idventa == IntToString(n) == NatToString(n);
    TrimIntToString(n);
    ParseIntOfTrimmed(key, n);
  }

  // ---------------------------------------------------------------------------
  // actualizarVenta

  /** `Partial<Omit<VentaList, 'idventa'>>`: each field may be left out. */
  datatype VentaPatch = VentaPatch(
    fecha: Option<string>,
    idarticulo: Option<string>,
    nombre: Option<string>,
    cantidad: Option<int>,
    precioUnitario: Option<int>,
    total: Option<int>)

  const SIN_CAMBIOS: VentaPatch := VentaPatch(None, None, None, None, None, None)

  /** Every field the patch gives replaces the sale's; the id is always kept. */
  function MergeVenta(actual: VentaList, p: VentaPatch): (r: VentaList)
    ensures r.idventa == actual.idventa
  {
    VentaList(
      actual.idventa,
      p.fecha.GetOr(actual.fecha),
      p.idarticulo.GetOr(actual.idarticulo),
      p.nombre.GetOr(actual.nombre),
      p.cantidad.GetOr(actual.cantidad),
      p.precioUnitario.GetOr(actual.precioUnitario),
      p.total.GetOr(actual.total))
  }

  /** An empty patch changes nothing, and applying a patch twice is applying it once. */
  lemma {:induction false} MergeVentaLaws(actual: VentaList, p: VentaPatch)
    ensures MergeVenta(actual, SIN_CAMBIOS) == actual
    ensures MergeVenta(MergeVenta(actual, p), p) == MergeVenta(actual, p)
  {
  }

  /** The cells `A:G` a sale is written as. */
  function VentaValues(v: VentaList): Row {
    [v.idventa, v.fecha, v.idarticulo, v.nombre, IntToString(v.cantidad), IntToString(v.precioUnitario), IntToString(v.total)]
  }

  /** The layout the sale writers rely on: the seven fields in columns A to G, in order. */
  predicate VentaLayout(c: VentaColumns) {
    c == VentaColumns(0, 1, 2, 3, 4, 5, 6)
  }

  predicate VentaTrimmed(v: VentaList) {
    Trim(v.idventa) == v.idventa && Trim(v.fecha) == v.fecha
    && Trim(v.idarticulo) == v.idarticulo && Trim(v.nombre) == v.nombre
  }

  /** In the layout the writers rely on, a row that starts with a sale's cells reads back as that sale. */
  lemma {:induction false} VentaRowReadBack(c: VentaColumns, v: VentaList, row: Row, i: nat)
    requires VentaLayout(c) && VentaTrimmed(v)
    requires |row| >= 7 && row[..7] == VentaValues(v)
    ensures ParseVenta(c, row, i) == v
  {
    assert forall j :: 0 <= j < 7 ==> row[j] == VentaValues(v)[j];
    NumAfterWrite(v.cantidad);
    NumAfterWrite(v.precioUnitario);
    NumAfterWrite(v.total);
  }

  /** Replacing one data row changes the sale read from that row only. */
  lemma {:induction false} VentasAfterRowUpdate(tab: Table, k: nat, row: Row)
    requires k + 1 < |tab|
    ensures ParseVentas(tab[k + 1 := row]) == ParseVentas(tab)[k := ParseVenta(VentaCols(Headers(tab)), row, k)]
  {
    HeadersAfterRowUpdate(tab, k + 1, row);
    VentasWithRewritten(VentaCols(Headers(tab)), tab, k, row);
  }

  /**
    `actualizarVenta` seen through `getVentas`: writing a sale's cells over data row `k + 1`
    replaces exactly the sale listed from that row, in the layout the writers rely on.
   */
  lemma {:induction false} VentaRowRewritten(tab: Table, k: nat, v: VentaList)
    requires k + 1 < |tab| && VentaLayout(VentaCols(Headers(tab))) && VentaTrimmed(v)
    ensures ParseVentas(tab[k + 1 := WriteRange(tab[k + 1], VentaValues(v))]) == ParseVentas(tab)[k := v]
  {
    var row := WriteRange(tab[k + 1], VentaValues(v));
    VentasAfterRowUpdate(tab, k, row);
    VentaRowReadBack(VentaCols(Headers(tab)), v, row, k);
  }

  /**
    `actualizarVenta` as a whole, seen through `getVentas`: the row it locates is that of the
    first sale listed under the old id, and rewriting it with the merged sale replaces that
    sale in the list and no other.
   */
  lemma {:induction false} VentaActualizada(tab: Table, key: string, patch: VentaPatch, k: nat, nueva: VentaList)
    requires FindVentaById(ParseVentas(tab), key) == k
    requires k < |ParseVentas(tab)| ==> nueva == MergeVenta(ParseVentas(tab)[k], patch)
    ensures k + 1 < |tab| && LocateVenta(tab, key) == Success(k + 1)
    ensures VentaLayout(VentaCols(Headers(tab))) && VentaTrimmed(nueva) ==>
              ParseVentas(tab[k + 1 := WriteRange(tab[k + 1], VentaValues(nueva))]) == ParseVentas(tab)[k := nueva]
  {
    FoundVentaHolds(ParseVentas(tab), key);
    LocateVentaFindsListed(tab, key);
    if VentaLayout(VentaCols(Headers(tab))) && VentaTrimmed(nueva) {
      VentaRowRewritten(tab, k, nueva);
    }
  }

  /** A row appended to a tab with a header row adds one sale at the end and leaves the others. */
  lemma {:induction false} AppendedVenta(tab: Table, row: Row)
    requires |tab| >= 1
    ensures ParseVentas(tab + [row]) == ParseVentas(tab) + [ParseVenta(VentaCols(Headers(tab)), row, |tab| - 1)]
  {
    assert (tab + [row])[0] == tab[0];
    VentasWithAppended(VentaCols(Headers(tab)), tab, row);
  }

  /**
    Deleting a data row of a tab with an `idventa` column removes exactly the sale read
    from it; the other sales keep their order and their ids.
   */
  lemma {:induction false} VentasAfterRemoval(tab: Table, r: nat)
    requires 1 <= r < |tab| && IdVentaCol(tab) >= 0
    ensures ParseVentas(RemoveRow(tab, r)) == ParseVentas(tab)[..r - 1] + ParseVentas(tab)[r..]
  {
    assert RemoveRow(tab, r)[0] == tab[0];
    VentasWithRemoved(VentaCols(Headers(tab)), tab, r);
  }

  /** The ids of a list of sales. */
  function VentaIds(ventas: seq<VentaList>): (ids: seq<string>)
    ensures |ids| == |ventas| && forall j :: 0 <= j < |ventas| ==> ids[j] == ventas[j].idventa
  {
    seq(|ventas|, j requires 0 <= j < |ventas| => ventas[j].idventa)
  }

  // ---------------------------------------------------------------------------
  // insertarVenta

  /**
    The sale `insertarVenta` receives. The sales route passes a multi-line object whose
    single-line fields are absent, so each of them may be missing; a missing value is
    written as an empty cell.
   */
  datatype VentaNueva = VentaNueva(
    fecha: string,
    articuloId: Option<string>,
    articuloNombre: Option<string>,
    cantidad: Option<int>,
    precioUnitario: Option<int>,
    total: Option<int>)

  /** The cells `A:G` appended for a new sale with id `id`. */
  function VentaNuevaValues(id: string, v: VentaNueva): Row {
    [id, v.fecha, OptionalCell(v.articuloId), OptionalCell(v.articuloNombre),
     OptionalNumberCell(v.cantidad), OptionalNumberCell(v.precioUnitario), OptionalNumberCell(v.total)]
  }

  /** The id `generarSiguienteIdVenta` gives for a tab. */
  function NextVentaId(tab: Table): string {
    NextId(VentaIds(ParseVentas(tab)))
  }

  /**
    A sale appended with the generated id, to a tab whose `idventa` column is column A,
    is the row the writers then locate under that id: the id is new, so no earlier row
    holds it.
   */
  lemma {:induction false} InsertedVentaLocated(tab: Table, v: VentaNueva)
    requires |tab| >= 1 && IdVentaCol(tab) == 0
    ensures var id := NextVentaId(tab);
            LocateVenta(tab + [VentaNuevaValues(id, v)], id) == Success(|tab|)
  {
    var id := NextVentaId(tab);
    var tab' := tab + [VentaNuevaValues(id, v)];
    assert tab'[0] == tab[0];
    assert Headers(tab') == Headers(tab);
    NextVentaIdFresh(tab);
    SiguienteIdTrimmed(VentaIds(ParseVentas(tab)));
    assert Cell(tab'[|tab|], 0) == Trim(id);
    forall i | 1 <= i < |tab|
      ensures Cell(tab'[i], 0) != Trim(id)
    {
      assert tab'[i] == tab[i];
    }
    FindRowExactIs(tab', 0, id, |tab|);
  }

  /** No data row holds the generated id in the `idventa` column. */
  lemma {:induction false} NextVentaIdFresh(tab: Table)
    requires IdVentaCol(tab) == 0
    ensures forall i :: 1 <= i < |tab| ==> Cell(tab[i], 0) != Trim(NextVentaId(tab))
  {
    var id := Trim(NextVentaId(tab));
    forall j | 0 <= j < |tab| - 1
      ensures Cell(tab[1..][j], 0) != id
    {
      NextVentaIdFreshAt(tab, j);
    }
    ColumnAvoids(tab, 0, id);
  }

  lemma {:induction false} NextVentaIdFreshAt(tab: Table, j: nat)
    requires IdVentaCol(tab) == 0 && j + 1 < |tab|
    ensures Cell(tab[j + 1], 0) != Trim(NextVentaId(tab))
  {
    var id := NextVentaId(tab);
    var ids := VentaIds(ParseVentas(tab));
    ListedIdMatches(tab, j, id);
    SiguienteIdFresh(ids, j);
    SiguienteIdTrimmed(ids);
  }
}
