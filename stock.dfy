/**
  The stock primitives of the article tab, stated on the list of articles a read returns:
  discounting a sale, reverting a purchase, replenishing a discount and recording a
  purchase's price and quantity. Each either yields the new list or the error it raises;
  an error means nothing was written.
 */
module Stock {
  import opened Wrappers
  import opened Text
  import opened SheetTable
  import opened Records

  /** Whether a header row lets the stock writer find a stock column. */
  predicate HasStockColumn(headers: Row) {
    HeaderIndex(headers, STOCK_ALIASES) >= 0
  }

  /** Whether a header row lets the price-and-stock writer find both its columns. */
  predicate HasPrecioStockColumns(headers: Row) {
    HeaderIndex(headers, PRECIO_ALIASES) >= 0 && HeaderIndex(headers, STOCK_ALIASES) >= 0
  }

  /**
    `descontarStockArticulo` (`revert` false) and `restarStockArticulo` (`revert` true):
    a blank id or a quantity that is not positive changes nothing; otherwise the first
    article with that id loses `cantidad` units, unless that would leave it negative.
   */
  function Subtract(arts: seq<Articulo>, id: string, cantidad: int, revert: bool): (r: Result<seq<Articulo>, SheetError>)
    ensures r.Success? ==> |r.value| == |arts|
  {
    if IsBlank(id) || cantidad <= 0 then Success(arts)
    else
      var k := FindArticulo(arts, id);
      if k < 0 then Failure(NotFound(ARTICULO_NO_ENCONTRADO))
      else
        var nuevo := arts[k].stock - cantidad;
        if nuevo < 0 then
          Failure(if revert then InsufficientToRevert(arts[k].stock) else InsufficientStock(arts[k].stock, cantidad))
        else Success(arts[k := arts[k].(stock := nuevo)])
  }

  /**
    What `Subtract` yields, `r`, case by case: nothing changes for a blank id or a
    quantity that is not positive; an unknown article is 'not found'; a stock that would
    go negative is the insufficient-stock error of the caller; otherwise article `k`, the
    first with that id, loses `cantidad` units and no other article changes.
   */
  lemma {:induction false} SubtractSpec(arts: seq<Articulo>, id: string, cantidad: int, revert: bool,
                                        r: Result<seq<Articulo>, SheetError>, k: int)
    requires r == Subtract(arts, id, cantidad, revert) && k == FindArticulo(arts, id)
    ensures IsBlank(id) || cantidad <= 0 ==> r == Success(arts)
    ensures !IsBlank(id) && cantidad > 0 ==>
              (r == Failure(NotFound(ARTICULO_NO_ENCONTRADO)) <==> !ArticuloExiste(arts, id))
    ensures r.Success? ==> forall j :: 0 <= j < |arts| && j != k ==> r.value[j] == arts[j]
    ensures r.Success? && !IsBlank(id) && cantidad > 0 ==>
              0 <= k < |arts| && r.value[k] == arts[k].(stock := arts[k].stock - cantidad) && r.value[k].stock >= 0
    ensures r.Failure? && !r.error.NotFound? ==>
              0 <= k < |arts| && arts[k].stock < cantidad
              && r.error == (if revert then InsufficientToRevert(arts[k].stock) else InsufficientStock(arts[k].stock, cantidad))
  {
    ArticuloExisteIffFound(arts, id);
  }

  /**
    `reponerStockArticulo`: the first article with that id gains `cantidad` units. A blank
    id, a quantity that is not positive or an unknown article changes nothing and is no
    error; the only error is the stock writer's, when the tab has no stock column.
   */
  function Reposicion(headers: Row, arts: seq<Articulo>, id: string, cantidad: int): (r: Result<seq<Articulo>, SheetError>)
    ensures r.Success? ==> |r.value| == |arts|
  {
    if IsBlank(id) || cantidad <= 0 then Success(arts)
    else
      var k := FindArticulo(arts, id);
      if k < 0 then Success(arts)
      else if !HasStockColumn(headers) then Failure(MissingColumns(StockColumnsMessage(headers)))
      else Success(arts[k := arts[k].(stock := arts[k].stock + cantidad)])
  }

  /**
    What `Reposicion` yields, `r`, case by case: nothing changes for a blank id, a
    quantity that is not positive or an unknown article; a missing stock column is the
    only error; otherwise article `k`, the first with that id, gains `cantidad` units and
    no other article changes.
   */
  lemma {:induction false} ReposicionSpec(headers: Row, arts: seq<Articulo>, id: string, cantidad: int,
                                          r: Result<seq<Articulo>, SheetError>, k: int)
    requires r == Reposicion(headers, arts, id, cantidad) && k == FindArticulo(arts, id)
    ensures IsBlank(id) || cantidad <= 0 || !ArticuloExiste(arts, id) ==> r == Success(arts)
    ensures r.Failure? <==> !IsBlank(id) && cantidad > 0 && ArticuloExiste(arts, id) && !HasStockColumn(headers)
    ensures r.Failure? ==> r.error == MissingColumns(StockColumnsMessage(headers))
    ensures r.Success? ==> forall j :: 0 <= j < |arts| && j != k ==> r.value[j] == arts[j]
    ensures r.Success? && !IsBlank(id) && cantidad > 0 && ArticuloExiste(arts, id) ==>
              0 <= k < |arts| && r.value[k] == arts[k].(stock := arts[k].stock + cantidad)
  {
    ArticuloExisteIffFound(arts, id);
  }

  /**
    `actualizarPrecioYStockArticulo`: the first article with that id takes price `precio`
    and gains `cantidad` units. A blank id changes nothing; an unknown article or a tab
    without price or stock column is an error.
   */
  function PrecioYStock(headers: Row, arts: seq<Articulo>, id: string, precio: int, cantidad: int): (r: Result<seq<Articulo>, SheetError>)
    ensures r.Success? ==> |r.value| == |arts|
  {
    if IsBlank(id) then Success(arts)
    else
      var k := FindArticulo(arts, id);
      if k < 0 then Failure(NotFound(ARTICULO_NO_ENCONTRADO))
      else if !HasPrecioStockColumns(headers) then Failure(MissingColumns(PrecioStockColumnsMessage(headers)))
      else Success(arts[k := arts[k].(precio := precio, stock := arts[k].stock + cantidad)])
  }

  /**
    What `PrecioYStock` yields, `r`, case by case: nothing changes for a blank id, an
    unknown article and a missing column are the two errors, and a success changes
    article `k`, the first with that id, and no other.
   */
  lemma {:induction false} PrecioYStockSpec(headers: Row, arts: seq<Articulo>, id: string, precio: int, cantidad: int,
                                            r: Result<seq<Articulo>, SheetError>, k: int)
    requires r == PrecioYStock(headers, arts, id, precio, cantidad) && k == FindArticulo(arts, id)
    ensures IsBlank(id) ==> r == Success(arts)
    ensures !IsBlank(id) && !ArticuloExiste(arts, id) ==> r == Failure(NotFound(ARTICULO_NO_ENCONTRADO))
    ensures !IsBlank(id) && ArticuloExiste(arts, id) && !HasPrecioStockColumns(headers) ==>
              r == Failure(MissingColumns(PrecioStockColumnsMessage(headers)))
    ensures r.Success? <==> IsBlank(id) || (ArticuloExiste(arts, id) && HasPrecioStockColumns(headers))
    ensures r.Success? ==> forall j :: 0 <= j < |arts| && j != k ==> r.value[j] == arts[j]
    ensures r.Success? && !IsBlank(id) ==>
              0 <= k < |arts| && r.value[k] == arts[k].(precio := precio, stock := arts[k].stock + cantidad)
  {
    ArticuloExisteIffFound(arts, id);
  }

  /** A successful price-and-stock update on a known article, as one sequence update. */
  lemma {:induction false} PrecioYStockApplied(headers: Row, arts: seq<Articulo>, id: string, precio: int, cantidad: int, k: nat, n: int)
    requires !IsBlank(id) && HasPrecioStockColumns(headers)
    requires k == FindArticulo(arts, id) && n == arts[k].stock + cantidad
    ensures PrecioYStock(headers, arts, id, precio, cantidad) == Success(arts[k := arts[k].(precio := precio, stock := n)])
  {
  }

  /** A successful replenishment of a known article, as one sequence update. */
  lemma {:induction false} ReposicionApplied(headers: Row, arts: seq<Articulo>, id: string, cantidad: int, k: nat, n: int)
    requires !IsBlank(id) && cantidad > 0 && HasStockColumn(headers)
    requires k == FindArticulo(arts, id) && n == arts[k].stock + cantidad
    ensures Reposicion(headers, arts, id, cantidad) == Success(arts[k := arts[k].(stock := n)])
  {
  }

  /** Only stocks and prices change: every article keeps its id, so lookups find the same article. */
  lemma {:induction false} StockChangesKeepIds(arts: seq<Articulo>, arts': seq<Articulo>, id: string, k: int)
    requires |arts'| == |arts| && (k < 0 || k < |arts|)
    requires forall j :: 0 <= j < |arts| && j != k ==> arts'[j] == arts[j]
    requires 0 <= k ==> arts'[k].idarticulo == arts[k].idarticulo
    ensures FindArticulo(arts', id) == FindArticulo(arts, id)
    ensures ArticuloExiste(arts', id) <==> ArticuloExiste(arts, id)
  {
    FindArticuloIdsOnly(arts, arts', id);
    ArticuloExisteIffFound(arts, id);
    ArticuloExisteIffFound(arts', id);
  }

  /** Replenishing what a discount took restores the articles exactly. */
  lemma {:induction false} DescuentoThenReposicion(headers: Row, arts: seq<Articulo>, id: string, cantidad: int)
    requires Subtract(arts, id, cantidad, false).Success? && HasStockColumn(headers)
    ensures Reposicion(headers, Subtract(arts, id, cantidad, false).value, id, cantidad) == Success(arts)
  {
    var after := Subtract(arts, id, cantidad, false).value;
    if !IsBlank(id) && cantidad > 0 {
      var k := FindArticulo(arts, id);
      SubtractSpec(arts, id, cantidad, false, Subtract(arts, id, cantidad, false), k);
      StockChangesKeepIds(arts, after, id, k);
      ReposicionApplied(headers, after, id, cantidad, k, arts[k].stock);
      assert after[k := after[k].(stock := arts[k].stock)] == arts;
    } else {
      assert after == arts;
    }
  }

  /**
    Reverting a purchase's quantity after recording it restores every stock, but the
    article keeps the purchase's price: the old price is not written back.
   */
  lemma {:induction false} PrecioYStockThenSubtract(headers: Row, arts: seq<Articulo>, id: string, precio: int, cantidad: int)
    requires PrecioYStock(headers, arts, id, precio, cantidad).Success?
    requires !IsBlank(id) && cantidad > 0
    requires arts[FindArticulo(arts, id)].stock >= 0
    ensures var k := FindArticulo(arts, id);
            Subtract(PrecioYStock(headers, arts, id, precio, cantidad).value, id, cantidad, true)
            == Success(arts[k := arts[k].(precio := precio)])
  {
    var after := PrecioYStock(headers, arts, id, precio, cantidad).value;
    var k := FindArticulo(arts, id);
    StockChangesKeepIds(arts, after, id, k);
    assert after[k := after[k].(stock := after[k].stock - cantidad)] == arts[k := arts[k].(precio := precio)];
  }

  /** A discount or a revert never makes a stock negative, and leaves non-negative stocks non-negative. */
  lemma {:induction false} SubtractKeepsNonNegative(arts: seq<Articulo>, id: string, cantidad: int, revert: bool)
    requires forall j :: 0 <= j < |arts| ==> arts[j].stock >= 0
    requires Subtract(arts, id, cantidad, revert).Success?
    ensures forall j :: 0 <= j < |arts| ==> Subtract(arts, id, cantidad, revert).value[j].stock >= 0
  {
  }
}
