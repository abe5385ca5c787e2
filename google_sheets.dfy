/**
  The data layer of the application: a spreadsheet with the tabs `articulos`, `ventas`,
  `compras`, `proveedores` and `clientes`. Every operation reads a whole tab, works out
  the columns from its header row, and then appends a row, rewrites cells of one row or
  deletes one row.
 */
module GoogleSheets {
  import opened Wrappers
  import opened Text
  import opened SheetTable
  import opened Records
  import opened Stock
  import opened Ids
  import opened VentasTab
  import opened ComprasTab
  import opened ArticulosTab
  import opened Directorio

  /** The table after the stock writer puts `n` into the stock cell of the row of article `k`. */
  function WithStock(tab: Table, k: nat, n: int): Table
    requires k + 1 < |tab| && HasStockColumn(Headers(tab))
  {
    tab[k + 1 := SetCell(tab[k + 1], HeaderIndex(Headers(tab), STOCK_ALIASES) as nat, IntToString(n))]
  }

  /** The table after the price-and-stock writer puts price `p` and stock `n` into the row of article `k`. */
  function WithPrecioStock(tab: Table, k: nat, p: int, n: int): Table
    requires k + 1 < |tab| && HasPrecioStockColumns(Headers(tab))
  {
    var h := Headers(tab);
    tab[k + 1 := SetCell(SetCell(tab[k + 1], HeaderIndex(h, PRECIO_ALIASES) as nat, IntToString(p)),
                         HeaderIndex(h, STOCK_ALIASES) as nat, IntToString(n))]
  }

  /** The stock writer leaves the header row alone. */
  lemma {:induction false} WithStockKeepsHeaders(tab: Table, k: nat, n: int)
    requires k + 1 < |tab| && HasStockColumn(Headers(tab))
    ensures Headers(WithStock(tab, k, n)) == Headers(tab)
  {
    HeadersAfterRowUpdate(tab, k + 1, WithStock(tab, k, n)[k + 1]);
  }

  /** The price-and-stock writer leaves the header row alone. */
  lemma {:induction false} WithPrecioStockKeepsHeaders(tab: Table, k: nat, p: int, n: int)
    requires k + 1 < |tab| && HasPrecioStockColumns(Headers(tab))
    ensures Headers(WithPrecioStock(tab, k, p, n)) == Headers(tab)
  {
    HeadersAfterRowUpdate(tab, k + 1, WithPrecioStock(tab, k, p, n)[k + 1]);
  }

  /** Two single-cell writes into the same row are one update of that row. */
  lemma {:induction false} TwoCellWrite(tab: Table, r: nat, c1: nat, v1: string, c2: nat, v2: string)
    requires r < |tab|
    ensures ParseA1(A1(c1, r)) == Some((c1, r)) && ParseA1(A1(c2, r)) == Some((c2, r))
    ensures WriteCell(WriteCell(tab, A1(c1, r), v1), A1(c2, r), v2) == tab[r := SetCell(SetCell(tab[r], c1, v1), c2, v2)]
  {
    A1RoundTrip(c1, r);
    A1RoundTrip(c2, r);
  }

  /**
    The price-and-stock write seen through the reader: exactly article `k` changes, to
    the new price and stock.
   */
  lemma {:induction false} PrecioStockWriteArticulos(tab: Table, k: nat, p: int, n: int)
    requires k < |ParseArticulos(tab)| && HasPrecioStockColumns(Headers(tab))
    ensures k + 1 < |tab|
    ensures ParseArticulos(WithPrecioStock(tab, k, p, n))
            == ParseArticulos(tab)[k := ParseArticulos(tab)[k].(precio := p, stock := n)]
  {
    PrecioStockWriteView(tab, k, p, n);
  }

  /**
    The cells the price-and-stock writer touches, seen through the reader: the two writes
    land on the row of the article found, and the articles read afterwards are those
    `PrecioYStock` yields.
   */
  lemma {:induction false} PrecioStockCells(tab: Table, id: string, p: int, cantidad: int, k: nat, n: int)
    requires !IsBlank(id) && HasPrecioStockColumns(Headers(tab))
    requires k == FindArticulo(ParseArticulos(tab), id) && n == ParseArticulos(tab)[k].stock + cantidad
    ensures k + 1 < |tab| && HeaderIndex(Headers(tab), ARTICULO_ID_WRITE_ALIASES) >= 0
    ensures FindRow(tab, HeaderIndex(Headers(tab), ARTICULO_ID_WRITE_ALIASES), id) == k + 1
    ensures PrecioYStock(Headers(tab), ParseArticulos(tab), id, p, cantidad) == Success(ParseArticulos(WithPrecioStock(tab, k, p, n)))
  {
    var arts := ParseArticulos(tab);
    ArticuloExisteIffFound(arts, id);
    WriterFindsArticulo(tab, id, id);
    PrecioStockWriteArticulos(tab, k, p, n);
    PrecioYStockApplied(Headers(tab), arts, id, p, cantidad, k, n);
  }

  /** An article with a positive stock was read from a stock column. */
  lemma {:induction false} StockColumnOfPositive(tab: Table, k: nat)
    requires k < |ParseArticulos(tab)| && ParseArticulos(tab)[k].stock > 0
    ensures HasStockColumn(Headers(tab))
  {
    if !HasStockColumn(Headers(tab)) {
      StockWithoutColumn(tab);
    }
  }

  /** The spreadsheet: one table per tab, each a header row followed by data rows. */
  class Spreadsheet {
    var articulos: Table
    var ventas: Table
    var compras: Table
    var proveedores: Table
    var clientes: Table

    constructor (articulos: Table, ventas: Table, compras: Table, proveedores: Table, clientes: Table)
      ensures this.articulos == articulos && this.ventas == ventas && this.compras == compras
      ensures this.proveedores == proveedores && this.clientes == clientes
    {
      this.articulos := articulos;
      this.ventas := ventas;
      this.compras := compras;
      this.proveedores := proveedores;
      this.clientes := clientes;
    }

    /** `getArticulos` */
    function Articulos(): seq<Articulo>
      reads this`articulos
    {
      ParseArticulos(articulos)
    }

    /** `getVentas` */
    function Ventas(): seq<VentaList>
      reads this`ventas
    {
      ParseVentas(ventas)
    }

    /** `getCompras` */
    function Compras(): seq<CompraList>
      reads this`compras
    {
      ParseCompras(compras)
    }

    /** `getProveedores` */
    function Proveedores(): seq<Proveedor>
      reads this`proveedores
    {
      ParseProveedores(proveedores)
    }

    /** `getClientes` */
    function Clientes(): seq<Cliente>
      reads this`clientes
    {
      ParseClientes(clientes)
    }

    /**
      `actualizarStockArticuloPorId`: writes `nuevoStock` into the stock cell of the first
      data row whose id matches, the cell addressed in A1 notation.
     */
    method ActualizarStockArticuloPorId(idarticulo: string, nuevoStock: int) returns (o: Outcome<SheetError>)
      modifies this`articulos
      ensures var h := Headers(old(articulos));
              var idCol := HeaderIndex(h, ARTICULO_ID_WRITE_ALIASES);
              var stockCol := HeaderIndex(h, STOCK_ALIASES);
              if |old(articulos)| < 2 then o == Fail(NotFound(ARTICULO_NO_ENCONTRADO))
              else if idCol < 0 || stockCol < 0 then o == Fail(MissingColumns(StockColumnsMessage(h)))
              else if FindRow(old(articulos), idCol, idarticulo) < 0 then o == Fail(NotFound(ARTICULO_NO_ENCONTRADO))
              else
                var r := FindRow(old(articulos), idCol, idarticulo);
                o == Pass && articulos == old(articulos)[r := SetCell(old(articulos)[r], stockCol, IntToString(nuevoStock))]
      ensures o.Fail? ==> articulos == old(articulos)
    {
      var rows := articulos;
      if |rows| < 2 {
        return Fail(NotFound(ARTICULO_NO_ENCONTRADO));
      }
      var headers := Headers(rows);
      var idCol := HeaderIndex(headers, ARTICULO_ID_WRITE_ALIASES);
      var stockCol := HeaderIndex(headers, STOCK_ALIASES);
      if idCol < 0 || stockCol < 0 {
        return Fail(MissingColumns(StockColumnsMessage(headers)));
      }
      var rowIndex := FindRow(rows, idCol, idarticulo);
      if rowIndex < 0 {
        return Fail(NotFound(ARTICULO_NO_ENCONTRADO));
      }
      var stockCell := A1(stockCol, rowIndex);
      A1RoundTrip(stockCol, rowIndex);
      articulos := WriteCell(rows, stockCell, IntToString(nuevoStock));
      return Pass;
    }

    /**
      The body shared by `descontarStockArticulo` and `restarStockArticulo`: read the
      articles, find the article, refuse a negative result, write the new stock.
     */
    method SubtractStock(idarticulo: string, cantidad: int, revert: bool) returns (o: Outcome<SheetError>)
      modifies this`articulos
      ensures var r := Subtract(old(Articulos()), idarticulo, cantidad, revert);
              (r.Success? ==> o == Pass && Articulos() == r.value)
              && (r.Failure? ==> o == Fail(r.error) && articulos == old(articulos))
      ensures o.Pass? && (IsBlank(idarticulo) || cantidad <= 0) ==> articulos == old(articulos)
      ensures o.Pass? && !IsBlank(idarticulo) && cantidad > 0 ==>
                var k := FindArticulo(old(Articulos()), idarticulo);
                0 <= k && k + 1 < |old(articulos)| && HasStockColumn(Headers(old(articulos)))
                && k < |Articulos()| && articulos == WithStock(old(articulos), k, Articulos()[k].stock)
    {
      var arts := ParseArticulos(articulos);
      if IsBlank(idarticulo) || cantidad <= 0 {
        return Pass;
      }
      var k := FindArticulo(arts, idarticulo);
      if k < 0 {
        ArticuloExisteIffFound(arts, idarticulo);
        return Fail(NotFound(ARTICULO_NO_ENCONTRADO));
      }
      var nuevoStock := arts[k].stock - cantidad;
      if nuevoStock < 0 {
        return Fail(if revert then InsufficientToRevert(arts[k].stock) else InsufficientStock(arts[k].stock, cantidad));
      }
      var tab := articulos;
      StockColumnOfPositive(tab, k);
      WriterFindsArticulo(tab, idarticulo, arts[k].idarticulo);
      StockWriteView(tab, k, nuevoStock);
      o := ActualizarStockArticuloPorId(arts[k].idarticulo, nuevoStock);
    }

    /** `descontarStockArticulo`: discount a sold quantity. */
    method DescontarStockArticulo(idarticulo: string, cantidad: int) returns (o: Outcome<SheetError>)
      modifies this`articulos
      ensures var r := Subtract(old(Articulos()), idarticulo, cantidad, false);
              (r.Success? ==> o == Pass && Articulos() == r.value)
              && (r.Failure? ==> o == Fail(r.error) && articulos == old(articulos))
      ensures o.Pass? && (IsBlank(idarticulo) || cantidad <= 0) ==> articulos == old(articulos)
      ensures o.Pass? && !IsBlank(idarticulo) && cantidad > 0 ==>
                var k := FindArticulo(old(Articulos()), idarticulo);
                0 <= k && k + 1 < |old(articulos)| && HasStockColumn(Headers(old(articulos)))
                && k < |Articulos()| && articulos == WithStock(old(articulos), k, Articulos()[k].stock)
    {
      o := SubtractStock(idarticulo, cantidad, false);
    }

    /** `restarStockArticulo`: take back the quantity of a purchase. */
    method RestarStockArticulo(idarticulo: string, cantidad: int) returns (o: Outcome<SheetError>)
      modifies this`articulos
      ensures var r := Subtract(old(Articulos()), idarticulo, cantidad, true);
              (r.Success? ==> o == Pass && Articulos() == r.value)
              && (r.Failure? ==> o == Fail(r.error) && articulos == old(articulos))
      ensures o.Pass? && (IsBlank(idarticulo) || cantidad <= 0) ==> articulos == old(articulos)
      ensures o.Pass? && !IsBlank(idarticulo) && cantidad > 0 ==>
                var k := FindArticulo(old(Articulos()), idarticulo);
                0 <= k && k + 1 < |old(articulos)| && HasStockColumn(Headers(old(articulos)))
                && k < |Articulos()| && articulos == WithStock(old(articulos), k, Articulos()[k].stock)
    {
      o := SubtractStock(idarticulo, cantidad, true);
    }

    /** `reponerStockArticulo`: give back a discounted quantity; an unknown article is ignored. */
    method ReponerStockArticulo(idarticulo: string, cantidad: int) returns (o: Outcome<SheetError>)
      modifies this`articulos
      ensures var r := Reposicion(Headers(old(articulos)), old(Articulos()), idarticulo, cantidad);
              (r.Success? ==> o == Pass && Articulos() == r.value)
              && (r.Failure? ==> o == Fail(r.error) && articulos == old(articulos))
      ensures o.Pass? && (IsBlank(idarticulo) || cantidad <= 0 || !ArticuloExiste(old(Articulos()), idarticulo)) ==>
                articulos == old(articulos)
      ensures o.Pass? && !IsBlank(idarticulo) && cantidad > 0 && ArticuloExiste(old(Articulos()), idarticulo) ==>
                var k := FindArticulo(old(Articulos()), idarticulo);
                0 <= k && k + 1 < |old(articulos)| && HasStockColumn(Headers(old(articulos)))
                && k < |Articulos()| && articulos == WithStock(old(articulos), k, Articulos()[k].stock)
    {
      var arts := ParseArticulos(articulos);
      ArticuloExisteIffFound(arts, idarticulo);
      if IsBlank(idarticulo) || cantidad <= 0 {
        return Pass;
      }
      var k := FindArticulo(arts, idarticulo);
      if k < 0 {
        return Pass;
      }
      var nuevoStock := arts[k].stock + cantidad;
      var tab := articulos;
      WriterFindsArticulo(tab, idarticulo, arts[k].idarticulo);
      if HasStockColumn(Headers(tab)) {
        StockWriteView(tab, k, nuevoStock);
        ReposicionApplied(Headers(tab), arts, idarticulo, cantidad, k, nuevoStock);
      }
      o := ActualizarStockArticuloPorId(arts[k].idarticulo, nuevoStock);
    }

    /**
      The batch update of two cells of row `r` of the article tab, each addressed in A1
      notation; the second write sees the first.
     */
    method WriteTwoCells(r: nat, c1: nat, v1: string, c2: nat, v2: string)
      requires r < |articulos|
      modifies this`articulos
      ensures articulos == old(articulos)[r := SetCell(SetCell(old(articulos)[r], c1, v1), c2, v2)]
    {
      TwoCellWrite(articulos, r, c1, v1, c2, v2);
      var first := A1(c1, r);
      var second := A1(c2, r);
      articulos := WriteCell(WriteCell(articulos, first, v1), second, v2);
    }

    /**
      `actualizarPrecioYStockArticulo`: set the price and add to the stock of an article,
      both cells written in one batch.
     */
    method ActualizarPrecioYStockArticulo(idarticulo: string, nuevoPrecio: int, cantidadAAgregar: int)
      returns (o: Outcome<SheetError>)
      modifies this`articulos
      ensures var r := PrecioYStock(Headers(old(articulos)), old(Articulos()), idarticulo, nuevoPrecio, cantidadAAgregar);
              (r.Success? ==> o == Pass && Articulos() == r.value)
              && (r.Failure? ==> o == Fail(r.error) && articulos == old(articulos))
      ensures o.Pass? && IsBlank(idarticulo) ==> articulos == old(articulos)
      ensures o.Pass? && !IsBlank(idarticulo) ==>
                var k := FindArticulo(old(Articulos()), idarticulo);
                0 <= k && k + 1 < |old(articulos)| && HasPrecioStockColumns(Headers(old(articulos)))
                && k < |Articulos()| && articulos == WithPrecioStock(old(articulos), k, nuevoPrecio, Articulos()[k].stock)
    {
      if IsBlank(idarticulo) {
        return Pass;
      }
      var arts := ParseArticulos(articulos);
      ArticuloExisteIffFound(arts, idarticulo);
      var k := FindArticulo(arts, idarticulo);
      if k < 0 {
        return Fail(NotFound(ARTICULO_NO_ENCONTRADO));
      }
      var rows := articulos;
      var headers := Headers(rows);
      var idCol := HeaderIndex(headers, ARTICULO_ID_WRITE_ALIASES);
      var precioCol := HeaderIndex(headers, PRECIO_ALIASES);
      var stockCol := HeaderIndex(headers, STOCK_ALIASES);
      // The tab has the data row the article was read from, and the writer's id column is
      // the reader's: the "too few rows" and "no id column" checks never fail here.
      if precioCol < 0 || stockCol < 0 {
        return Fail(MissingColumns(PrecioStockColumnsMessage(headers)));
      }
      var nuevoStock := arts[k].stock + cantidadAAgregar;
      PrecioStockCells(rows, idarticulo, nuevoPrecio, cantidadAAgregar, k, nuevoStock);
      var rowIndex := FindRow(rows, idCol, idarticulo);
      WriteTwoCells(rowIndex, precioCol, IntToString(nuevoPrecio), stockCol, IntToString(nuevoStock));
      return Pass;
    }
  

    // -------------------------------------------------------------------------
    // articulos: insert, update, delete

    /** `insertarArticulo`: append the article's cells `A:F`. */
    method InsertarArticulo(a: ArticuloNuevo)
      modifies this`articulos
      ensures articulos == old(articulos) + [ArticuloValues(a)]
      ensures |old(articulos)| >= 1 && ArticuloLayout(ArticuloCols(Headers(old(articulos)))) && ArticuloTrimmed(a) ==>
                var c := ArticuloCols(Headers(old(articulos)));
                Articulos() == old(Articulos()) + [ArticuloLeido(a, if c.categoria >= 0 then Some("") else None)]
    {
      if |articulos| >= 1 && ArticuloLayout(ArticuloCols(Headers(articulos))) && ArticuloTrimmed(a) {
        InsertedArticuloListed(articulos, a);
      }
      articulos := articulos + [ArticuloValues(a)];
    }

    /**
      `actualizarArticulo`: rewrite the cells `A:F` of the first data row whose id matches
      `idAntiguo` (trimmed, case-insensitive).
     */
    method ActualizarArticulo(idAntiguo: string, a: ArticuloNuevo) returns (o: Outcome<SheetError>)
      modifies this`articulos
      ensures var r := LocateById(old(articulos), ARTICULO_ID_WRITE_ALIASES, idAntiguo, ARTICULO_NO_ENCONTRADO);
              (r.Failure? ==> o == Fail(r.error) && articulos == old(articulos))
              && (r.Success? ==> o == Pass
                                 && articulos == old(articulos)[r.value := WriteRange(old(articulos)[r.value], ArticuloValues(a))])
      ensures ArticuloCols(Headers(old(articulos))).id >= 0 ==> (o.Pass? <==> ArticuloExiste(old(Articulos()), idAntiguo))
      ensures o.Pass? && ArticuloLayout(ArticuloCols(Headers(old(articulos)))) && ArticuloTrimmed(a) ==>
                var k := FindArticulo(old(Articulos()), idAntiguo);
                0 <= k < |old(Articulos())|
                && Articulos() == old(Articulos())[k := ArticuloLeido(a, old(Articulos())[k].categoria)]
    {
      var rows := articulos;
      var k := FindArticulo(ParseArticulos(rows), idAntiguo);
      if ArticuloCols(Headers(rows)).id >= 0 {
        LocateArticuloFindsListed(rows, idAntiguo);
        if k >= 0 && ArticuloLayout(ArticuloCols(Headers(rows))) && ArticuloTrimmed(a) {
          ArticuloRowRewritten(rows, k, a);
        }
      }
      var r := LocateById(rows, ARTICULO_ID_WRITE_ALIASES, idAntiguo, ARTICULO_NO_ENCONTRADO);
      if r.Failure? {
        return Fail(r.error);
      }
      articulos := rows[r.value := WriteRange(rows[r.value], ArticuloValues(a))];
      return Pass;
    }

    /** `eliminarArticulo`: delete the first data row whose id matches `id`. */
    method EliminarArticulo(id: string) returns (o: Outcome<SheetError>)
      modifies this`articulos
      ensures var r := LocateById(old(articulos), ARTICULO_ID_WRITE_ALIASES, id, ARTICULO_NO_ENCONTRADO);
              (r.Failure? ==> o == Fail(r.error) && articulos == old(articulos))
              && (r.Success? ==> o == Pass && articulos == RemoveRow(old(articulos), r.value))
      ensures ArticuloCols(Headers(old(articulos))).id >= 0 ==> (o.Pass? <==> ArticuloExiste(old(Articulos()), id))
      ensures o.Pass? && ArticuloCols(Headers(old(articulos))).id >= 0 ==>
                var k := FindArticulo(old(Articulos()), id);
                0 <= k < |old(Articulos())| && Articulos() == old(Articulos())[..k] + old(Articulos())[k + 1..]
    {
      var rows := articulos;
      if ArticuloCols(Headers(rows)).id >= 0 {
        LocateArticuloFindsListed(rows, id);
      }
      var r := LocateById(rows, ARTICULO_ID_WRITE_ALIASES, id, ARTICULO_NO_ENCONTRADO);
      if r.Failure? {
        return Fail(r.error);
      }
      if ArticuloCols(Headers(rows)).id >= 0 {
        ArticuloEliminado(rows, id);
      }
      articulos := RemoveRow(rows, r.value);
      return Pass;
    }

    // -------------------------------------------------------------------------
    // ventas: delete, update, next id, insert

    /** `eliminarVenta`: delete the row `LocateVenta` designates. */
    method EliminarVenta(idventa: string) returns (o: Outcome<SheetError>)
      modifies this`ventas
      ensures var r := LocateVenta(old(ventas), idventa);
              (r.Failure? ==> o == Fail(r.error) && ventas == old(ventas))
              && (r.Success? ==> o == Pass && ventas == RemoveRow(old(ventas), r.value))
      ensures FindVentaById(old(Ventas()), idventa) >= 0 ==> o.Pass?
      ensures IdVentaCol(old(ventas)) >= 0 ==> (o.Pass? <==> FindVentaById(old(Ventas()), idventa) >= 0)
      ensures o.Pass? && IdVentaCol(old(ventas)) >= 0 ==>
                var k := FindVentaById(old(Ventas()), idventa);
                0 <= k < |old(Ventas())| && Ventas() == old(Ventas())[..k] + old(Ventas())[k + 1..]
    {
      var rows := ventas;
      if FindVentaById(ParseVentas(rows), idventa) >= 0 {
        LocateVentaFindsListed(rows, idventa);
      }
      var r := LocateVenta(rows, idventa);
      if r.Failure? {
        return Fail(r.error);
      }
      if IdVentaCol(rows) >= 0 {
        LocatedVentaListed(rows, idventa);
        VentasAfterRemoval(rows, r.value);
      }
      ventas := RemoveRow(rows, r.value);
      return Pass;
    }

    /**
      `actualizarVenta`: locate the row, find the listed sale under the same id, merge the
      patch into it and write the result over the cells `A:G` of the row.
     */
    method ActualizarVenta(idventaAntiguo: string, patch: VentaPatch) returns (o: Outcome<SheetError>)
      modifies this`ventas
      ensures var k := FindVentaById(old(Ventas()), idventaAntiguo);
              (k < 0 ==> o == Fail(NotFound(VENTA_NO_ENCONTRADA)) && ventas == old(ventas))
              && (k >= 0 ==> o == Pass && k + 1 < |old(ventas)|
                             && ventas == old(ventas)[k + 1 := WriteRange(old(ventas)[k + 1],
                                                                          VentaValues(MergeVenta(old(Ventas())[k], patch)))])
      ensures o.Pass? ==>
                var k := FindVentaById(old(Ventas()), idventaAntiguo);
                var nueva := MergeVenta(old(Ventas())[k], patch);
                VentaLayout(VentaCols(Headers(old(ventas)))) && VentaTrimmed(nueva) ==> Ventas() == old(Ventas())[k := nueva]
    {
      var rows := ventas;
      var listed := ParseVentas(rows);
      var k := FindVentaById(listed, idventaAntiguo);
      if k >= 0 {
        VentaActualizada(rows, idventaAntiguo, patch, k, MergeVenta(listed[k], patch));
      }
      var r := LocateVenta(rows, idventaAntiguo);
      if r.Failure? {
        return Fail(r.error);
      }
      if k < 0 {
        return Fail(NotFound(VENTA_NO_ENCONTRADA));
      }
      var nueva := MergeVenta(listed[k], patch);
      ventas := rows[r.value := WriteRange(rows[r.value], VentaValues(nueva))];
      return Pass;
    }

    /** `generarSiguienteIdVenta` */
    method SiguienteIdVenta() returns (id: string)
      ensures id == NextVentaId(ventas)
      ensures forall j :: 0 <= j < |Ventas()| ==> Trim(Ventas()[j].idventa) != id
    {
      var ids := VentaIds(ParseVentas(ventas));
      id := SiguienteId(ids);
      forall j | 0 <= j < |Ventas()|
        ensures Trim(Ventas()[j].idventa) != id
      {
        SiguienteIdFresh(ids, j);
      }
    }

    /** `insertarVenta`: append the cells `A:G` of the sale under the next id. */
    method InsertarVenta(v: VentaNueva)
      modifies this`ventas
      ensures ventas == old(ventas) + [VentaNuevaValues(NextVentaId(old(ventas)), v)]
      ensures |old(ventas)| >= 1 && IdVentaCol(old(ventas)) == 0 ==>
                LocateVenta(ventas, NextVentaId(old(ventas))) == Success(|old(ventas)|)
    {
      var id := SiguienteIdVenta();
      if |ventas| >= 1 && IdVentaCol(ventas) == 0 {
        InsertedVentaLocated(ventas, v);
      }
      ventas := ventas + [VentaNuevaValues(id, v)];
    }

    // -------------------------------------------------------------------------
    // compras: delete, update, next id, insert

    /**
      `eliminarCompra` as written: delete the first data row whose cell in the `idcompra`
      column, or column A when the header has none, holds the trimmed id.
     */
    method EliminarCompra(idcompra: string) returns (o: Outcome<SheetError>)
      modifies this`compras
      ensures var r := LocateCompraAsWritten(old(compras), idcompra);
              (r.Failure? ==> o == Fail(r.error) && compras == old(compras))
              && (r.Success? ==> o == Pass && compras == RemoveRow(old(compras), r.value))
      ensures IdCompraHeader(old(compras)) >= 0 ==> (o.Pass? <==> FindCompraById(old(Compras()), idcompra) >= 0)
      ensures o.Pass? && IdCompraHeader(old(compras)) >= 0 ==>
                var k := FindCompraById(old(Compras()), idcompra);
                0 <= k < |old(Compras())| && Compras() == old(Compras())[..k] + old(Compras())[k + 1..]
    {
      var rows := compras;
      if IdCompraHeader(rows) >= 0 && FindCompraById(ParseCompras(rows), idcompra) >= 0 {
        LocateByIdCompraColumn(rows, idcompra);
      }
      var r := LocateCompraAsWritten(rows, idcompra);
      if r.Failure? {
        return Fail(r.error);
      }
      if IdCompraHeader(rows) >= 0 {
        LocatedCompraListed(rows, idcompra);
        ComprasAfterRemoval(rows, r.value);
      }
      compras := RemoveRow(rows, r.value);
      return Pass;
    }

    /**
      `actualizarCompra` as written: locate the row as `eliminarCompra` does, find the listed
      purchase under the same id, merge the patch into it and write the result over the cells
      `A:G` of the located row. Without an `idcompra` header the two need not be the same
      purchase.
     */
    method ActualizarCompra(idcompraAntiguo: string, patch: CompraPatch) returns (o: Outcome<SheetError>)
      modifies this`compras
      ensures var r := LocateCompraAsWritten(old(compras), idcompraAntiguo);
              var k := FindCompraById(old(Compras()), idcompraAntiguo);
              (r.Failure? || k < 0 ==> o == Fail(NotFound(COMPRA_NO_ENCONTRADA)) && compras == old(compras))
              && (r.Success? && k >= 0 ==>
                    o == Pass && compras == old(compras)[r.value := WriteRange(old(compras)[r.value],
                                                                               CompraValues(MergeCompra(old(Compras())[k], patch)))])
      ensures IdCompraHeader(old(compras)) >= 0 ==> (o.Pass? <==> FindCompraById(old(Compras()), idcompraAntiguo) >= 0)
      ensures o.Pass? ==>
                var k := FindCompraById(old(Compras()), idcompraAntiguo);
                var nueva := MergeCompra(old(Compras())[k], patch);
                CompraLayout(CompraCols(Headers(old(compras)))) && CompraTrimmed(nueva) ==> Compras() == old(Compras())[k := nueva]
    {
      var rows := compras;
      var listed := ParseCompras(rows);
      var k := FindCompraById(listed, idcompraAntiguo);
      if k >= 0 {
        CompraActualizada(rows, idcompraAntiguo, patch, k, MergeCompra(listed[k], patch));
      }
      var r := LocateCompraAsWritten(rows, idcompraAntiguo);
      if r.Failure? {
        return Fail(r.error);
      }
      if k < 0 {
        if IdCompraHeader(rows) >= 0 {
          LocatedCompraListed(rows, idcompraAntiguo);
        }
        return Fail(NotFound(COMPRA_NO_ENCONTRADA));
      }
      var nueva := MergeCompra(listed[k], patch);
      compras := rows[r.value := WriteRange(rows[r.value], CompraValues(nueva))];
      return Pass;
    }

    /**
      `eliminarCompra` with the corrected lookup: delete the row `LocateCompra` designates,
      the row of the purchase the list shows under the id.
     */
    method EliminarCompraCorregida(idcompra: string) returns (o: Outcome<SheetError>)
      modifies this`compras
      ensures var r := LocateCompra(old(compras), idcompra);
              (r.Failure? ==> o == Fail(r.error) && compras == old(compras))
              && (r.Success? ==> o == Pass && compras == RemoveRow(old(compras), r.value))
      ensures FindCompraById(old(Compras()), idcompra) >= 0 ==> o.Pass?
      ensures IdCompraHeader(old(compras)) >= 0 ==> (o.Pass? <==> FindCompraById(old(Compras()), idcompra) >= 0)
      ensures o.Pass? && IdCompraHeader(old(compras)) >= 0 ==>
                var k := FindCompraById(old(Compras()), idcompra);
                0 <= k < |old(Compras())| && Compras() == old(Compras())[..k] + old(Compras())[k + 1..]
    {
      var rows := compras;
      if FindCompraById(ParseCompras(rows), idcompra) >= 0 {
        LocateCompraFindsListed(rows, idcompra);
      }
      var r := LocateCompra(rows, idcompra);
      if r.Failure? {
        return Fail(r.error);
      }
      if IdCompraHeader(rows) >= 0 {
        LocatedCompraListed(rows, idcompra);
        ComprasAfterRemoval(rows, r.value);
      }
      compras := RemoveRow(rows, r.value);
      return Pass;
    }

    /**
      `actualizarCompra` with the corrected lookup: locate the row, find the listed purchase
      under the same id, merge the patch into it and write the result over the cells `A:G`
      of the row.
     */
    method ActualizarCompraCorregida(idcompraAntiguo: string, patch: CompraPatch) returns (o: Outcome<SheetError>)
      modifies this`compras
      ensures var k := FindCompraById(old(Compras()), idcompraAntiguo);
              (k < 0 ==> o == Fail(NotFound(COMPRA_NO_ENCONTRADA)) && compras == old(compras))
              && (k >= 0 ==> o == Pass && k + 1 < |old(compras)|
                             && compras == old(compras)[k + 1 := WriteRange(old(compras)[k + 1],
                                                                            CompraValues(MergeCompra(old(Compras())[k], patch)))])
      ensures o.Pass? ==>
                var k := FindCompraById(old(Compras()), idcompraAntiguo);
                var nueva := MergeCompra(old(Compras())[k], patch);
                CompraLayout(CompraCols(Headers(old(compras)))) && CompraTrimmed(nueva) ==> Compras() == old(Compras())[k := nueva]
    {
      var rows := compras;
      var listed := ParseCompras(rows);
      var k := FindCompraById(listed, idcompraAntiguo);
      if k >= 0 {
        CompraActualizadaCorregida(rows, idcompraAntiguo, patch, k, MergeCompra(listed[k], patch));
      }
      var r := LocateCompra(rows, idcompraAntiguo);
      if r.Failure? {
        return Fail(r.error);
      }
      if k < 0 {
        return Fail(NotFound(COMPRA_NO_ENCONTRADA));
      }
      var nueva := MergeCompra(listed[k], patch);
      compras := rows[r.value := WriteRange(rows[r.value], CompraValues(nueva))];
      return Pass;
    }

    /** `generarSiguienteIdCompra` */
    method SiguienteIdCompra() returns (id: string)
      ensures id == NextCompraId(compras)
      ensures forall j :: 0 <= j < |Compras()| ==> Trim(Compras()[j].idcompra) != id
    {
      var ids := CompraIds(ParseCompras(compras));
      id := SiguienteId(ids);
      forall j | 0 <= j < |Compras()|
        ensures Trim(Compras()[j].idcompra) != id
      {
        SiguienteIdFresh(ids, j);
      }
    }

    /** `insertarCompra`: append the cells `A:G` of the purchase under the next id. */
    method InsertarCompra(c: CompraNueva)
      modifies this`compras
      ensures compras == old(compras) + [CompraValues(CompraConId(NextCompraId(old(compras)), c))]
      ensures |old(compras)| >= 1 && IdCompraHeader(old(compras)) == 0 ==>
                LocateCompraAsWritten(compras, NextCompraId(old(compras))) == Success(|old(compras)|)
      ensures |old(compras)| >= 1 && CompraLayout(CompraCols(Headers(old(compras))))
              && CompraTrimmed(CompraConId(NextCompraId(old(compras)), c)) ==>
                Compras() == old(Compras()) + [CompraConId(NextCompraId(old(compras)), c)]
    {
      var id := SiguienteIdCompra();
      if |compras| >= 1 && IdCompraHeader(compras) == 0 {
        InsertedCompraLocated(compras, c);
      }
      if |compras| >= 1 && CompraLayout(CompraCols(Headers(compras))) && CompraTrimmed(CompraConId(id, c)) {
        InsertedCompraListed(compras, id, c);
      }
      compras := compras + [CompraValues(CompraConId(id, c))];
    }

    // -------------------------------------------------------------------------
    // proveedores: insert, update, delete

    /** `insertarProveedor`: append the supplier's cells `A:F`. */
    method InsertarProveedor(p: ProveedorNuevo)
      modifies this`proveedores
      ensures proveedores == old(proveedores) + [ProveedorValues(p)]
      ensures |old(proveedores)| >= 1 && ProveedorLayout(Headers(old(proveedores))) && ProveedorTrimmed(p) ==>
                Proveedores() == old(Proveedores()) + [ProveedorLeido(p)] && ProveedorExiste(Proveedores(), p.idproveedor)
    {
      if |proveedores| >= 1 && ProveedorLayout(Headers(proveedores)) && ProveedorTrimmed(p) {
        InsertedProveedorListed(proveedores, p);
        InsertedProveedorExiste(proveedores, p);
      }
      proveedores := proveedores + [ProveedorValues(p)];
    }

    /** `actualizarProveedor`: rewrite the cells `A:F` of the row found under `idAntiguo`. */
    method ActualizarProveedor(idAntiguo: string, p: ProveedorNuevo) returns (o: Outcome<SheetError>)
      modifies this`proveedores
      ensures var r := LocateById(old(proveedores), PROVEEDOR_ID_ALIASES, idAntiguo, PROVEEDOR_NO_ENCONTRADO);
              (r.Failure? ==> o == Fail(r.error) && proveedores == old(proveedores))
              && (r.Success? ==> o == Pass
                                 && proveedores == old(proveedores)[r.value := WriteRange(old(proveedores)[r.value], ProveedorValues(p))])
      ensures HeaderIndex(Headers(old(proveedores)), PROVEEDOR_ID_ALIASES) >= 0 ==>
                (o.Pass? <==> ProveedorExiste(old(Proveedores()), idAntiguo))
      ensures var r := LocateById(old(proveedores), PROVEEDOR_ID_ALIASES, idAntiguo, PROVEEDOR_NO_ENCONTRADO);
              r.Success? && ProveedorLayout(Headers(old(proveedores))) && ProveedorTrimmed(p) ==>
                r.value - 1 < |old(Proveedores())| && SameKey(old(Proveedores())[r.value - 1].idproveedor, idAntiguo)
                && Proveedores() == old(Proveedores())[r.value - 1 := ProveedorLeido(p)]
    {
      var rows := proveedores;
      if HeaderIndex(Headers(rows), PROVEEDOR_ID_ALIASES) >= 0 {
        LocateProveedorFindsListed(rows, idAntiguo);
      }
      var r := LocateById(rows, PROVEEDOR_ID_ALIASES, idAntiguo, PROVEEDOR_NO_ENCONTRADO);
      if r.Failure? {
        return Fail(r.error);
      }
      if ProveedorLayout(Headers(rows)) && ProveedorTrimmed(p) {
        ProveedorUpdated(rows, idAntiguo, p, r.value);
      }
      proveedores := rows[r.value := WriteRange(rows[r.value], ProveedorValues(p))];
      return Pass;
    }

    /** `eliminarProveedor`: delete the row found under `id`. */
    method EliminarProveedor(id: string) returns (o: Outcome<SheetError>)
      modifies this`proveedores
      ensures var r := LocateById(old(proveedores), PROVEEDOR_ID_ALIASES, id, PROVEEDOR_NO_ENCONTRADO);
              (r.Failure? ==> o == Fail(r.error) && proveedores == old(proveedores))
              && (r.Success? ==> o == Pass && proveedores == RemoveRow(old(proveedores), r.value)
                                 && Proveedores() == old(Proveedores())[..r.value - 1] + old(Proveedores())[r.value..])
      ensures HeaderIndex(Headers(old(proveedores)), PROVEEDOR_ID_ALIASES) >= 0 ==>
                (o.Pass? <==> ProveedorExiste(old(Proveedores()), id))
    {
      var rows := proveedores;
      if HeaderIndex(Headers(rows), PROVEEDOR_ID_ALIASES) >= 0 {
        LocateProveedorFindsListed(rows, id);
      }
      var r := LocateById(rows, PROVEEDOR_ID_ALIASES, id, PROVEEDOR_NO_ENCONTRADO);
      if r.Failure? {
        return Fail(r.error);
      }
      ProveedoresAfterRemoval(rows, r.value);
      proveedores := RemoveRow(rows, r.value);
      return Pass;
    }

    // -------------------------------------------------------------------------
    // clientes: next id, insert, update, delete

    /** `generarSiguienteIdCliente`: the generated id is not taken by any listed client. */
    method SiguienteIdCliente() returns (id: string)
      ensures id == NextClienteId(clientes)
      ensures !ClienteExiste(Clientes(), id)
    {
      id := SiguienteId(ClienteIds(ParseClientes(clientes)));
      NextClienteIdFresh(clientes);
    }

    /** `insertarCliente`: append the client's cells `A:F`. */
    method InsertarCliente(c: ClienteNuevo)
      modifies this`clientes
      ensures clientes == old(clientes) + [ClienteValues(c)]
      ensures |old(clientes)| >= 1 && ClienteLayout(Headers(old(clientes))) && ClienteTrimmed(c) ==>
                Clientes() == old(Clientes()) + [ClienteLeido(c)]
      ensures |old(clientes)| >= 1 && HeaderIndex(Headers(old(clientes)), CLIENTE_ID_ALIASES) == 0
              && c.idcliente == NextClienteId(old(clientes)) ==>
                LocateById(clientes, CLIENTE_ID_ALIASES, c.idcliente, CLIENTE_NO_ENCONTRADO) == Success(|old(clientes)|)
    {
      if |clientes| >= 1 && ClienteLayout(Headers(clientes)) && ClienteTrimmed(c) {
        InsertedClienteListed(clientes, c);
      }
      if |clientes| >= 1 && HeaderIndex(Headers(clientes), CLIENTE_ID_ALIASES) == 0 && c.idcliente == NextClienteId(clientes) {
        InsertedClienteLocated(clientes, c);
      }
      clientes := clientes + [ClienteValues(c)];
    }

    /** `actualizarCliente`: rewrite the cells `A:F` of the row found under `idAntiguo`. */
    method ActualizarCliente(idAntiguo: string, c: ClienteNuevo) returns (o: Outcome<SheetError>)
      modifies this`clientes
      ensures var r := LocateById(old(clientes), CLIENTE_ID_ALIASES, idAntiguo, CLIENTE_NO_ENCONTRADO);
              (r.Failure? ==> o == Fail(r.error) && clientes == old(clientes))
              && (r.Success? ==> o == Pass
                                 && clientes == old(clientes)[r.value := WriteRange(old(clientes)[r.value], ClienteValues(c))])
      ensures HeaderIndex(Headers(old(clientes)), CLIENTE_ID_ALIASES) >= 0 ==>
                (o.Pass? <==> ClienteExiste(old(Clientes()), idAntiguo))
      ensures var r := LocateById(old(clientes), CLIENTE_ID_ALIASES, idAntiguo, CLIENTE_NO_ENCONTRADO);
              r.Success? && ClienteLayout(Headers(old(clientes))) && ClienteTrimmed(c) ==>
                r.value - 1 < |old(Clientes())| && SameKey(old(Clientes())[r.value - 1].idcliente, idAntiguo)
                && Clientes() == old(Clientes())[r.value - 1 := ClienteLeido(c)]
    {
      var rows := clientes;
      if HeaderIndex(Headers(rows), CLIENTE_ID_ALIASES) >= 0 {
        LocateClienteFindsListed(rows, idAntiguo);
      }
      var r := LocateById(rows, CLIENTE_ID_ALIASES, idAntiguo, CLIENTE_NO_ENCONTRADO);
      if r.Failure? {
        return Fail(r.error);
      }
      if ClienteLayout(Headers(rows)) && ClienteTrimmed(c) {
        ClienteUpdated(rows, idAntiguo, c, r.value);
      }
      clientes := rows[r.value := WriteRange(rows[r.value], ClienteValues(c))];
      return Pass;
    }

    /** `eliminarCliente`: delete the row found under `id`. */
    method EliminarCliente(id: string) returns (o: Outcome<SheetError>)
      modifies this`clientes
      ensures var r := LocateById(old(clientes), CLIENTE_ID_ALIASES, id, CLIENTE_NO_ENCONTRADO);
              (r.Failure? ==> o == Fail(r.error) && clientes == old(clientes))
              && (r.Success? ==> o == Pass && clientes == RemoveRow(old(clientes), r.value)
                                 && Clientes() == old(Clientes())[..r.value - 1] + old(Clientes())[r.value..])
      ensures HeaderIndex(Headers(old(clientes)), CLIENTE_ID_ALIASES) >= 0 ==>
                (o.Pass? <==> ClienteExiste(old(Clientes()), id))
    {
      var rows := clientes;
      if HeaderIndex(Headers(rows), CLIENTE_ID_ALIASES) >= 0 {
        LocateClienteFindsListed(rows, id);
      }
      var r := LocateById(rows, CLIENTE_ID_ALIASES, id, CLIENTE_NO_ENCONTRADO);
      if r.Failure? {
        return Fail(r.error);
      }
      ClientesAfterRemoval(rows, r.value);
      clientes := RemoveRow(rows, r.value);
      return Pass;
    }
  }
}
