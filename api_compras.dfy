/**
  `POST /api/compras`: a purchase of one article. The article first takes the purchase's
  price and gains its quantity; then the purchase is appended. When the append fails,
  the quantity is taken back, but the price is not.
 */
module ApiCompras {
  import opened Wrappers
  import opened Text
  import opened SheetTable
  import opened Records
  import opened Stock
  import opened Ids
  import opened ComprasTab
  import opened GoogleSheets
  import opened Respuestas

  const PROVEEDOR_Y_ARTICULO: string := "Proveedor y art\U{ED}culo son obligatorios"
  const DATOS_DE_COMPRA: string := "ID art\U{ED}culo, cantidad (positiva) y precio son obligatorios"
  const ERROR_AL_GUARDAR_COMPRA: string := "Error al guardar la compra"

  /**
    The request body: absent or `null` fields are `None`, and so is a number `Number`
    does not read as a number.
   */
  datatype PedidoCompra = PedidoCompra(
    fecha: Option<string>,
    proveedor: Option<string>,
    idarticulo: Option<string>,
    articulo: Option<string>,
    cantidad: Option<int>,
    precio: Option<int>)

  /**
    The purchase the route records, or the text of the 400 its checks answer. `hoy` is
    today's date, taken when the request has no date.
   */
  function CompraDelPedido(p: PedidoCompra, hoy: string): (r: Result<CompraNueva, string>)
    ensures IsBlankOpt(p.proveedor) || IsBlankOpt(p.articulo) ==> r == Failure(PROVEEDOR_Y_ARTICULO)
    ensures !IsBlankOpt(p.proveedor) && !IsBlankOpt(p.articulo) ==>
              (r.Success? <==> !IsBlankOpt(p.idarticulo) && NumOrZero(p.cantidad) > 0 && NumOrZero(p.precio) >= 0)
    ensures r.Failure? ==> r.error == PROVEEDOR_Y_ARTICULO || r.error == DATOS_DE_COMPRA
    ensures r.Success? ==>
              !IsBlank(r.value.idarticulo) && r.value.cantidad > 0 && r.value.precio >= 0
              && r.value.fecha == (if IsBlankOpt(p.fecha) then hoy else Trim(p.fecha.value))
              && Trim(r.value.proveedor) == r.value.proveedor && Trim(r.value.idarticulo) == r.value.idarticulo
              && Trim(r.value.articulo) == r.value.articulo
  {
    var fechaStr := if IsBlankOpt(p.fecha) then hoy else Trim(p.fecha.value);
    if IsBlankOpt(p.proveedor) || IsBlankOpt(p.articulo) then Failure(PROVEEDOR_Y_ARTICULO)
    else
      var idArt := Recortado(p.idarticulo);
      var cant := NumOrZero(p.cantidad);
      var prec := NumOrZero(p.precio);
      if idArt == "" || cant <= 0 || prec < 0 then Failure(DATOS_DE_COMPRA)
      else
        TrimIdempotent(p.proveedor.value);
        TrimIdempotent(p.articulo.value);
        Success(CompraNueva(fechaStr, Trim(p.proveedor.value), idArt, Trim(p.articulo.value), cant, prec))
  }

  /**
    A purchase the route accepts is recorded without surrounding blanks under the
    generated id, so that `getCompras` reads it back as given.
   */
  lemma {:induction false} CompraAceptadaTrimmed(tab: Table, p: PedidoCompra, hoy: string)
    requires CompraDelPedido(p, hoy).Success? && Trim(hoy) == hoy
    ensures CompraTrimmed(CompraConId(NextCompraId(tab), CompraDelPedido(p, hoy).value))
  {
    SiguienteIdTrimmed(CompraIds(ParseCompras(tab)));
    if !IsBlankOpt(p.fecha) {
      TrimIdempotent(p.fecha.value);
    }
  }

  /**
    Taking a purchase's quantity back after recording it: when the article's stock was
    not negative, every stock is as before and only the price stays changed; when it was
    negative, the revert would leave it negative and fails.
   */
  lemma {:induction false} RevertirTrasPrecioYStock(h: Row, arts: seq<Articulo>, id: string, precio: int, cantidad: int)
    requires PrecioYStock(h, arts, id, precio, cantidad).Success? && !IsBlank(id) && cantidad > 0
    ensures var k := FindArticulo(arts, id);
            var back := Subtract(PrecioYStock(h, arts, id, precio, cantidad).value, id, cantidad, true);
            0 <= k < |arts|
            && (arts[k].stock >= 0 ==> back == Success(arts[k := arts[k].(precio := precio)]))
            && (arts[k].stock < 0 ==> back.Failure?)
  {
    var k := FindArticulo(arts, id);
    var after := PrecioYStock(h, arts, id, precio, cantidad).value;
    if arts[k].stock >= 0 {
      PrecioYStockThenSubtract(h, arts, id, precio, cantidad);
    } else {
      StockChangesKeepIds(arts, after, id, k);
      assert after[k].stock - cantidad < 0;
    }
  }

  /**
    The compensation of a failed save, on articles that hold a recorded purchase:
    `restarStockArticulo` of the purchased quantity, its error ignored.
   */
  method RevertirCompra(s: Spreadsheet, ghost h: Row, ghost antes: seq<Articulo>, id: string, precio: int, cantidad: int)
    requires PrecioYStock(h, antes, id, precio, cantidad).Success? && !IsBlank(id) && cantidad > 0
    requires s.Articulos() == PrecioYStock(h, antes, id, precio, cantidad).value
    modifies s`articulos
    ensures var k := FindArticulo(antes, id);
            0 <= k < |antes|
            && (antes[k].stock >= 0 ==> s.Articulos() == antes[k := antes[k].(precio := precio)])
            && (antes[k].stock < 0 ==> s.Articulos() == old(s.Articulos()))
  {
    RevertirTrasPrecioYStock(h, antes, id, precio, cantidad);
    var ignorado := s.RestarStockArticulo(id, cantidad);
  }

  /**
    After the price and quantity are recorded: append the purchase, or, when that fails,
    take the quantity back and answer 500.
   */
  method AsentarCompra(s: Spreadsheet, ghost h: Row, ghost antes: seq<Articulo>, compra: CompraNueva, falloAlGuardar: bool)
    returns (res: Respuesta<()>)
    requires !IsBlank(compra.idarticulo) && compra.cantidad > 0
    requires PrecioYStock(h, antes, compra.idarticulo, compra.precio, compra.cantidad).Success?
    requires s.Articulos() == PrecioYStock(h, antes, compra.idarticulo, compra.precio, compra.cantidad).value
    modifies s`articulos, s`compras
    ensures !falloAlGuardar ==>
              res == Exito(()) && s.articulos == old(s.articulos)
              && s.compras == old(s.compras) + [CompraValues(CompraConId(NextCompraId(old(s.compras)), compra))]
    ensures !falloAlGuardar && |old(s.compras)| >= 1 && CompraLayout(CompraCols(Headers(old(s.compras))))
            && CompraTrimmed(CompraConId(NextCompraId(old(s.compras)), compra)) ==>
              s.Compras() == old(s.Compras()) + [CompraConId(NextCompraId(old(s.compras)), compra)]
    ensures falloAlGuardar ==>
              var k := FindArticulo(antes, compra.idarticulo);
              res == Error(500, ERROR_AL_GUARDAR_COMPRA) && s.compras == old(s.compras)
              && 0 <= k < |antes|
              && (antes[k].stock >= 0 ==> s.Articulos() == antes[k := antes[k].(precio := compra.precio)])
              && (antes[k].stock < 0 ==> s.Articulos() == old(s.Articulos()))
  {
    if falloAlGuardar {
      RevertirCompra(s, h, antes, compra.idarticulo, compra.precio, compra.cantidad);
      return Error(500, ERROR_AL_GUARDAR_COMPRA);
    }
    ghost var previas := s.Compras();
    ghost var nueva := CompraConId(NextCompraId(s.compras), compra);
    s.InsertarCompra(compra);
    assert |old(s.compras)| >= 1 && CompraLayout(CompraCols(Headers(old(s.compras)))) && CompraTrimmed(nueva) ==>
             s.Compras() == previas + [nueva];
    return Exito(());
  }

  /**
    The writes of `POST /api/compras` once its checks pass: record the price and the
    quantity, then append the purchase; `falloAlGuardar` says whether `insertarCompra`
    fails. An error of the price-and-stock update answers 400 with its message; a failed
    save takes the quantity back (when that leaves the stock non-negative, else the
    revert fails and is ignored) and answers 500, and the article keeps the purchase's
    price either way.
   */
  method GuardarCompra(s: Spreadsheet, compra: CompraNueva, falloAlGuardar: bool) returns (res: Respuesta<()>)
    requires !IsBlank(compra.idarticulo) && compra.cantidad > 0
    modifies s`articulos, s`compras
    ensures var r := PrecioYStock(Headers(old(s.articulos)), old(s.Articulos()), compra.idarticulo, compra.precio, compra.cantidad);
            var k := FindArticulo(old(s.Articulos()), compra.idarticulo);
            (r.Failure? ==> res == Error(400, r.error.Message()) && unchanged(s))
            && (r.Success? && !falloAlGuardar ==>
                  res == Exito(()) && s.Articulos() == r.value
                  && s.compras == old(s.compras) + [CompraValues(CompraConId(NextCompraId(old(s.compras)), compra))])
            && (r.Success? && falloAlGuardar ==>
                  res == Error(500, ERROR_AL_GUARDAR_COMPRA) && s.compras == old(s.compras)
                  && 0 <= k < |old(s.Articulos())|
                  && (old(s.Articulos())[k].stock >= 0 ==>
                        s.Articulos() == old(s.Articulos())[k := old(s.Articulos())[k].(precio := compra.precio)])
                  && (old(s.Articulos())[k].stock < 0 ==> s.Articulos() == r.value))
    ensures res.Exito? && |old(s.compras)| >= 1 && CompraLayout(CompraCols(Headers(old(s.compras))))
            && CompraTrimmed(CompraConId(NextCompraId(old(s.compras)), compra)) ==>
              s.Compras() == old(s.Compras()) + [CompraConId(NextCompraId(old(s.compras)), compra)]
  {
    ghost var antes := s.Articulos();
    ghost var h := Headers(s.articulos);
    var o := s.ActualizarPrecioYStockArticulo(compra.idarticulo, compra.precio, compra.cantidad);
    if o.Fail? {
      return Error(400, o.error.Message());
    }
    res := AsentarCompra(s, h, antes, compra, falloAlGuardar);
  }

  /**
    `POST /api/compras`: the checks of the request, then the writes of `GuardarCompra`
    for the purchase `CompraDelPedido` builds.
   */
  method PostCompra(s: Spreadsheet, p: PedidoCompra, hoy: string, falloAlGuardar: bool) returns (res: Respuesta<()>)
    modifies s`articulos, s`compras
    ensures var c := CompraDelPedido(p, hoy);
            c.Failure? ==> res == Error(400, c.error) && unchanged(s)
    ensures var c := CompraDelPedido(p, hoy);
            c.Success? ==>
              var r := PrecioYStock(Headers(old(s.articulos)), old(s.Articulos()), c.value.idarticulo, c.value.precio, c.value.cantidad);
              var k := FindArticulo(old(s.Articulos()), c.value.idarticulo);
              (r.Failure? ==> res == Error(400, r.error.Message()) && unchanged(s))
              && (r.Success? && !falloAlGuardar ==>
                    res == Exito(()) && s.Articulos() == r.value
                    && s.compras == old(s.compras) + [CompraValues(CompraConId(NextCompraId(old(s.compras)), c.value))])
              && (r.Success? && falloAlGuardar ==>
                    res == Error(500, ERROR_AL_GUARDAR_COMPRA) && s.compras == old(s.compras)
                    && 0 <= k < |old(s.Articulos())|
                    && (old(s.Articulos())[k].stock >= 0 ==>
                          s.Articulos() == old(s.Articulos())[k := old(s.Articulos())[k].(precio := c.value.precio)])
                    && (old(s.Articulos())[k].stock < 0 ==> s.Articulos() == r.value))
    ensures var c := CompraDelPedido(p, hoy);
            c.Success? && res.Exito? && |old(s.compras)| >= 1 && CompraLayout(CompraCols(Headers(old(s.compras))))
            && Trim(hoy) == hoy ==>
              s.Compras() == old(s.Compras()) + [CompraConId(NextCompraId(old(s.compras)), c.value)]
  {
    var c := CompraDelPedido(p, hoy);
    if c.Failure? {
      return Error(400, c.error);
    }
    if Trim(hoy) == hoy {
      CompraAceptadaTrimmed(s.compras, p, hoy);
    }
    res := GuardarCompra(s, c.value, falloAlGuardar);
  }
}
