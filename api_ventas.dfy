/**
  `POST /api/ventas`: a sale of one or more lines. Each line with an article id and a
  positive quantity first takes its quantity off the article's stock; then the sale is
  appended. When the append fails, every quantity taken is given back.
 */
module ApiVentas {
  import opened Wrappers
  import opened Text
  import opened SheetTable
  import opened Records
  import opened Stock
  import opened VentasTab
  import opened GoogleSheets
  import opened Respuestas

  const FECHA_OBLIGATORIA: string := "Fecha es obligatoria"
  const SIN_ARTICULOS: string := "Debe incluir al menos un art\U{ED}culo"
  const ERROR_AL_GUARDAR_VENTA: string := "Error al guardar la venta"

  /**
    One element of the request's `articulos`: an absent or `null` id is `None`, and so is
    a quantity `Number` does not read as a number.
   */
  datatype LineaVenta = LineaVenta(idarticulo: Option<string>, cantidad: Option<int>)

  /** `a?.idarticulo != null ? String(a.idarticulo).trim() : ""` */
  function IdDeLinea(a: LineaVenta): string {
    Recortado(a.idarticulo)
  }

  /** `Number(a?.cantidad) || 0` */
  function CantidadDeLinea(a: LineaVenta): int {
    NumOrZero(a.cantidad)
  }

  /** Whether the loop discounts the line: `idArt && cant > 0`. */
  predicate Descuenta(a: LineaVenta) {
    IdDeLinea(a) != "" && CantidadDeLinea(a) > 0
  }

  /** An entry of `descontados`: a quantity taken off an article's stock. */
  datatype Descuento = Descuento(id: string, cant: int)

  /**
    How far the discount loop got: the articles as they now read, the discounts made, in
    order, and the error that stopped the loop, if one did.
   */
  datatype Avance = Avance(arts: seq<Articulo>, descontados: seq<Descuento>, error: Option<SheetError>)

  /**
    The discount loop of the route, on the articles `getArticulos` shows: the lines are
    taken in order, and the first error stops the loop with the discounts made so far in
    place.
   */
  function Descontar(arts: seq<Articulo>, lineas: seq<LineaVenta>): (r: Avance)
    decreases |lineas|
    ensures forall i :: 0 <= i < |r.descontados| ==> !IsBlank(r.descontados[i].id) && r.descontados[i].cant > 0
    ensures |r.descontados| <= |lineas|
  {
    if lineas == [] then Avance(arts, [], None) else Paso(Descontar(arts, lineas[..|lineas| - 1]), lineas[|lineas| - 1])
  }

  /**
    One turn of the loop: after an error, or for a line it skips, nothing happens;
    otherwise the line's quantity is discounted, or the discount's error stops the loop.
   */
  function Paso(prev: Avance, a: LineaVenta): (r: Avance)
    ensures r.descontados == prev.descontados || (Descuenta(a) && r.descontados == prev.descontados + [Descuento(IdDeLinea(a), CantidadDeLinea(a))])
  {
    if prev.error.Some? || !Descuenta(a) then prev
    else
      match Subtract(prev.arts, IdDeLinea(a), CantidadDeLinea(a), false)
      case Failure(e) => prev.(error := Some(e))
      case Success(arts') => Avance(arts', prev.descontados + [Descuento(IdDeLinea(a), CantidadDeLinea(a))], None)
  }

  /**
    The compensation of a failed save: `reponerStockArticulo` for each discount, in order,
    each error swallowed (a failed replenishment changes nothing).
   */
  function Reponer(h: Row, arts: seq<Articulo>, ds: seq<Descuento>): (r: seq<Articulo>)
    decreases |ds|
    ensures ds == [] ==> r == arts
  {
    if ds == [] then arts
    else
      var prev := Reponer(h, arts, ds[..|ds| - 1]);
      var d := ds[|ds| - 1];
      match Reposicion(h, prev, d.id, d.cant)
      case Success(arts') => arts'
      case Failure(_) => prev
  }

  /** One more discount given back: the replenishment of discount `j` applied after the earlier ones. */
  lemma {:induction false} ReponerUnaMas(h: Row, arts: seq<Articulo>, ds: seq<Descuento>, j: nat)
    requires j < |ds|
    ensures var prev := Reponer(h, arts, ds[..j]);
            var r := Reposicion(h, prev, ds[j].id, ds[j].cant);
            Reponer(h, arts, ds[..j + 1]) == (if r.Success? then r.value else prev)
  {
    assert ds[..j + 1][..j] == ds[..j];
  }

  /** The units the discounts `ds` take from article `k` of `arts`: those of the discounts whose id finds it. */
  function Tomado(arts: seq<Articulo>, ds: seq<Descuento>, k: int): int
    decreases |ds|
  {
    if ds == [] then 0
    else
      var d := ds[|ds| - 1];
      Tomado(arts, ds[..|ds| - 1], k) + (if FindArticulo(arts, d.id) == k then d.cant else 0)
  }

  /** A further discount adds its quantity to what was taken from the article it finds. */
  lemma {:induction false} TomadoUnaMas(arts: seq<Articulo>, ds: seq<Descuento>, d: Descuento, k: int)
    ensures Tomado(arts, ds + [d], k) == Tomado(arts, ds, k) + (if FindArticulo(arts, d.id) == k then d.cant else 0)
  {
    assert (ds + [d])[..|ds|] == ds;
  }

  /** Two articles that differ at most in their stock. */
  predicate SoloStock(a: Articulo, b: Articulo) {
    a == b.(stock := a.stock)
  }

  /**
    What the discount loop does to the articles, however far it got: each keeps
    everything but its stock, which drops by exactly the units the discounts made took
    from it; every discount made names a listed article.
   */
  lemma {:induction false} DescontarSoloStock(arts: seq<Articulo>, lineas: seq<LineaVenta>)
    decreases |lineas|
    ensures var r := Descontar(arts, lineas);
            |r.arts| == |arts|
            && (forall i :: 0 <= i < |r.descontados| ==> FindArticulo(arts, r.descontados[i].id) >= 0)
            && (forall j :: 0 <= j < |arts| ==>
                  SoloStock(r.arts[j], arts[j]) && r.arts[j].stock == arts[j].stock - Tomado(arts, r.descontados, j))
  {
    if lineas != [] {
      DescontarSoloStock(arts, lineas[..|lineas| - 1]);
      PasoSoloStock(arts, Descontar(arts, lineas[..|lineas| - 1]), lineas[|lineas| - 1]);
    }
  }

  /** The state `DescontarSoloStock` describes, kept by every turn of the loop. */
  predicate SoloStockDesde(arts: seq<Articulo>, r: Avance) {
    && |r.arts| == |arts|
    && (forall i :: 0 <= i < |r.descontados| ==> FindArticulo(arts, r.descontados[i].id) >= 0)
    && (forall j :: 0 <= j < |arts| ==>
          SoloStock(r.arts[j], arts[j]) && r.arts[j].stock == arts[j].stock - Tomado(arts, r.descontados, j))
  }

  lemma {:induction false} PasoSoloStock(arts: seq<Articulo>, prev: Avance, a: LineaVenta)
    requires SoloStockDesde(arts, prev)
    ensures SoloStockDesde(arts, Paso(prev, a))
  {
    if prev.error.None? && Descuenta(a) {
      var id, cant := IdDeLinea(a), CantidadDeLinea(a);
      var sub := Subtract(prev.arts, id, cant, false);
      if sub.Success? {
        var d := Descuento(id, cant);
        FindArticuloIdsOnly(arts, prev.arts, id);
        var ds := prev.descontados + [d];
        forall j | 0 <= j < |arts|
          ensures SoloStock(sub.value[j], arts[j]) && sub.value[j].stock == arts[j].stock - Tomado(arts, ds, j)
        {
          TomadoUnaMas(arts, prev.descontados, d, j);
        }
        assert forall i :: 0 <= i < |ds| ==> FindArticulo(arts, ds[i].id) >= 0 by {
          forall i | 0 <= i < |ds| ensures FindArticulo(arts, ds[i].id) >= 0 {
            if i == |prev.descontados| {
              assert ds[i] == d;
            } else {
              assert ds[i] == prev.descontados[i];
            }
          }
        }
      }
    }
  }

  /**
    What the compensation does to articles whose ids are those of `base`, when the tab
    has a stock column: each keeps everything but its stock, which rises by exactly the
    units the discounts took from it.
   */
  lemma {:induction false} ReponerSoloStock(h: Row, base: seq<Articulo>, cur: seq<Articulo>, ds: seq<Descuento>)
    requires HasStockColumn(h)
    requires |cur| == |base| && forall j :: 0 <= j < |base| ==> cur[j].idarticulo == base[j].idarticulo
    requires forall i :: 0 <= i < |ds| ==> FindArticulo(base, ds[i].id) >= 0 && !IsBlank(ds[i].id) && ds[i].cant > 0
    decreases |ds|
    ensures var r := Reponer(h, cur, ds);
            |r| == |base|
            && forall j :: 0 <= j < |base| ==> SoloStock(r[j], cur[j]) && r[j].stock == cur[j].stock + Tomado(base, ds, j)
  {
    if ds != [] {
      var init := ds[..|ds| - 1];
      var d := ds[|ds| - 1];
      ReponerSoloStock(h, base, cur, init);
      var prev := Reponer(h, cur, init);
      FindArticuloIdsOnly(base, prev, d.id);
      var k := FindArticulo(prev, d.id);
      ArticuloExisteIffFound(prev, d.id);
      var n := prev[k].stock + d.cant;
      ReposicionApplied(h, prev, d.id, d.cant, k, n);
      var r := prev[k := prev[k].(stock := n)];
      assert Reponer(h, cur, ds) == r;
      forall j | 0 <= j < |base|
        ensures SoloStock(r[j], cur[j]) && r[j].stock == cur[j].stock + Tomado(base, ds, j)
      {
        assert Tomado(base, ds, j) == Tomado(base, init, j) + (if j == k then d.cant else 0);
      }
    }
  }

  /**
    Replenishing, in order, every discount the loop made gives back exactly the articles
    it started from, stocks included. The tab must have a stock column, which it has
    whenever a discount was made.
   */
  lemma {:induction false} ReponerDeshaceDescontar(h: Row, arts: seq<Articulo>, lineas: seq<LineaVenta>)
    requires HasStockColumn(h) || Descontar(arts, lineas).descontados == []
    ensures var r := Descontar(arts, lineas);
            Reponer(h, r.arts, r.descontados) == arts
  {
    var r := Descontar(arts, lineas);
    DescontarSoloStock(arts, lineas);
    var back := Reponer(h, r.arts, r.descontados);
    if r.descontados != [] {
      ReponerSoloStock(h, arts, r.arts, r.descontados);
    }
    assert |back| == |arts|;
    forall j | 0 <= j < |arts|
      ensures back[j] == arts[j]
    {
      assert back[j].stock == arts[j].stock;
    }
  }

  /** Once a line fails, the lines after it change nothing. */
  lemma {:induction false} DescontarTrasError(arts: seq<Articulo>, lineas: seq<LineaVenta>, n: nat)
    requires n <= |lineas| && Descontar(arts, lineas[..n]).error.Some?
    decreases |lineas|
    ensures Descontar(arts, lineas) == Descontar(arts, lineas[..n])
  {
    if n == |lineas| {
      assert lineas[..n] == lineas;
    } else {
      var init := lineas[..|lineas| - 1];
      assert init[..n] == lineas[..n];
      DescontarTrasError(arts, init, n);
    }
  }

  /** Each discount takes a positive quantity, so no article gets back less than zero units from a list of them. */
  lemma {:induction false} TomadoAlMenos(arts: seq<Articulo>, ds: seq<Descuento>, i: nat)
    requires forall m :: 0 <= m < |ds| ==> ds[m].cant > 0
    requires i < |ds|
    decreases |ds|
    ensures forall k :: Tomado(arts, ds, k) >= 0
    ensures Tomado(arts, ds, FindArticulo(arts, ds[i].id)) >= ds[i].cant
  {
    var init := ds[..|ds| - 1];
    if i < |ds| - 1 {
      TomadoAlMenos(arts, init, i);
    } else if init != [] {
      TomadoAlMenos(arts, init, 0);
    }
  }

  /**
    As written, a discount error does not undo the discounts already made: when a later
    line fails, the earlier lines' articles keep their lowered stock.
   */
  lemma {:induction false} DescuentoFallidoConservaAnteriores(arts: seq<Articulo>, lineas: seq<LineaVenta>)
    requires Descontar(arts, lineas).error.Some? && Descontar(arts, lineas).descontados != []
    ensures Descontar(arts, lineas).arts != arts
  {
    var r := Descontar(arts, lineas);
    DescontarSoloStock(arts, lineas);
    TomadoAlMenos(arts, r.descontados, 0);
    var k := FindArticulo(arts, r.descontados[0].id);
    assert r.arts[k].stock < arts[k].stock;
  }

  /** One more line of the discount loop, after lines `..i` were processed without error. */
  lemma {:induction false} DescontarUnaMas(arts: seq<Articulo>, lineas: seq<LineaVenta>, i: nat, cur: seq<Articulo>, ds: seq<Descuento>)
    requires i < |lineas| && Descontar(arts, lineas[..i]) == Avance(cur, ds, None)
    ensures var a := lineas[i];
            var r := Descontar(arts, lineas[..i + 1]);
            (!Descuenta(a) ==> r == Avance(cur, ds, None))
            && (Descuenta(a) ==>
                  var sub := Subtract(cur, IdDeLinea(a), CantidadDeLinea(a), false);
                  (sub.Failure? ==> r == Avance(cur, ds, Some(sub.error)))
                  && (sub.Success? ==> r == Avance(sub.value, ds + [Descuento(IdDeLinea(a), CantidadDeLinea(a))], None)))
  {
    assert lineas[..i + 1][..i] == lineas[..i];
  }

  /**
    The discount loop against the spreadsheet: stops at the first error, which it
    returns, and leaves the header row alone.
   */
  method DescontarLineas(s: Spreadsheet, lineas: seq<LineaVenta>) returns (error: Option<SheetError>, descontados: seq<Descuento>)
    modifies s`articulos
    ensures Descontar(old(s.Articulos()), lineas) == Avance(s.Articulos(), descontados, error)
    ensures Headers(s.articulos) == Headers(old(s.articulos))
    ensures descontados != [] ==> HasStockColumn(Headers(s.articulos))
  {
    error := None;
    descontados := [];
    var i := 0;
    while i < |lineas|
      invariant 0 <= i <= |lineas|
      invariant Descontar(old(s.Articulos()), lineas[..i]) == Avance(s.Articulos(), descontados, None)
      invariant Headers(s.articulos) == Headers(old(s.articulos))
      invariant descontados != [] ==> HasStockColumn(Headers(s.articulos))
    {
      var a := lineas[i];
      DescontarUnaMas(old(s.Articulos()), lineas, i, s.Articulos(), descontados);
      if Descuenta(a) {
        ghost var before := s.articulos;
        var o := s.DescontarStockArticulo(IdDeLinea(a), CantidadDeLinea(a));
        if o.Fail? {
          error := Some(o.error);
          DescontarTrasError(old(s.Articulos()), lineas, i + 1);
          return;
        }
        var k := FindArticulo(ParseArticulos(before), IdDeLinea(a));
        WithStockKeepsHeaders(before, k, s.Articulos()[k].stock);
        descontados := descontados + [Descuento(IdDeLinea(a), CantidadDeLinea(a))];
      }
      i := i + 1;
    }
    assert lineas[..|lineas|] == lineas;
  }

  /** The compensation against the spreadsheet: replenish each discount in order, ignoring errors. */
  method ReponerTodos(s: Spreadsheet, descontados: seq<Descuento>)
    modifies s`articulos
    ensures s.Articulos() == Reponer(Headers(old(s.articulos)), old(s.Articulos()), descontados)
    ensures Headers(s.articulos) == Headers(old(s.articulos))
  {
    var j := 0;
    while j < |descontados|
      invariant 0 <= j <= |descontados|
      invariant Headers(s.articulos) == Headers(old(s.articulos))
      invariant s.Articulos() == Reponer(Headers(old(s.articulos)), old(s.Articulos()), descontados[..j])
    {
      ghost var before := s.articulos;
      var d := descontados[j];
      ReponerUnaMas(Headers(old(s.articulos)), old(s.Articulos()), descontados, j);
      var o := s.ReponerStockArticulo(d.id, d.cant);
      if o.Pass? && !IsBlank(d.id) && d.cant > 0 && ArticuloExiste(ParseArticulos(before), d.id) {
        var k := FindArticulo(ParseArticulos(before), d.id);
        WithStockKeepsHeaders(before, k, s.Articulos()[k].stock);
      }
      j := j + 1;
    }
    assert descontados[..|descontados|] == descontados;
  }

  /** The sale the route passes to `insertarVenta`: only the date and the total are filled. */
  function VentaDeLaRuta(fecha: string, total: Option<int>): VentaNueva {
    VentaNueva(Trim(fecha), None, None, None, None, total)
  }

  /**
    `POST /api/ventas` as written. `total` is `Number(total)`, `None` when that is not a
    number; `falloAlGuardar` says whether `insertarVenta` fails. A discount error answers
    400 with its message and leaves the discounts made before it in place; a failed save
    gives every discount back and answers 500.
   */
  method PostVenta(s: Spreadsheet, fecha: Option<string>, articulos: Option<seq<LineaVenta>>, total: Option<int>,
                   falloAlGuardar: bool) returns (res: Respuesta<()>)
    modifies s`articulos, s`ventas
    ensures IsBlankOpt(fecha) ==> res == Error(400, FECHA_OBLIGATORIA) && unchanged(s)
    ensures !IsBlankOpt(fecha) && articulos.GetOr([]) == [] ==> res == Error(400, SIN_ARTICULOS) && unchanged(s)
    ensures !IsBlankOpt(fecha) && articulos.GetOr([]) != [] ==>
              var d := Descontar(old(s.Articulos()), articulos.GetOr([]));
              if d.error.Some? then
                res == Error(400, d.error.value.Message()) && s.Articulos() == d.arts && s.ventas == old(s.ventas)
              else if falloAlGuardar then
                res == Error(500, ERROR_AL_GUARDAR_VENTA) && s.Articulos() == old(s.Articulos()) && s.ventas == old(s.ventas)
              else
                res == Exito(()) && s.Articulos() == d.arts
                && s.ventas == old(s.ventas) + [VentaNuevaValues(NextVentaId(old(s.ventas)), VentaDeLaRuta(fecha.value, total))]
  {
    if IsBlankOpt(fecha) {
      return Error(400, FECHA_OBLIGATORIA);
    }
    var arts := articulos.GetOr([]);
    if |arts| == 0 {
      return Error(400, SIN_ARTICULOS);
    }
    ghost var h := Headers(s.articulos);
    ghost var antes := s.Articulos();
    var error, descontados := DescontarLineas(s, arts);
    if error.Some? {
      return Error(400, error.value.Message());
    }
    if falloAlGuardar {
      ReponerTodos(s, descontados);
      ReponerDeshaceDescontar(h, antes, arts);
      return Error(500, ERROR_AL_GUARDAR_VENTA);
    }
    s.InsertarVenta(VentaDeLaRuta(fecha.value, total));
    return Exito(());
  }

  /**
    The route with the compensation it already performs for a failed save: a discount
    error also gives back the discounts already made, so an error of either kind leaves
    the articles as they were.
   */
  method PostVentaCompensada(s: Spreadsheet, fecha: Option<string>, articulos: Option<seq<LineaVenta>>, total: Option<int>,
                             falloAlGuardar: bool) returns (res: Respuesta<()>)
    modifies s`articulos, s`ventas
    ensures IsBlankOpt(fecha) ==> res == Error(400, FECHA_OBLIGATORIA) && unchanged(s)
    ensures !IsBlankOpt(fecha) && articulos.GetOr([]) == [] ==> res == Error(400, SIN_ARTICULOS) && unchanged(s)
    ensures res.Error? ==> s.Articulos() == old(s.Articulos()) && s.ventas == old(s.ventas)
    ensures !IsBlankOpt(fecha) && articulos.GetOr([]) != [] ==>
              var d := Descontar(old(s.Articulos()), articulos.GetOr([]));
              if d.error.Some? then res == Error(400, d.error.value.Message())
              else if falloAlGuardar then res == Error(500, ERROR_AL_GUARDAR_VENTA)
              else
                res == Exito(()) && s.Articulos() == d.arts
                && s.ventas == old(s.ventas) + [VentaNuevaValues(NextVentaId(old(s.ventas)), VentaDeLaRuta(fecha.value, total))]
  {
    if IsBlankOpt(fecha) {
      return Error(400, FECHA_OBLIGATORIA);
    }
    var arts := articulos.GetOr([]);
    if |arts| == 0 {
      return Error(400, SIN_ARTICULOS);
    }
    ghost var h := Headers(s.articulos);
    ghost var antes := s.Articulos();
    var error, descontados := DescontarLineas(s, arts);
    if error.Some? || falloAlGuardar {
      ReponerTodos(s, descontados);
      ReponerDeshaceDescontar(h, antes, arts);
      return if error.Some? then Error(400, error.value.Message()) else Error(500, ERROR_AL_GUARDAR_VENTA);
    }
    s.InsertarVenta(VentaDeLaRuta(fecha.value, total));
    return Exito(());
  }
}
