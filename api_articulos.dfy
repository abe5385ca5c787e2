/**
  The article routes: `POST /api/articulos` (create an article), `GET
  /api/articulos/buscar` (find one by barcode or id) and `GET
  /api/articulos/check-codbarra` (is a barcode taken).
 */
module ApiArticulos {
  import opened Wrappers
  import opened Text
  import opened SheetTable
  import opened Records
  import opened ArticulosTab
  import opened GoogleSheets
  import opened Respuestas

  const ID_Y_NOMBRE: string := "ID art\U{ED}culo y nombre son obligatorios"
  const CODBARRA_REPETIDO: string := "Ya existe un art\U{ED}culo con ese c\U{F3}digo de barras"
  const ID_REPETIDO: string := "Ya existe un art\U{ED}culo con ese c\U{F3}digo"
  const FALTA_CRITERIO: string := "Debe proporcionar codbarra o id"

  // ---------------------------------------------------------------------------
  // POST /api/articulos

  /**
    The request body: absent or `null` fields are `None`, and so is a number `Number`
    does not read as a number.
   */
  datatype PedidoArticulo = PedidoArticulo(
    codbarra: Option<string>,
    id: Option<string>,
    idarticulo: Option<string>,
    nombre: Option<string>,
    descripcion: Option<string>,
    precio: Option<int>,
    stock: Option<int>)

  /** `idarticulo ?? id`: an `idarticulo` that is present wins, even when blank. */
  function IdDelPedido(p: PedidoArticulo): Option<string> {
    if p.idarticulo.Some? then p.idarticulo else p.id
  }

  /**
    The article the route builds from a request, or the text of the 400 its first check
    answers: an id and a name are required; the other fields are trimmed, an absent
    description becomes empty and a number that is not one becomes 0.
   */
  function ArticuloDelPedido(p: PedidoArticulo): (r: Result<ArticuloNuevo, string>)
    ensures r.Failure? <==> IsBlankOpt(IdDelPedido(p)) || IsBlankOpt(p.nombre)
    ensures r.Failure? ==> r.error == ID_Y_NOMBRE
    ensures r.Success? ==>
              ArticuloTrimmed(r.value) && !IsBlank(r.value.idarticulo) && !IsBlank(r.value.nombre)
              && r.value.idarticulo == Trim(IdDelPedido(p).value) && r.value.nombre == Trim(p.nombre.value)
              && r.value.codbarra == Recortado(p.codbarra) && r.value.descripcion == Some(Recortado(p.descripcion))
              && r.value.precio == NumOrZero(p.precio) && r.value.stock == NumOrZero(p.stock)
  {
    var idArt := IdDelPedido(p);
    if IsBlankOpt(idArt) || IsBlankOpt(p.nombre) then Failure(ID_Y_NOMBRE)
    else
      TrimIdempotent(idArt.value);
      TrimIdempotent(p.nombre.value);
      Success(ArticuloNuevo(Recortado(p.codbarra), Trim(idArt.value), Trim(p.nombre.value),
                            Some(Recortado(p.descripcion)), NumOrZero(p.precio), NumOrZero(p.stock)))
  }

  /**
    What `POST /api/articulos` decides on the articles `getArticulos` shows: the article
    to append, or the text of the 400. A barcode another article has is refused; the id
    is not checked.
   */
  function AltaArticulo(arts: seq<Articulo>, p: PedidoArticulo): (r: Result<ArticuloNuevo, string>)
    ensures ArticuloDelPedido(p).Failure? ==> r == ArticuloDelPedido(p)
    ensures ArticuloDelPedido(p).Success? ==>
              var a := ArticuloDelPedido(p).value;
              (r.Failure? <==> ArticuloExistePorCodbarra(arts, a.codbarra, None))
              && (r.Failure? ==> r.error == CODBARRA_REPETIDO)
              && (r.Success? ==> r.value == a)
  {
    match ArticuloDelPedido(p)
    case Failure(e) => Failure(e)
    case Success(a) =>
      if a.codbarra != "" && ArticuloExistePorCodbarra(arts, a.codbarra, None) then Failure(CODBARRA_REPETIDO)
      else Success(a)
  }

  /** The barcodes of a list of articles. */
  function Codbarras(arts: seq<Articulo>): (cs: seq<string>)
    ensures |cs| == |arts| && forall j :: 0 <= j < |arts| ==> cs[j] == arts[j].codbarra
  {
    if arts == [] then [] else [arts[0].codbarra] + Codbarras(arts[1..])
  }

  /**
    An article the route accepts keeps the barcodes unique: its own barcode is blank or
    matches no listed barcode.
   */
  lemma {:induction false} AltaConservaCodbarrasUnicas(arts: seq<Articulo>, p: PedidoArticulo, categoria: Option<string>)
    requires AltaArticulo(arts, p).Success? && ClavesUnicas(Codbarras(arts))
    ensures ClavesUnicas(Codbarras(arts + [ArticuloLeido(AltaArticulo(arts, p).value, categoria)]))
  {
    var a := AltaArticulo(arts, p).value;
    var nuevo := ArticuloLeido(a, categoria);
    assert Codbarras(arts + [nuevo]) == Codbarras(arts) + [a.codbarra];
    forall i | 0 <= i < |arts| && !IsBlank(Codbarras(arts)[i])
      ensures !SameKey(Codbarras(arts)[i], a.codbarra)
    {
      if SameKey(arts[i].codbarra, a.codbarra) {
        SameKeyBlank(arts[i].codbarra, a.codbarra);
        assert CodbarraClash(arts[i], a.codbarra, None);
      }
    }
    ClaveNuevaConservaUnicas(Codbarras(arts), a.codbarra);
  }

  /**
    As written, the route does not check the id: an article created under an id that is
    already listed is never the one the id finds, so the stock operations keep acting on
    the older article.
   */
  lemma {:induction false} AltaConIdRepetido(arts: seq<Articulo>, p: PedidoArticulo, categoria: Option<string>)
    requires AltaArticulo(arts, p).Success? && ArticuloExiste(arts, AltaArticulo(arts, p).value.idarticulo)
    ensures var a := AltaArticulo(arts, p).value;
            var k := FindArticulo(arts + [ArticuloLeido(a, categoria)], a.idarticulo);
            0 <= k < |arts| && k == FindArticulo(arts, a.idarticulo)
  {
    var a := AltaArticulo(arts, p).value;
    FindArticuloAppended(arts, ArticuloLeido(a, categoria), a.idarticulo);
  }

  /** Appending an article does not move the lookup of an id some listed article already has. */
  lemma {:induction false} FindArticuloAppended(arts: seq<Articulo>, x: Articulo, id: string)
    requires ArticuloExiste(arts, id)
    ensures 0 <= FindArticulo(arts, id) < |arts|
    ensures FindArticulo(arts + [x], id) == FindArticulo(arts, id)
  {
    ArticuloExisteIffFound(arts, id);
    var all := arts + [x];
    var k := FindArticulo(arts, id);
    var k' := FindArticulo(all, id);
    assert all[k] == arts[k];
    assert k' >= 0 && k' <= k;
    assert all[k'] == arts[k'];
  }

  /**
    `POST /api/articulos` as written: the checks of `AltaArticulo`, then the append.
    Reading and writing the tab is taken not to fail.
   */
  method PostArticulo(s: Spreadsheet, p: PedidoArticulo) returns (res: Respuesta<ArticuloNuevo>)
    modifies s`articulos
    ensures var d := AltaArticulo(old(s.Articulos()), p);
            (d.Failure? ==> res == Error(400, d.error) && unchanged(s))
            && (d.Success? ==> res == Exito(d.value) && s.articulos == old(s.articulos) + [ArticuloValues(d.value)])
    ensures res.Exito? && |old(s.articulos)| >= 1 && ArticuloLayout(ArticuloCols(Headers(old(s.articulos)))) ==>
              var c := ArticuloCols(Headers(old(s.articulos)));
              s.Articulos() == old(s.Articulos()) + [ArticuloLeido(res.cuerpo, if c.categoria >= 0 then Some("") else None)]
              && (ClavesUnicas(Codbarras(old(s.Articulos()))) ==> ClavesUnicas(Codbarras(s.Articulos())))
  {
    var d := AltaArticulo(s.Articulos(), p);
    if d.Failure? {
      return Error(400, d.error);
    }
    var c := ArticuloCols(Headers(s.articulos));
    if ClavesUnicas(Codbarras(s.Articulos())) {
      AltaConservaCodbarrasUnicas(s.Articulos(), p, if c.categoria >= 0 then Some("") else None);
    }
    s.InsertarArticulo(d.value);
    return Exito(d.value);
  }

  /**
    The decision with the id check the edit route makes (and that the other create
    routes make): an id some listed article has is refused before the barcode is looked
    at.
   */
  function AltaArticuloCorregida(arts: seq<Articulo>, p: PedidoArticulo): (r: Result<ArticuloNuevo, string>)
    ensures ArticuloDelPedido(p).Failure? ==> r == ArticuloDelPedido(p)
    ensures ArticuloDelPedido(p).Success? ==>
              var a := ArticuloDelPedido(p).value;
              (r.Failure? <==> ArticuloExiste(arts, a.idarticulo) || ArticuloExistePorCodbarra(arts, a.codbarra, None))
              && (r.Failure? ==> r.error == (if ArticuloExiste(arts, a.idarticulo) then ID_REPETIDO else CODBARRA_REPETIDO))
              && (r.Success? ==> r.value == a)
  {
    match ArticuloDelPedido(p)
    case Failure(e) => Failure(e)
    case Success(a) =>
      if ArticuloExiste(arts, a.idarticulo) then Failure(ID_REPETIDO)
      else AltaArticulo(arts, p)
  }

  /** The ids of the articles: an accepted article under the corrected decision keeps them unique. */
  lemma {:induction false} AltaCorregidaConservaIdsUnicos(arts: seq<Articulo>, p: PedidoArticulo, categoria: Option<string>)
    requires AltaArticuloCorregida(arts, p).Success? && ClavesUnicas(ArticuloIds(arts))
    ensures ClavesUnicas(ArticuloIds(arts + [ArticuloLeido(AltaArticuloCorregida(arts, p).value, categoria)]))
  {
    var a := AltaArticuloCorregida(arts, p).value;
    var nuevo := ArticuloLeido(a, categoria);
    assert ArticuloIds(arts + [nuevo]) == ArticuloIds(arts) + [a.idarticulo];
    forall i | 0 <= i < |arts| && !IsBlank(ArticuloIds(arts)[i])
      ensures !SameKey(ArticuloIds(arts)[i], a.idarticulo)
    {
    }
    ClaveNuevaConservaUnicas(ArticuloIds(arts), a.idarticulo);
  }

  /**
    The route with the id check: a created article is the one its id then finds, and
    the ids as well as the barcodes stay unique.
   */
  method PostArticuloCorregido(s: Spreadsheet, p: PedidoArticulo) returns (res: Respuesta<ArticuloNuevo>)
    modifies s`articulos
    ensures var d := AltaArticuloCorregida(old(s.Articulos()), p);
            (d.Failure? ==> res == Error(400, d.error) && unchanged(s))
            && (d.Success? ==> res == Exito(d.value) && s.articulos == old(s.articulos) + [ArticuloValues(d.value)])
    ensures res.Exito? && |old(s.articulos)| >= 1 && ArticuloLayout(ArticuloCols(Headers(old(s.articulos)))) ==>
              FindArticulo(s.Articulos(), res.cuerpo.idarticulo) == |old(s.Articulos())|
              && (ClavesUnicas(ArticuloIds(old(s.Articulos()))) ==> ClavesUnicas(ArticuloIds(s.Articulos())))
              && (ClavesUnicas(Codbarras(old(s.Articulos()))) ==> ClavesUnicas(Codbarras(s.Articulos())))
  {
    var d := AltaArticuloCorregida(s.Articulos(), p);
    if d.Failure? {
      return Error(400, d.error);
    }
    var tab := s.articulos;
    var c := ArticuloCols(Headers(tab));
    var categoria := if c.categoria >= 0 then Some("") else None;
    if |tab| >= 1 && ArticuloLayout(c) {
      InsertedArticuloFound(tab, d.value);
      if ClavesUnicas(ArticuloIds(s.Articulos())) {
        AltaCorregidaConservaIdsUnicos(s.Articulos(), p, categoria);
      }
      if ClavesUnicas(Codbarras(s.Articulos())) {
        AltaConservaCodbarrasUnicas(s.Articulos(), p, categoria);
      }
    }
    s.InsertarArticulo(d.value);
    return Exito(d.value);
  }

  // ---------------------------------------------------------------------------
  // GET /api/articulos/buscar

  /** The fields of the article the search answers with; `id` repeats `idarticulo`. */
  datatype ArticuloEncontrado = ArticuloEncontrado(
    id: string,
    idarticulo: string,
    codbarra: string,
    nombre: string,
    precio: int,
    stock: int)

  function Resumen(a: Articulo): ArticuloEncontrado {
    ArticuloEncontrado(a.idarticulo, a.idarticulo, a.codbarra, a.nombre, a.precio, a.stock)
  }

  /** The search's test: a given barcode or a given id matches, trimmed and lower-cased. */
  predicate Coincide(a: Articulo, codbarra: string, id: string) {
    (codbarra != "" && Lower(Trim(a.codbarra)) == Lower(codbarra))
    || (id != "" && Lower(Trim(a.idarticulo)) == Lower(id))
  }

  /** `articulos.find(...)` from position `from`: the first article that matches, or -1. */
  function PrimeraCoincidencia(arts: seq<Articulo>, codbarra: string, id: string, from: nat): (k: int)
    requires from <= |arts|
    decreases |arts| - from
    ensures k == -1 || from <= k < |arts|
    ensures k >= 0 ==> Coincide(arts[k], codbarra, id)
    ensures forall j :: from <= j < |arts| && (k < 0 || j < k) ==> !Coincide(arts[j], codbarra, id)
  {
    if from == |arts| then -1
    else if Coincide(arts[from], codbarra, id) then from
    else PrimeraCoincidencia(arts, codbarra, id, from + 1)
  }

  /**
    `GET /api/articulos/buscar` on the articles `getArticulos` shows: with neither a
    barcode nor an id, 400; otherwise the first article that matches either, or none.
   */
  function Buscar(arts: seq<Articulo>, codbarra: Option<string>, id: Option<string>): (r: Respuesta<Option<ArticuloEncontrado>>)
    ensures r.Error? <==> IsBlankOpt(codbarra) && IsBlankOpt(id)
    ensures r.Error? ==> r == Error(400, FALTA_CRITERIO)
    ensures r.Exito? ==>
              (r.cuerpo.None? <==> forall j :: 0 <= j < |arts| ==> !Coincide(arts[j], Recortado(codbarra), Recortado(id)))
    ensures r.Exito? && r.cuerpo.Some? ==>
              exists k :: 0 <= k < |arts| && r.cuerpo.value == Resumen(arts[k])
                          && Coincide(arts[k], Recortado(codbarra), Recortado(id))
                          && forall j :: 0 <= j < k ==> !Coincide(arts[j], Recortado(codbarra), Recortado(id))
  {
    var c := Recortado(codbarra);
    var i := Recortado(id);
    if c == "" && i == "" then Error(400, FALTA_CRITERIO)
    else
      var k := PrimeraCoincidencia(arts, c, i, 0);
      if k < 0 then Exito(None) else Exito(Some(Resumen(arts[k])))
  }

  /**
    A search by id alone finds the article the stock operations act on for that id, and
    finds none exactly when no article has it.
   */
  lemma {:induction false} BuscarPorIdComoStock(arts: seq<Articulo>, codbarra: Option<string>, id: Option<string>)
    requires IsBlankOpt(codbarra) && !IsBlankOpt(id)
    ensures ArticuloExiste(arts, id.value) ==>
              Buscar(arts, codbarra, id) == Exito(Some(Resumen(arts[FindArticulo(arts, id.value)])))
    ensures !ArticuloExiste(arts, id.value) ==> Buscar(arts, codbarra, id) == Exito(None)
  {
    var i := Recortado(id);
    TrimIdempotent(id.value);
    assert forall j :: 0 <= j < |arts| ==> (Coincide(arts[j], "", i) <==> SameKey(arts[j].idarticulo, id.value));
    ArticuloExisteIffFound(arts, id.value);
    var k := PrimeraCoincidencia(arts, "", i, 0);
    var f := FindArticulo(arts, id.value);
    if ArticuloExiste(arts, id.value) {
      assert k >= 0 && k <= f;
      assert k == f;
    }
  }

  // ---------------------------------------------------------------------------
  // GET /api/articulos/check-codbarra

  /**
    `GET /api/articulos/check-codbarra`: whether another article has the barcode; an
    absent barcode, or a read that fails (`lecturaFalla`), answers `false`.
   */
  function CheckCodbarra(arts: seq<Articulo>, codbarra: Option<string>, excluirId: Option<string>, lecturaFalla: bool)
    : (existe: bool)
    ensures IsBlankOpt(codbarra) || lecturaFalla ==> !existe
    ensures existe ==> exists k :: 0 <= k < |arts| && SameKey(arts[k].codbarra, codbarra.value)
    ensures !IsBlankOpt(codbarra) && !lecturaFalla ==>
              (existe <==> exists k :: 0 <= k < |arts| && SameKey(arts[k].codbarra, codbarra.value)
                                       && (IsBlankOpt(excluirId) || !SameKey(arts[k].idarticulo, excluirId.value)))
  {
    var c := Recortado(codbarra);
    if c == "" then false
    else if lecturaFalla then false
    else
      TrimIdempotent(codbarra.value);
      ArticuloExistePorCodbarra(arts, c, RecortadoOpcional(excluirId))
  }

  /**
    The form's barcode check and the create route agree: for a request the route would
    otherwise accept, the check reports the barcode taken exactly when the route refuses
    it.
   */
  lemma {:induction false} CheckCodbarraComoAlta(arts: seq<Articulo>, p: PedidoArticulo)
    requires ArticuloDelPedido(p).Success?
    ensures CheckCodbarra(arts, p.codbarra, None, false) <==> AltaArticulo(arts, p) == Failure(CODBARRA_REPETIDO)
  {
    if p.codbarra.Some? {
      TrimIdempotent(p.codbarra.value);
    }
  }

  /**
    In edit mode an article's own barcode is not reported: when only the article with
    id `excluirId` has the barcode, the check answers `false`.
   */
  lemma {:induction false} CheckCodbarraExcluyePropio(arts: seq<Articulo>, codbarra: string, excluirId: string, k: nat)
    requires k < |arts| && !IsBlank(excluirId) && SameKey(arts[k].idarticulo, excluirId)
    requires forall j :: 0 <= j < |arts| && j != k ==> !SameKey(arts[j].codbarra, codbarra)
    ensures !CheckCodbarra(arts, Some(codbarra), Some(excluirId), false)
  {
    TrimIdempotent(codbarra);
    TrimIdempotent(excluirId);
    var c := Trim(codbarra);
    var e := Trim(excluirId);
    assert e != "";
    forall j | 0 <= j < |arts|
      ensures !CodbarraClash(arts[j], c, Some(e))
    {
      if j == k {
        assert SameKey(arts[j].idarticulo, e);
      } else {
        assert !SameKey(arts[j].codbarra, c);
      }
    }
  }
}
