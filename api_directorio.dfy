/**
  `POST /api/proveedores` and `POST /api/clientes`: create a supplier under the id the
  request gives, refused when a supplier already has it, and create a client under the
  next free id.
 */
module ApiDirectorio {
  import opened Wrappers
  import opened Text
  import opened SheetTable
  import opened Records
  import opened Ids
  import opened Directorio
  import opened GoogleSheets
  import opened Respuestas

  const ID_PROVEEDOR_Y_NOMBRE: string := "ID proveedor y nombre son obligatorios"
  const PROVEEDOR_REPETIDO: string := "Ya existe un proveedor con ese ID"
  const NOMBRE_OBLIGATORIO: string := "El nombre es obligatorio"

  // ---------------------------------------------------------------------------
  // POST /api/proveedores

  /** The request body: absent or `null` fields are `None`. */
  datatype PedidoProveedor = PedidoProveedor(
    id: Option<string>,
    idproveedor: Option<string>,
    nombre: Option<string>,
    telefono: Option<string>,
    email: Option<string>,
    direccion: Option<string>,
    contacto: Option<string>)

  /** `idproveedor ?? id`: an `idproveedor` that is present wins, even when blank. */
  function IdProveedorDelPedido(p: PedidoProveedor): Option<string> {
    if p.idproveedor.Some? then p.idproveedor else p.id
  }

  /**
    What `POST /api/proveedores` decides on the suppliers `getProveedores` shows: the
    supplier to append, every field trimmed and the absent optional ones left out, or the
    text of the 400. An id and a name are required, and an id some supplier has is
    refused.
   */
  function AltaProveedor(provs: seq<Proveedor>, p: PedidoProveedor): (r: Result<ProveedorNuevo, string>)
    ensures IsBlankOpt(IdProveedorDelPedido(p)) || IsBlankOpt(p.nombre) ==> r == Failure(ID_PROVEEDOR_Y_NOMBRE)
    ensures !IsBlankOpt(IdProveedorDelPedido(p)) && !IsBlankOpt(p.nombre) ==>
              (r.Failure? <==> ProveedorExiste(provs, IdProveedorDelPedido(p).value))
              && (r.Failure? ==> r.error == PROVEEDOR_REPETIDO)
    ensures r.Success? ==>
              ProveedorTrimmed(r.value) && !ProveedorExiste(provs, r.value.idproveedor)
              && r.value.idproveedor == Trim(IdProveedorDelPedido(p).value) && r.value.nombre == Trim(p.nombre.value)
              && r.value.telefono == RecortadoOpcional(p.telefono) && r.value.email == RecortadoOpcional(p.email)
              && r.value.direccion == RecortadoOpcional(p.direccion) && r.value.contacto == RecortadoOpcional(p.contacto)
  {
    var idProv := IdProveedorDelPedido(p);
    if IsBlankOpt(idProv) || IsBlankOpt(p.nombre) then Failure(ID_PROVEEDOR_Y_NOMBRE)
    else
      TrimIdempotent(idProv.value);
      TrimIdempotent(p.nombre.value);
      var id := Trim(idProv.value);
      if ProveedorExiste(provs, id) then Failure(PROVEEDOR_REPETIDO)
      else
        Success(ProveedorNuevo(id, Trim(p.nombre.value), RecortadoOpcional(p.telefono), RecortadoOpcional(p.email),
                               RecortadoOpcional(p.direccion), RecortadoOpcional(p.contacto)))
  }

  /** A supplier the route accepts keeps the suppliers' ids unique. */
  lemma {:induction false} AltaProveedorConservaIdsUnicos(provs: seq<Proveedor>, p: PedidoProveedor)
    requires AltaProveedor(provs, p).Success? && ClavesUnicas(ProveedorIds(provs))
    ensures ClavesUnicas(ProveedorIds(provs + [ProveedorLeido(AltaProveedor(provs, p).value)]))
  {
    var v := AltaProveedor(provs, p).value;
    var nuevo := ProveedorLeido(v);
    assert ProveedorIds(provs + [nuevo]) == ProveedorIds(provs) + [v.idproveedor];
    ClaveNuevaConservaUnicas(ProveedorIds(provs), v.idproveedor);
  }

  /**
    `POST /api/proveedores`: the decision of `AltaProveedor`, then the append. Reading and
    writing the tab is taken not to fail.
   */
  method PostProveedor(s: Spreadsheet, p: PedidoProveedor) returns (res: Respuesta<ProveedorNuevo>)
    modifies s`proveedores
    ensures var d := AltaProveedor(old(s.Proveedores()), p);
            (d.Failure? ==> res == Error(400, d.error) && unchanged(s))
            && (d.Success? ==> res == Exito(d.value) && s.proveedores == old(s.proveedores) + [ProveedorValues(d.value)])
    ensures res.Exito? && |old(s.proveedores)| >= 1 && ProveedorLayout(Headers(old(s.proveedores))) ==>
              s.Proveedores() == old(s.Proveedores()) + [ProveedorLeido(res.cuerpo)]
              && ProveedorExiste(s.Proveedores(), res.cuerpo.idproveedor)
              && (ClavesUnicas(ProveedorIds(old(s.Proveedores()))) ==> ClavesUnicas(ProveedorIds(s.Proveedores())))
  {
    var d := AltaProveedor(s.Proveedores(), p);
    if d.Failure? {
      return Error(400, d.error);
    }
    if ClavesUnicas(ProveedorIds(s.Proveedores())) {
      AltaProveedorConservaIdsUnicos(s.Proveedores(), p);
    }
    s.InsertarProveedor(d.value);
    return Exito(d.value);
  }

  // ---------------------------------------------------------------------------
  // POST /api/clientes

  /** The request body: absent or `null` fields are `None`. */
  datatype PedidoCliente = PedidoCliente(
    nombre: Option<string>,
    telefono: Option<string>,
    email: Option<string>,
    direccion: Option<string>)

  /** The client the route creates under id `id` on date `hoy`. */
  function ClienteDelPedido(p: PedidoCliente, id: string, hoy: string): (c: ClienteNuevo)
    requires !IsBlankOpt(p.nombre)
    ensures c.idcliente == id && c.fechaCreacion == hoy && c.nombre == Trim(p.nombre.value) && !IsBlank(c.nombre)
    ensures Trim(id) == id && Trim(hoy) == hoy ==> ClienteTrimmed(c)
  {
    TrimIdempotent(p.nombre.value);
    ClienteNuevo(id, Trim(p.nombre.value), RecortadoOpcional(p.telefono), RecortadoOpcional(p.email),
                 RecortadoOpcional(p.direccion), hoy)
  }

  /** A client created under an id no client has keeps the clients' ids unique. */
  lemma {:induction false} AltaClienteConservaIdsUnicos(clientes: seq<Cliente>, c: ClienteNuevo)
    requires !ClienteExiste(clientes, c.idcliente) && ClavesUnicas(ClienteIds(clientes))
    ensures ClavesUnicas(ClienteIds(clientes + [ClienteLeido(c)]))
  {
    assert ClienteIds(clientes + [ClienteLeido(c)]) == ClienteIds(clientes) + [c.idcliente];
    ClaveNuevaConservaUnicas(ClienteIds(clientes), c.idcliente);
  }

  /**
    `POST /api/clientes`: a name is required; the client gets the next id and today's
    date, `hoy`. Reading and writing the tab is taken not to fail.
   */
  method PostCliente(s: Spreadsheet, p: PedidoCliente, hoy: string) returns (res: Respuesta<ClienteNuevo>)
    modifies s`clientes
    ensures IsBlankOpt(p.nombre) ==> res == Error(400, NOMBRE_OBLIGATORIO) && unchanged(s)
    ensures !IsBlankOpt(p.nombre) ==>
              var c := ClienteDelPedido(p, NextClienteId(old(s.clientes)), hoy);
              res == Exito(c) && s.clientes == old(s.clientes) + [ClienteValues(c)]
              && !ClienteExiste(old(s.Clientes()), c.idcliente)
    ensures res.Exito? && |old(s.clientes)| >= 1 && ClienteLayout(Headers(old(s.clientes))) && Trim(hoy) == hoy ==>
              s.Clientes() == old(s.Clientes()) + [ClienteLeido(res.cuerpo)]
              && (ClavesUnicas(ClienteIds(old(s.Clientes()))) ==> ClavesUnicas(ClienteIds(s.Clientes())))
    ensures res.Exito? && |old(s.clientes)| >= 1 && HeaderIndex(Headers(old(s.clientes)), CLIENTE_ID_ALIASES) == 0 ==>
              LocateById(s.clientes, CLIENTE_ID_ALIASES, res.cuerpo.idcliente, CLIENTE_NO_ENCONTRADO) == Success(|old(s.clientes)|)
  {
    if IsBlankOpt(p.nombre) {
      return Error(400, NOMBRE_OBLIGATORIO);
    }
    var id := s.SiguienteIdCliente();
    var c := ClienteDelPedido(p, id, hoy);
    SiguienteIdTrimmed(ClienteIds(s.Clientes()));
    if ClavesUnicas(ClienteIds(s.Clientes())) {
      AltaClienteConservaIdsUnicos(s.Clientes(), c);
    }
    s.InsertarCliente(c);
    return Exito(c);
  }
}
