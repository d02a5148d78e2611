/** The backing file of the persistent inventories: its content and whether
    the process may read and write it. JSON text itself is not modelled; a
    file either is missing, does not decode, or decodes to a list of records. */
module Archivo {
  import opened Wrappers
  import opened Producto

  datatype Contenido = Ausente | NoJson | Json(registros: seq<Registro>)

  /** The exceptions opening and decoding the file can raise. */
  datatype ErrorArchivo = NoEncontrado | SinPermiso | Corrupto

  /** What a mutation of a persistent inventory can raise: the product
      setter's `ValueError`, or the save's error re-raised. */
  datatype ErrorInventario = Validacion(motivo: ErrorValidacion) | Persistencia(causa: ErrorArchivo)

  class ArchivoJson {
    var contenido: Contenido
    var lecturaPermitida: bool
    var escrituraPermitida: bool

    constructor (contenido: Contenido, lecturaPermitida: bool, escrituraPermitida: bool)
      ensures this.contenido == contenido
      ensures this.lecturaPermitida == lecturaPermitida
      ensures this.escrituraPermitida == escrituraPermitida
    {
      this.contenido := contenido;
      this.lecturaPermitida := lecturaPermitida;
      this.escrituraPermitida := escrituraPermitida;
    }

    /** `json.load(open(ruta, 'r'))`: a missing file is reported first, then
        a refused read, then content that does not decode. */
    function Leer(): (r: Result<seq<Registro>, ErrorArchivo>)
      reads this
      ensures r.Success? <==> contenido.Json? && lecturaPermitida
      ensures r.Success? ==> r.value == contenido.registros
      ensures r == Failure(NoEncontrado) <==> contenido == Ausente
    {
      match contenido
      case Ausente => Failure(NoEncontrado)
      case NoJson => if lecturaPermitida then Failure(Corrupto) else Failure(SinPermiso)
      case Json(regs) => if lecturaPermitida then Success(regs) else Failure(SinPermiso)
    }

    /** `json.dump(datos, open(ruta, 'w'))`: the whole content is replaced by
        the records, or, when writing is not permitted, a `PermissionError`
        is raised and the file stays as it was. */
    method Escribir(regs: seq<Registro>) returns (r: Outcome<ErrorArchivo>)
      modifies this
      ensures lecturaPermitida == old(lecturaPermitida) && escrituraPermitida == old(escrituraPermitida)
      ensures escrituraPermitida ==> r == Pass && contenido == Json(regs)
      ensures !escrituraPermitida ==> r == Fail(SinPermiso) && contenido == old(contenido)
    {
      if !escrituraPermitida {
        return Fail(SinPermiso);
      }
      contenido := Json(regs);
      return Pass;
    }
  }
}
