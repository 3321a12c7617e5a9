/** The passenger row: registration creates it, verification moves it on. */
module Passengers {
  import opened Base

  datatype TipoDocumento = CC | CE | PASAPORTE

  datatype Documento = Documento(tipo: TipoDocumento, numero: string)

  datatype EstadoPasajero = PENDIENTE_VERIFICACION | VERIFICADO | REQUIERE_REVISION_MANUAL

  datatype Pasajero =
    Pasajero(id: Uuid, cuenta: string, documento: Documento, estado: EstadoPasajero, intentosFallidos: nat)

  /** A newly registered passenger may be verified and has not failed yet. */
  function Registrar(id: Uuid, cuenta: string, documento: Documento): Pasajero {
    Pasajero(id, cuenta, documento, PENDIENTE_VERIFICACION, 0)
  }
}
