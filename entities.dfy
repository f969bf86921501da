/**
 * The three records of the parking service, in the shape of the `estadias`,
 * `eventos` and `facturas` tables and of their JSON form. Timestamps are
 * opaque integers; money is an integer number of pesos.
 */
module Entities {
  import opened Util

  type Timestamp = int

  /** The `tipo` value that marks an entry; every other value is treated as an exit. */
  const Entry: string := "entrada"

  /**
   * A stay (`Estadia`): one vehicle's occupancy of a spot. `exit` is
   * `salida` (None while the vehicle is inside) and `minutesTotal` is
   * `minutos_total`, set together with `exit`.
   */
  datatype Stay = Stay(id: int, plate: string, entry: Timestamp, exit: Option<Timestamp>, minutesTotal: Option<int>)

  /** An event (`Evento`): a logged entry or exit request for a plate. */
  datatype Event = Event(id: int, plate: string, kind: string, timestamp: Timestamp)

  /** An invoice (`Factura`): billed minutes, rate per minute and total. */
  datatype Invoice = Invoice(id: int, plate: string, minutes: int, rate: int, total: int, date: Timestamp)

  /** A stay whose `salida` is null occupies a spot. */
  predicate IsActive(s: Stay)
  {
    s.exit.None?
  }

  function StayId(s: Stay): int { s.id }

  function EventId(e: Event): int { e.id }

  function InvoiceId(f: Invoice): int { f.id }
}
