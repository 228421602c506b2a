/** The records the web client receives from the backend and its status line
    (playbox-frontend/src/types/index.ts). Prices are integer amounts in
    place of JavaScript numbers. */
module ClientTypes {

  datatype Sport = Sport(id: int, name: string, courtName: string, pricePerHour: int, active: bool)

  datatype Slot = Slot(id: int, slotDate: string, startTime: string, endTime: string, booked: bool)

  /** A slot together with the sport it belongs to. */
  datatype SlotDetails = SlotDetails(
    id: int,
    slotDate: string,
    startTime: string,
    endTime: string,
    booked: bool,
    sportId: int)

  datatype StatusKind = Info | Success | Error | Warning

  /** The admin console's status line: a text and how it is coloured. */
  datatype Status = Status(text: string, kind: StatusKind)
}
