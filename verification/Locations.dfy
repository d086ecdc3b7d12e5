/** What the master tells a client about a chunk, shared by both sides. */
module Locations {

  type Addr = string
  type Handle = int

  /** An empty primary means the master knows none. */
  datatype Location = Location(handle: Handle, primary: Addr, secondaries: seq<Addr>, version: int)

  /** Everyone a client contacts: the primary first, then the secondaries. */
  function Contacts(l: Location): seq<Addr> {
    [l.primary] + l.secondaries
  }
}
