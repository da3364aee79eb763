/** The identifier type of internal/types/types.go the other modules share. */
module Identifiers {

  datatype DeviceId = DeviceId(text: string)
}
