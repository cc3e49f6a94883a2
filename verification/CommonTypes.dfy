/** Names shared by the relay, its clients and the connections between them. */
module CommonTypes {
  type Address = string
  type RoomId = string
  type Bytes = seq<bv8>
}
