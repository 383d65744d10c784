/** The head of every message between servers. */
module Heads {
  import opened Bytes

  /** Server ids are compared and looked up, never computed with. */
  newtype ServerId = n: int | 0 <= n < 0x1_0000

  datatype Head = Head(ssCmd: I8, transType: I8, srcType: I8, dstType: I8, srcID: ServerId, dstID: ServerId)
}
