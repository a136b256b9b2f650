/** Messages and constants shared by the two ends of the RPC protocol. */
module RpcTypes {
  import opened Basics

  const BIND: nat := 1
  const TIMEOUT_FAILURE := -1
  const ATMOSTONCE_FAILURE := -4
  const OLDSRV_FAILURE := -5
  const BIND_FAILURE := -6
  const CANCEL_FAILURE := -7

  /** `req_header`: packed once when the call is made and sent unchanged ever after. */
  datatype Header = Header(xid: nat, proc: nat, cltNonce: nat, srvNonce: nat, xidRep: nat)

  datatype Request = Request(h: Header, args: Bytes)

  /** A reply pdu: `reply_header` and the marshalled result. */
  datatype Reply = Reply(xid: nat, ret: int, body: Bytes)
}
