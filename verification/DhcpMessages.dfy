/** The private lease protocol: its messages and constants. */
module DhcpMessages {

  const MESSAGE_TIMEOUT := 10

  const TYPE_DISCOVER := 1
  const TYPE_OFFER := 2
  const TYPE_REQUEST := 3
  const TYPE_ACK := 4
  const TYPE_RELEASE := 5

  const CODE_OK := 0
  const CODE_ERR_NOIP := 1
  const CODE_REQ_ALLOC := 2
  const CODE_REQ_EXT := 3
  const CODE_ERR_REQ := 4

  /** A message as received, any field value included. */
  datatype Msg = Msg(kind: nat, code: nat, ttl: nat, ip: nat, mask: nat)

  /** Every well-sized message is shown with the names of its type and code, which are looked up in
      tables without a check. Of one without a name, no outcome is defined. */
  predicate Unnamed(msg: Msg) {
    msg.kind > TYPE_RELEASE || msg.code > CODE_ERR_REQ
  }

  /** The sender of a datagram. */
  datatype Endpoint = Endpoint(host: nat, port: nat)

  datatype Packet = Packet(peer: Endpoint, msg: Msg)

  /** An entry of the address pool. */
  datatype Node = Node(ip: nat, mask: nat)

  function DiscoverMsg(): Msg { Msg(TYPE_DISCOVER, CODE_OK, 0, 0, 0) }
  function OfferOk(ttl: nat, a: Node): Msg { Msg(TYPE_OFFER, CODE_OK, ttl, a.ip, a.mask) }
  function OfferNg(): Msg { Msg(TYPE_OFFER, CODE_ERR_NOIP, 0, 0, 0) }
  function RequestMsg(code: nat, ttl: nat, a: Node): Msg { Msg(TYPE_REQUEST, code, ttl, a.ip, a.mask) }
  function AckOk(ttl: nat, a: Node): Msg { Msg(TYPE_ACK, CODE_OK, ttl, a.ip, a.mask) }
  function AckNg(): Msg { Msg(TYPE_ACK, CODE_ERR_REQ, 0, 0, 0) }
  function ReleaseMsg(a: Node): Msg { Msg(TYPE_RELEASE, CODE_OK, 0, a.ip, 0) }
}
