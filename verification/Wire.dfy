/** Request IDs, their parity and the envelopes that carry them. */
module Wire {
  import opened Prelude

  datatype Side = Client | Server

  datatype Parity = Odd | Even

  datatype MessageKind = IncomingRequest | IncomingResponse

  /** An encoded body: its value, and how the receiving build classifies it. */
  datatype Body = Body(value: nat, failed: bool, unknown: bool)

  /** A wire envelope with the length of its encoding. */
  datatype Envelope = Envelope(id: nat, body: Body, length: nat)

  const UNANSWERED := Body(1, true, false)
  const UNKNOWN := Body(2, true, false)

  function Peer(side: Side): Side {
    if side == Client then Server else Client
  }

  function ParityOf(id: nat): Parity {
    if id % 2 == 1 then Odd else Even
  }

  function Own(side: Side): Parity {
    if side == Client then Odd else Even
  }

  /** Lowest positive ID of a parity, the first one allocated. */
  function First(p: Parity): nat {
    if p == Odd then 1 else 2
  }

  /** Classifies an incoming ID by the receiver's own request parity. */
  function KindOf(id: nat, own: Parity): MessageKind {
    if ParityOf(id) == own then IncomingResponse else IncomingRequest
  }

  /** ID of the request that a side takes after `k` others. */
  function IdAt(side: Side, k: nat): nat {
    First(Own(side)) + 2 * k
  }

  /** Number of requests a side takes before the one with this ID. */
  function IndexOf(side: Side, id: nat): nat {
    if id < First(Own(side)) then 0 else (id - First(Own(side))) / 2
  }

  /** An ID that still fits 64 bits, and none otherwise. */
  function UpTo64(id: nat): Option<nat> {
    if id <= U64_MAX then Some(id) else None
  }

  /** The ID after `id`, or none rather than a wrapped one. */
  function NextId(id: nat): Option<nat> {
    UpTo64(id + 2)
  }

  /**
   Allocated IDs are told apart by parity alone: both sides agree on who asked,
   and the index is recovered from the ID.
   */
  lemma AllocatedIds(side: Side, k: nat)
    ensures KindOf(IdAt(side, k), Own(side)) == IncomingResponse
    ensures KindOf(IdAt(side, k), Own(Peer(side))) == IncomingRequest
    ensures IndexOf(side, IdAt(side, k)) == k
    ensures NextId(IdAt(side, k)).Some? ==> NextId(IdAt(side, k)).value == IdAt(side, k + 1)
  {
  }
}
