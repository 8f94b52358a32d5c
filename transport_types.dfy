/** Values shared by the throttling transport adapter: addresses, payloads and actor identities. */
module TransportTypes {
  import opened Wrappers

  newtype byte = b: int | 0 <= b < 256

  /** An inbound or outbound frame; only its bytes (and so its length) matter here. */
  type Payload = seq<byte>

  /** Identity of an actor (the throttler actor behind a handle, an upstream listener). */
  type ActorId = nat

  /** The reason carried by a forced, explicit disassociation. */
  datatype DisassociateInfo = Unknown | Shutdown | Quarantined

  /** A remote actor-system address: protocol, system name, and optional host and port. */
  datatype Address = Address(protocol: string, system: string, host: Option<string>, port: Option<int>)

  /** The key of every throttling lookup: the address with protocol and system name cleared. */
  function NakedAddress(a: Address): (n: Address)
    ensures n.protocol == "" && n.system == ""
    ensures n.host == a.host && n.port == a.port
  {
    a.(protocol := "", system := "")
  }

  /** Two addresses share a directive exactly when they agree on host and port. */
  lemma NakedAddressKey(a: Address, b: Address)
    ensures NakedAddress(a) == NakedAddress(b) <==> (a.host == b.host && a.port == b.port)
  {
  }

  /** Stripping twice strips nothing more. */
  lemma NakedAddressIdempotent(a: Address)
    ensures NakedAddress(NakedAddress(a)) == NakedAddress(a)
  {
  }
}
