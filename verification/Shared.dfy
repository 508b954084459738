/** Types, constants and host rules that the three contracts share (packages/shared/src/lib.rs). */
module Shared {

  datatype Option<+T> = None | Some(value: T)

  const U32_MAX := 0xFFFF_FFFF
  type u32 = n: nat | n <= U32_MAX

  /** An address is known to the contracts only through its strkey text. */
  datatype Address = Address(strkey: string)

  /** A 32-byte identifier. The contracts compare these for equality and do nothing else with them. */
  datatype Hash = Hash(value: nat)

  const STRKEY_ADDRESS_LEN := 56

  /** The strkey of the all-zero public key: 'G', fifty-two 'A's, and the checksum "WHF". */
  predicate IsZeroOrSentinel(a: Address) {
    && |a.strkey| == STRKEY_ADDRESS_LEN
    && a.strkey[0] == 'G'
    && (forall i | 1 <= i < 53 :: a.strkey[i] == 'A')
    && a.strkey[53] == 'W' && a.strkey[54] == 'H' && a.strkey[55] == 'F'
  }

  predicate IsValidPrincipal(a: Address) {
    && |a.strkey| == STRKEY_ADDRESS_LEN
    && !IsZeroOrSentinel(a)
    && forall i | 0 <= i < |a.strkey| :: 'A' <= a.strkey[i] <= 'Z' || '2' <= a.strkey[i] <= '7'
  }

  // ----- records -----

  datatype IssuerStatus = Active | Suspended | Revoked
  datatype ProofStatus = Active | Revoked

  datatype IssuerRecord = IssuerRecord(
    id: Hash, address: Address, metadata: Hash, status: IssuerStatus, createdAt: nat, updatedAt: nat)

  datatype ProofRecord = ProofRecord(
    id: Hash, commitment: Hash, issuer: Address, status: ProofStatus,
    schema: u32, expiresAt: nat, createdAt: nat, revokedAt: nat)

  // ----- errors and replies -----

  datatype Error =
    // ContractError
    | AlreadyInitialized | NotInitialized | InvalidInput
    // IssuerError
    | IssuerAlreadyRegistered | IssuerNotFound | IssuerAddressAlreadyRegistered | IssuerAddressNotFound
    | IssuerIsRevoked | InvalidTransition | InvalidIssuerAddress
    // ProofError
    | ProofAlreadyRegistered | ProofNotFound | ProofAlreadyRevoked | ProofExpired
    | InvalidSchemaVersion | SchemaVersionNotApproved | InvalidProofAddress

  datatype Value = Unit | Flag(flag: bool) | Issuer(issuer: IssuerRecord) | Proof(proof: ProofRecord)

  /** What a call gives back: a value, a returned error, or a trap (a panic or a failed `require_auth`). */
  datatype Reply = Ok(value: Value) | Err(error: Error) | Trap

  /** A contract body's effect before the host commits or rolls back: `state` is what the body left behind,
      partial writes included. */
  datatype Result<+S> = Result(state: S, reply: Reply)

  /** What the host tells a running contract. `require_auth(a)` passes exactly when `a in auth`. */
  datatype Env = Env(self: Address, now: nat, sequence: nat, auth: set<Address>)

  // ----- events -----

  datatype Event =
    // protocol-config
    | Initialized(admin: Address)
    | AdminChanged(newAdmin: Address)
    | Paused
    | Unpaused
    | SchemaApproved(schema: u32)
    | SchemaDeprecated(schema: u32)
    // every contract
    | UpgradeAllowlisted(hash: Hash, newVersion: u32, admin: Address)
    | UpgradeRevoked(hash: Hash, admin: Address)
    | ContractUpgraded(hash: Hash, oldVersion: u32, newVersion: u32, admin: Address)
    // issuer-registry
    | IssuerRegistered(id: Hash, address: Address, metadata: Hash, createdAt: nat)
    | IssuerMetadataUpdated(id: Hash, metadata: Hash, updatedAt: nat)
    | IssuerStatusSet(id: Hash, status: IssuerStatus, updatedAt: nat)  // IssuerReactivated, -Suspended, -Revoked
    | IssuerAddressRotated(id: Hash, oldAddress: Address, newAddress: Address, updatedAt: nat)

  // ----- the host's rules for the lifetime of a persistent entry -----

  const TTL_THRESHOLD := 50_000
  const TTL_EXTEND_TO := 500_000
  /** Host parameter `min_persistent_entry_ttl` on a default network. */
  const TTL_MINIMUM := 4_096

  /** Writing a key: a new entry gets the host minimum, an existing one keeps its live-until ledger. */
  function Written<K(==)>(live: map<K, nat>, key: K, sequence: nat): map<K, nat> {
    if key in live then live else live[key := sequence + TTL_MINIMUM - 1]
  }

  /** `extend_ttl(key, TTL_THRESHOLD, TTL_EXTEND_TO)`: moves the live-until ledger only when the remaining life
      is at or below the threshold. */
  function Extended<K(==)>(live: map<K, nat>, key: K, sequence: nat): map<K, nat> {
    if key in live && live[key] <= sequence + TTL_THRESHOLD then live[key := sequence + TTL_EXTEND_TO] else live
  }

  /** Reading a key without extending it: an archived entry comes back with the host minimum. */
  function Restored<K(==)>(live: map<K, nat>, key: K, sequence: nat): map<K, nat> {
    if key in live && live[key] < sequence then live[key := sequence + TTL_MINIMUM - 1] else live
  }
}
