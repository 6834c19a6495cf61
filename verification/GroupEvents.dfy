/** Signed roster events, and the cryptography they rest on as arbitrary functions. */
module GroupEvents {
  type Fingerprint = string
  type PublicKey = string
  type Session = string
  type Signature = seq<int>

  datatype Kind = Join | Left | Removed | Dissolved

  /** What a signature is made over: one constructor per canonical form. */
  datatype Form =
    | EventForm(groupId: string, epoch: int, kind: Kind, subject: Fingerprint, wallTs: int)
    | AttestForm(groupId: string, fingerprint: Fingerprint, nonce: string)
    | CreateForm(name: string, nonce: string)

  /** Ed25519 verification and the two key digests; nothing is assumed about them. */
  datatype Crypto = Crypto(
    fingerprint: PublicKey -> Fingerprint,
    handle: PublicKey -> string,
    verify: (PublicKey, Signature, Form) -> bool)

  datatype Event = Event(
    groupId: string,
    epoch: int,
    kind: Kind,
    subject: Fingerprint,
    wallTs: int,
    signer: Fingerprint,
    signature: Signature)
  {
    function Canonical(): Form {
      EventForm(groupId, epoch, kind, subject, wallTs)
    }

    predicate Departure() {
      kind.Left? || kind.Removed?
    }
  }
}
