/** The errors a receiver answers with, and the local faults that escape parsing (as4/errors.py,
    as4/profiles/peppol/exceptions.py). */
module Errors {
  import opened XmlMapping

  datatype Coverage = MessagingCovered | BodyCovered | PayloadsCovered | OtherCoverage(name: string)

  /** One constructor for each receiptable exception class. `Custom` stands for the subclasses that a
      caller's own hook may raise. */
  datatype Refusal =
    | BundledMessages
    | ValueInconsistent(field: LoadError)
    | UserMessageNotFound
    | PayloadInfoNotFound
    | MessagingNotFound
    | MessageIdNotFound
    | PartyToNotFound
    | PartInfoWithoutMimePart(href: string)
    | DuplicateHeaderElement(field: LoadError)
    | MalformedSoapEnvelope
    | SoapPartNotFound
    | PayloadPartNotFound
    | DecompressionFailed
    | DecompressedPayloadTooLarge
    | DigestMismatch(uri: string)
    | ReferenceTargetNotFound(uri: string)
    | DuplicateElementId(id: string)
    | SecurityTokenReferenceNotFound
    | SignatureCoverage(missing: set<Coverage>)
    | UntrustedSigner
    | SignatureVerificationFailed
    | EncryptedDataReferenceNotFound
    | EncryptedDataNotFound(uri: string)
    | CipherValueNotFound
    | CipherReferenceNotFound
    | EncryptedAttachmentNotFound(id: string)
    | DecryptionFailed
    | SignatureRequired
    | EncryptionRequired
    | UnsupportedSecurityTokenType
    | UnsupportedSignatureAlgorithm
    | UnsupportedEncryptionAlgorithm
    | UnsupportedTransform
    | UnsupportedDigestAlgorithm
    | PeppolSbdh
    | PeppolPartyIdentifier
    | PeppolNotServiced
    | Custom(code: string, reason: string)

  function ErrorCodeOf(r: Refusal): string {
    match r
    case BundledMessages => "EBMS:0002"
    case ValueInconsistent(_) | UserMessageNotFound | PayloadInfoNotFound | MessagingNotFound | MessageIdNotFound
       | PartyToNotFound => "EBMS:0003"
    case PeppolSbdh | PeppolPartyIdentifier | PeppolNotServiced => "EBMS:0004"
    case PartInfoWithoutMimePart(_) => "EBMS:0007"
    case DuplicateHeaderElement(_) | MalformedSoapEnvelope | SoapPartNotFound | PayloadPartNotFound => "EBMS:0009"
    case DecompressionFailed | DecompressedPayloadTooLarge => "EBMS:0303"
    case DigestMismatch(_) | ReferenceTargetNotFound(_) | DuplicateElementId(_) | SecurityTokenReferenceNotFound
       | SignatureCoverage(_) | UntrustedSigner | SignatureVerificationFailed => "EBMS:0101"
    case EncryptedDataReferenceNotFound | EncryptedDataNotFound(_) | CipherValueNotFound | CipherReferenceNotFound
       | EncryptedAttachmentNotFound(_) | DecryptionFailed => "EBMS:0102"
    case SignatureRequired | EncryptionRequired | UnsupportedSecurityTokenType | UnsupportedSignatureAlgorithm
       | UnsupportedEncryptionAlgorithm | UnsupportedTransform | UnsupportedDigestAlgorithm => "EBMS:0103"
    case Custom(code, _) => code
  }

  /** The error detail. Only its being non-empty matters for the library's own errors. */
  function DetailOf(r: Refusal): string {
    match r
    case PeppolNotServiced => "PEPPOL:NOT_SERVICED"
    case Custom(_, reason) => reason
    case _ => "refused"
  }

  /** A failed validation is answered as a duplicate header element when the first problem is a
      repeated single-valued element. */
  function FromValidationError(e: LoadError): Refusal {
    if e.RepeatedChild? then DuplicateHeaderElement(e) else ValueInconsistent(e)
  }

  /** Faults of the local configuration or of content outside every handled error class: they leave
      parsing as exceptions and are not answered with a signal. */
  datatype LocalFault = SignerNotConfigured | UnreadableToken | UnreadableSignatureValue | AcceptorFailed

  datatype Fault = Refused(refusal: Refusal) | Escaped(local: LocalFault)
}
