/** The identity strings of the credit tables.

    The program builds keys by hashing and concatenation.  A derived string is represented here by the
    facts it is derived from, so two keys are equal exactly when their sources are.  Every string a
    caller types in (for instance an operator's request identifier) is still allowed to coincide with a
    derived one: nothing below restricts which key a caller may present. */
module Keys {

  /** Owner of a credit account.  SandboxCustomer is the hashed owner of a billing sandbox mapping. */
  datatype Owner = NamedOwner(name: string) | SandboxCustomer(scope: string, customer: string)

  /** Identity of one extraction: the document bundle and the extractor that would read it. */
  datatype Extraction = Extraction(document: nat, extractor: nat)

  datatype ReservationKey =
    | PlainReservation(text: string)
    | ExtractionReservation(version: nat, extraction: Extraction)

  datatype Purpose = ToReserve | ToCommit | ToRefund | ToOperatorCommit | ToOperatorRefund

  datatype IdempotencyKey =
    | PlainKey(text: string)
    | TicketKey(version: nat, extraction: Extraction, purpose: Purpose)
    | InvoiceKey(invoice: string)

  /** reference_type and reference_key of a ledger row, taken together. */
  datatype Reference =
    | PlainReference(kind: string, key: string)
    | HostedExtraction(version: nat)
    | SandboxInvoice(invoice: string)
}
