/** The exceptions the core throws, as one taxonomy. */
module Errors {
  import opened Time
  import opened Webhooks

  /** The inner exception wrapped by `'Invalid headers.'` or `'Invalid body.'`. */
  datatype Cause =
    | DuplicateHeader(name: string)   // more than one value for a single-valued header
    | MissingHeader(name: string)
    | MalformedTimestampHeader        // webhook-timestamp does not match ^\d{10,11}$
    | UnsupportedContentType
    | MalformedJson                   // json_decode threw
    | InvalidBodyShape                // id, timestamp or data missing or of the wrong type
    | InvalidBodyTimestamp            // body timestamp not in RFC 3339 extended format

  datatype Error =
    | IdContainsPeriod                // UnexpectedValueException from buildSignatureMessage
    | NotSigningKey                   // InvalidArgumentException from Signer::addKeys
    | NoSigningKeys                   // RuntimeException from Signer::buildSignatures
    | InvalidSignatureFormat(signature: string)   // InvalidSignatureException: token without a comma
    | UnknownSignatureType(signature: string)     // ValueError from SignatureType::from
    | InvalidSignatureEncoding         // Halite InvalidSignature: a v1a value that is not a 64-byte signature
    | KeyTypeError                    // TypeError: a held key outside testSignature's parameter type
    | NoMatchingSignature(webhook: Webhook, signatures: seq<string>)
    | InvalidHeaders(cause: Cause)    // InvalidWebhookException('Invalid headers.')
    | InvalidBody(cause: Cause)       // InvalidWebhookException('Invalid body.')
    | MetadataMismatch                // InvalidWebhookException('Webhook metadata does not match.')
    | InvalidTimestamp(timestamp: Instant)        // InvalidTimestampException
    | NoSignatures                    // UnexpectedValueException('No signatures found.')
    | WebhookConstructionFailed       // Error from the three-argument Webhook construction
}
