/**
 * The serialisation collaborators, passed in as values: `json_encode`/`json_decode`
 * with `JSON_THROW_ON_ERROR`, and the RFC 3339 extended (millisecond) timestamp format.
 * `None` stands for the exception (or `false`) the collaborator produces.
 */
module Encoding {
  import opened Wrappers
  import opened Time
  import opened JsonValues

  datatype Codecs = Codecs(
    jsonEncode: (Json, bool) -> Option<string>,   // (value, pretty print)
    jsonDecode: string -> Option<Json>,
    formatTimestamp: Instant -> string,           // UTC, DateTimeInterface::RFC3339_EXTENDED
    parseTimestamp: string -> Option<Instant>)    // createFromFormat(RFC3339_EXTENDED, ...)

  /**
   * Decoding what was encoded from a non-empty object yields an object with the same
   * top-level keys. (An empty PHP array encodes as `[]`, hence the non-empty condition.)
   */
  ghost predicate PreservesObjectKeys(fmt: Codecs)
  {
    forall fields: Fields, pretty: bool, s: string
      | fmt.jsonEncode(JObject(fields), pretty) == Some(s) && fields != [] ::
        fmt.jsonDecode(s).Some? && fmt.jsonDecode(s).value.JObject? &&
        Keys(fmt.jsonDecode(s).value.fields) == Keys(fields)
  }
}
