/** What the record parsers (`fromString`) of the model classes can produce. */
module Parsing {

  /** The runtime exceptions a parser lets escape. */
  datatype ParseError =
    | IllegalEnumLiteral(literal: string)  // `valueOf` on an unknown enum constant
    | NumberFormat(literal: string)        // `Double.parseDouble` on malformed text
    | DateTimeParse(literal: string)       // `LocalDateTime.parse` on malformed text

  /** A parsed record, the `null` returned for a wrong field count, or an exception. */
  datatype ParseResult<+T> = Parsed(value: T) | NullRecord | Thrown(error: ParseError)
}
