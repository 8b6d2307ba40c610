/**
 * The values exchanged with the openFDA drug-label endpoint, after JSON
 * decoding, and the outcome of a lookup.
 *
 * The remote endpoint itself is not modelled: it is an `Oracle`, a total
 * function from the request parameters to the response that the endpoint
 * returns for them. A lookup that fixes the oracle therefore sees one
 * unchanging remote database.
 */
module Label {

  datatype Option<+T> = None | Some(value: T)

  /** The decoded value of one field of a label record: a single text block,
      a JSON list of text blocks, or anything else (a number, an object,
      null, ...). */
  datatype FieldValue = Text(text: string) | Blocks(blocks: seq<string>) | Other

  /** A label record is a JSON object: section name to section value. */
  type LabelRecord = map<string, FieldValue>

  /** The query parameters of one request: the `search` expression and the
      result `limit`. */
  datatype Query = Query(search: string, limit: nat)

  /** The body of a reply. `Json(results)` is a JSON object whose `results`
      member is `results` (an absent, null or empty `results` is `[]`);
      `NotJson` is a body that does not decode to a JSON object: either
      `resp.json()` fails, or it gives a value that is not an object and
      `data.get` fails on it. */
  datatype Body = Json(results: seq<LabelRecord>) | NotJson

  /** What one request yields: an HTTP reply with its status code, or no reply
      at all (connection failure or timeout). */
  datatype Response = Reply(status: int, body: Body) | Unreachable

  /** The remote label database. */
  type Oracle = Query -> Response

  /** The exceptions a lookup lets escape, each naming the search field whose
      request raised it. */
  datatype LookupError =
    | Transport(field: string)                 // the request got no reply
    | HttpStatus(field: string, status: int)   // an error status other than 404
    | Malformed(field: string)                 // the body is not a JSON object

  /** The result of an operation that either returns a value or raises. */
  datatype Outcome<+T> = Ok(value: T) | Err(error: LookupError)
}
