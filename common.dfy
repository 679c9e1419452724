/** Values shared by every controller: identifiers, optional request fields,
    stored documents and the status-coded answer a handler gives. */
module Common {

  /** Document ids, user ids and route parameters are strings. */
  type Id = string

  datatype Option<+T> = None | Some(value: T)

  /** What a handler answers: a success status with its data, or the status of
      the `ApiError` it throws. */
  datatype Response<+T> = Ok(status: nat, value: T) | Err(status: nat)

  /** A stored document: its `_id`, its `createdAt` timestamp and its fields. */
  datatype Doc<+T> = Doc(id: Id, createdAt: int, body: T)

  /** The answer of a handler together with the collection it leaves behind. */
  datatype Step<+T, +R> = Step(response: Response<R>, table: seq<Doc<T>>)

  /** A route parameter is falsy exactly when it is the empty string. */
  predicate MissingParam(s: string) { s == "" }

  /** A body field is falsy when it is undefined or the empty string. */
  predicate Absent(o: Option<string>) { o.None? || o.value == "" }

  /** The characters that JavaScript's `String.prototype.trim` removes. */
  predicate IsJsWhitespace(c: char) {
    c == ' ' || c == '\t' || c == '\n' || c == '\r' || c == '\U{000B}' || c == '\U{000C}'
    || c == '\U{00A0}' || c == '\U{1680}' || ('\U{2000}' <= c <= '\U{200A}')
    || c == '\U{2028}' || c == '\U{2029}' || c == '\U{202F}' || c == '\U{205F}'
    || c == '\U{3000}' || c == '\U{FEFF}'
  }

  /** `s.trim() === ""`: every character of `s` is whitespace. */
  predicate Blank(s: string) { forall i :: 0 <= i < |s| ==> IsJsWhitespace(s[i]) }

  /** `!text || text.trim() === ""` for a body field. */
  predicate MissingText(text: Option<string>) { text.None? || Blank(text.value) }

  /** `!id || !isValidObjectId(id)` negated; the ObjectId format test itself is an oracle. */
  predicate ValidObjectId(id: Id, isValidObjectId: Id -> bool) {
    id != "" && isValidObjectId(id)
  }
}
