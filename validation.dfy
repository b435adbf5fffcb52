// The request-body check in front of note creation: a chain of guards over
// the JSON value of `body.note`, each ending the request with a 400.
module Validation {

  /** A value as the JSON body parser can produce it, plus `undefined` for a missing field. */
  datatype JsValue =
    | Undefined
    | Null
    | Bool(b: bool)
    | Num(n: real)
    | Str(s: string)
    | Arr(items: seq<JsValue>)
    | Obj(fields: map<string, JsValue>)

  /** JavaScript truthiness; arrays and objects are truthy even when empty. */
  predicate Truthy(v: JsValue) {
    match v
    case Undefined => false
    case Null => false
    case Bool(b) => b
    case Num(n) => n != 0.0
    case Str(s) => s != ""
    case Arr(_) => true
    case Obj(_) => true
  }

  const MaxNoteLength: nat := 500
  const BadRequest: nat := 400

  const EmptyMessage: string := "Note cannot be empty"
  const NotStringMessage: string := "Note must be a string"
  const TooLongMessage: string := "Note must be under 500 characters"

  /** Either the handler runs with the note text, or the request ends with `status` and `{ error }`. */
  datatype Verdict = Accept(note: string) | Reject(status: nat, error: string)

  function ValidateNote(note: JsValue): (v: Verdict)
    ensures v.Reject? ==> v.status == BadRequest
    ensures v.Accept? <==> note.Str? && 0 < |note.s| <= MaxNoteLength
    ensures v.Accept? ==> v.note == note.s
    ensures v == Reject(BadRequest, EmptyMessage) <==> !Truthy(note)
    ensures v == Reject(BadRequest, NotStringMessage) <==> Truthy(note) && !note.Str?
    ensures v == Reject(BadRequest, TooLongMessage) <==> note.Str? && |note.s| > MaxNoteLength
  {
    if !Truthy(note) then Reject(BadRequest, EmptyMessage)
    else if !note.Str? then Reject(BadRequest, NotStringMessage)
    else if |note.s| > MaxNoteLength then Reject(BadRequest, TooLongMessage)
    else Accept(note.s)
  }

  /** The emptiness guard runs before the type guard: every falsy value gets the same message, whatever its type. */
  lemma FalsyRejectedAsEmpty()
    ensures ValidateNote(Undefined) == Reject(BadRequest, EmptyMessage)
    ensures ValidateNote(Null) == Reject(BadRequest, EmptyMessage)
    ensures ValidateNote(Bool(false)) == Reject(BadRequest, EmptyMessage)
    ensures ValidateNote(Num(0.0)) == Reject(BadRequest, EmptyMessage)
    ensures ValidateNote(Str("")) == Reject(BadRequest, EmptyMessage)
  {
  }

  /** 500 characters pass and 501 do not; there is no trimming, so blank notes pass too. */
  lemma LengthBoundary(s: string)
    ensures |s| == MaxNoteLength ==> ValidateNote(Str(s)) == Accept(s)
    ensures |s| == MaxNoteLength + 1 ==> ValidateNote(Str(s)) == Reject(BadRequest, TooLongMessage)
    ensures s == " " ==> ValidateNote(Str(s)) == Accept(s)
  {
  }
}
