/** `validate_text_input`: an ordered chain of four guards over the decoded request
    body, in which the first failing guard decides the message. The body is any value
    `json.loads` can produce, so Python's `in` and `.get` can raise on it. */
module Validators {
  import opened Values

  /** The `(is_valid, error_message)` pair the validator returns. */
  datatype Verdict = Verdict(isValid: bool, errorMessage: Option<string>)

  const EmptyBodyMessage := "Request body is empty or malformed"
  const MissingTextMessage := "Missing 'text' field in request"
  const TextNotStringMessage := "'text' must be a string"
  const TextEmptyMessage := "'text' cannot be empty"

  /** An acceptable request: an object whose `text` field is a string with a
      non-whitespace character. */
  predicate WellFormed(body: Json)
  {
    && body.JObj?
    && "text" in body.fields
    && body.fields["text"].JStr?
    && !IsBlank(body.fields["text"].s)
  }

  /** The truthy bodies on which `'text' in body` or `body.get` raises: scalars are not
      iterable, and lists and strings that pass the `in` test have no `get` method. */
  predicate RaisesOn(body: Json)
  {
    || (body.JBool? && body.b)
    || (body.JInt? && body.i != 0)
    || (body.JFloat? && body.f != 0.0)
    || (body.JArr? && JStr("text") in body.items)
    || (body.JStr? && IsSubstring("text", body.s))
  }

  function ValidateTextInput(body: Json): (r: Attempt<Verdict>)
    // rule 1: a falsy body
    ensures !Truthy(body) ==> r == Returned(Verdict(false, Some(EmptyBodyMessage)))
    // rule 2: an object body without the key
    ensures body.JObj? && Truthy(body) && "text" !in body.fields ==>
      r == Returned(Verdict(false, Some(MissingTextMessage)))
    // rule 3: the key holds something other than a string
    ensures body.JObj? && "text" in body.fields && !body.fields["text"].JStr? ==>
      r == Returned(Verdict(false, Some(TextNotStringMessage)))
    // rule 4: the string is empty or whitespace only
    ensures body.JObj? && "text" in body.fields && body.fields["text"].JStr? && IsBlank(body.fields["text"].s) ==>
      r == Returned(Verdict(false, Some(TextEmptyMessage)))
    // a truthy list or string without the key is reported missing
    ensures (body.JArr? || body.JStr?) && Truthy(body) && !RaisesOn(body) ==>
      r == Returned(Verdict(false, Some(MissingTextMessage)))
    ensures r == Returned(Verdict(true, None)) <==> WellFormed(body)
    ensures r.Raised? <==> RaisesOn(body)
    ensures r.Returned? ==> (r.value.isValid <==> r.value.errorMessage.None?)
  {
    if !Truthy(body) then Returned(Verdict(false, Some(EmptyBodyMessage)))
    else
      match Contains(body, "text")
      case Raised(e) => Raised(e)
      case Returned(present) =>
        if !present then Returned(Verdict(false, Some(MissingTextMessage)))
        else
          match Get(body, "text", JStr(""))
          case Raised(e) => Raised(e)
          case Returned(text) =>
            if !text.JStr? then Returned(Verdict(false, Some(TextNotStringMessage)))
            else if IsBlank(text.s) then Returned(Verdict(false, Some(TextEmptyMessage)))
            else Returned(Verdict(true, None))
  }
}
