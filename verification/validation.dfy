/** The required-field validation both the POST and the PUT handler declare:
    `check('name', …).not().isEmpty()` followed by
    `check('author', …).not().isEmpty()`, collected by `validationResult`. */
module Validation {
  import opened Wrappers

  /** A request body as the validators see it: each required field is either
      absent (None) or submitted with some text (Some). */
  datatype Payload = Payload(name: Option<string>, author: Option<string>)

  /** One entry of `errors.array()`. `value` echoes what was submitted and is
      None when the field was absent (an `undefined` that JSON drops). */
  datatype FieldError = FieldError(location: string, msg: string, param: string, value: Option<string>)

  const NameRequired := "Book name is required"
  const AuthorRequired := "Author name is required"

  /** `isEmpty` holds of a missing field and of the empty text. */
  predicate Blank(v: Option<string>) {
    v.None? || v.value == ""
  }

  /** Both required fields are present and non-empty. */
  predicate Valid(body: Payload) {
    !Blank(body.name) && !Blank(body.author)
  }

  /** One `check(param, msg).not().isEmpty()` chain applied to the field. */
  function Check(param: string, msg: string, v: Option<string>): seq<FieldError> {
    if Blank(v) then [FieldError("body", msg, param, v)] else []
  }

  /** `validationResult(req).array()` for the two declared checks. */
  function Validate(body: Payload): (errs: seq<FieldError>)
    ensures errs == [] <==> Valid(body)
    ensures Blank(body.name) <==> exists i :: 0 <= i < |errs| && errs[i].param == "name"
    ensures Blank(body.author) <==> exists i :: 0 <= i < |errs| && errs[i].param == "author"
    ensures forall i, j :: 0 <= i < j < |errs| ==> errs[i].param == "name" && errs[j].param == "author"
    ensures forall i :: 0 <= i < |errs| ==> errs[i].param == "name" || errs[i].param == "author"
    ensures forall i :: 0 <= i < |errs| ==> errs[i].location == "body"
    ensures forall i :: 0 <= i < |errs| && errs[i].param == "name" ==>
              errs[i].msg == NameRequired && errs[i].value == body.name
    ensures forall i :: 0 <= i < |errs| && errs[i].param == "author" ==>
              errs[i].msg == AuthorRequired && errs[i].value == body.author
  {
    var errs := Check("name", NameRequired, body.name) + Check("author", AuthorRequired, body.author);
    assert Blank(body.name) ==> errs[0].param == "name";
    assert Blank(body.author) ==> errs[|errs| - 1].param == "author";
    errs
  }

  /** The errors depend only on which fields are blank and on the blank
      values themselves: two bodies that agree there get the same list. */
  lemma ValidateIgnoresFilledText(a: Payload, b: Payload)
    requires Blank(a.name) == Blank(b.name) && Blank(a.author) == Blank(b.author)
    requires Blank(a.name) ==> a.name == b.name
    requires Blank(a.author) ==> a.author == b.author
    ensures Validate(a) == Validate(b)
  {
  }

  /** A body without `name` is rejected with exactly one error naming it, and
      no `value` is echoed. */
  lemma MissingNameRejected(author: string)
    requires author != ""
    ensures Validate(Payload(None, Some(author))) == [FieldError("body", NameRequired, "name", None)]
  {
  }

  /** A body with both fields submitted empty is rejected with two errors, in
      `name`, `author` order, each echoing the empty value. */
  lemma EmptyFieldsRejected()
    ensures Validate(Payload(Some(""), Some(""))) ==
              [FieldError("body", NameRequired, "name", Some("")),
               FieldError("body", AuthorRequired, "author", Some(""))]
  {
  }
}
