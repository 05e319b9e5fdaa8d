/** The contact endpoint: it checks that name, email and message are all
    truthy, logs the submission and acknowledges it. The log line is the
    handler's only effect and is returned as part of the outcome. */
module ContactRoute {
  import opened Wrappers
  import opened Http

  /** The fields written to the log (the timestamp is left out). */
  datatype Submission = Submission(name: JsValue, email: JsValue, message: JsValue)

  datatype Outcome = Outcome(response: Response, logged: Option<Submission>)

  const MissingError: string := "All fields are required"
  const FailureError: string := "Failed to process your message"
  const Acknowledgement: string := "Message received successfully. We will get back to you soon!"

  /** All three fields are truthy, the handler's validation test. */
  predicate Complete(fields: map<string, JsValue>) {
    Truthy(Field(fields, "name")) && Truthy(Field(fields, "email")) && Truthy(Field(fields, "message"))
  }

  /** The `POST` handler. `body` is what `request.json()` yields. */
  function Post(body: Body): (o: Outcome)
    ensures o.response.status in {200, 400, 500}
    ensures o.response.status == 500 <==> !body.Fields?
    ensures o.response.status == 400 <==> body.Fields? && !Complete(body.fields)
    ensures o.logged.Some? <==> o.response.status == 200
    ensures o.logged.Some? ==> o.logged.value == Submission(
              Field(body.fields, "name"), Field(body.fields, "email"), Field(body.fields, "message"))
    ensures o.response.payload == Problem(MissingError) <==> o.response.status == 400
    ensures o.response.payload == Problem(FailureError) <==> o.response.status == 500
  {
    match body
    case Unparseable => Outcome(Response(500, Problem(FailureError)), None)
    case NullBody => Outcome(Response(500, Problem(FailureError)), None)
    case Fields(fields) =>
      if !Complete(fields) then
        Outcome(Response(400, Problem(MissingError)), None)
      else
        var submission := Submission(Field(fields, "name"), Field(fields, "email"), Field(fields, "message"));
        Outcome(Response(200, Notice(Acknowledgement)), Some(submission))
  }

  /** An empty string in any field is rejected like a missing field. */
  lemma EmptyFieldRejected(fields: map<string, JsValue>, key: string)
    requires key in {"name", "email", "message"}
    requires key in fields && fields[key] == Str("")
    ensures Post(Fields(fields)) == Outcome(Response(400, Problem(MissingError)), None)
  {
  }

  /** Rejected submissions are never logged. */
  lemma RejectedNotLogged(body: Body)
    requires Post(body).response.status != 200
    ensures Post(body).logged == None
  {
  }

  /** Any two complete submissions get the same response, whatever they say. */
  lemma AcknowledgementUniform(f1: map<string, JsValue>, f2: map<string, JsValue>)
    requires Complete(f1) && Complete(f2)
    ensures Post(Fields(f1)).response == Post(Fields(f2)).response == Response(200, Notice(Acknowledgement))
  {
  }
}
