/** The boundary between the booking service and its two HTTP APIs: what a
    blocking call can end in, how an error body looks on the wire, and how the
    clients read a message back out of it. */
module HttpExchange {
  import opened JavaText

  /** How a `retrieve().bodyToMono(..).block()` call ends: a decoded body, a
      `WebClientResponseException` for a 4xx or 5xx status (with the raw body
      and the exception's own message), or any other exception. */
  datatype HttpOutcome<T> =
    | Ok(body: T)
    | ErrorStatus(status: int, responseBody: string, exceptionMessage: string)
    | CallFailed

  const BadRequest := 400
  const NotFound := 404

  /** What a stub controller answers: 200 with a body, or an error status
      with the body `{"error": message}`. */
  datatype Reply<T> =
    | OkReply(body: T)
    | ErrorReply(status: int, error: string)

  /** The JSON Jackson writes for `Map.of("error", message)` when the message
      needs no escaping. */
  function ErrorBody(message: string): string {
    "{\"error\":\"" + message + "\"}"
  }

  /** The characters of the class `["{}]` that the parser deletes. */
  const Stripped: set<char> := {'"', '{', '}'}

  /** The clients' `parseErrorMessage`: when the body mentions "error" and
      contains a ':' whose first occurrence is not its first character, the
      text after that first ':' cleaned by `CleanMessage`; otherwise the
      exception's message. The ensures give the fallback exactly and only the
      shape of a parsed message; what the parse means, that it gives back the
      message an error body carries, is the round trip `ParsesErrorBody`. */
  function ParseErrorMessage(body: string, exceptionMessage: string): (r: string)
    ensures !Contains(body, "error") || IndexOf(body, ':') <= 0 ==> r == exceptionMessage
    ensures Contains(body, "error") && IndexOf(body, ':') > 0 ==> IsPlainMessage(r)
  {
    if Contains(body, "error") && IndexOf(body, ':') > 0 then
      CleanMessage(body[IndexOf(body, ':') + 1..])
    else
      exceptionMessage
  }

  /** Every quote and brace deleted, then trimmed. The ensures give the
      shape of the result; `CleansQuotedMessage` shows that a quoted plain
      message comes back as it was. */
  function CleanMessage(rest: string): (r: string)
    ensures IsPlainMessage(r)
  {
    var kept := RemoveAll(rest, Stripped);
    TrimKeepsOut(kept, Stripped);
    TrimEnds(kept);
    Trim(kept)
  }

  /** A message with no quote or brace and no blank end. */
  predicate IsPlainMessage(message: string) {
    && (forall i :: 0 <= i < |message| ==> message[i] !in Stripped)
    && (message == [] || (!IsTrimmable(message[0]) && !IsTrimmable(message[|message| - 1])))
  }

  /** Reading back what the stub APIs write: the message of an error body is
      recovered exactly when it has no quote or brace and no blank end. */
  lemma ParsesErrorBody(message: string, exceptionMessage: string)
    requires IsPlainMessage(message)
    ensures ParseErrorMessage(ErrorBody(message), exceptionMessage) == message
  {
    ErrorBodyShape(message);
    CleansQuotedMessage(message);
  }

  /** An error body mentions "error", and its first ':' is the one after the
      key, followed by the quoted message and the closing brace. */
  lemma ErrorBodyShape(message: string)
    ensures Contains(ErrorBody(message), "error")
    ensures IndexOf(ErrorBody(message), ':') == 8
    ensures ErrorBody(message)[9..] == "\"" + (message + "\"}")
  {
    var body := ErrorBody(message);
    var head := "{\"error\":\"";
    assert body == head + message + "\"}";
    assert body[2..7] == "error";
    assert OccursAt(body, "error", 2);
    assert body[8] == ':';
    assert forall j :: 0 <= j < 8 ==> body[j] == head[j];
    assert ':' !in body[..8];
  }

  /** Cleaning the quoted value gives back a plain message. */
  lemma CleansQuotedMessage(message: string)
    requires IsPlainMessage(message)
    ensures CleanMessage("\"" + (message + "\"}")) == message
  {
    RemoveAllAppend("\"", message + "\"}", Stripped);
    RemoveAllAppend(message, "\"}", Stripped);
    RemoveAllNone(message, Stripped);
    assert RemoveAll("\"", Stripped) == [];
    assert RemoveAll("\"}", Stripped) == [];
    TrimUnchanged(message, IsTrimmable);
  }
}
