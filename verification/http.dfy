/**
 What a component learns from one `fetch` call. The network itself is not
 modelled: each handler takes the outcome of its request as a parameter.
 */
module Http {
  import opened Js

  /** The outcome of reading a response body (`response.json()` or `response.text()`)
      together with the property accesses the component makes on it: either the
      value it obtained, or the value thrown along the way (a syntax error, a
      body already consumed, a property read on `null`). */
  datatype Read<+T> = Parsed(value: T) | ReadFailed(thrown: Thrown)

  /** The outcome of one request: the `fetch` promise rejected, or it resolved
      with a response whose `ok` flag is false (with its status code and what the
      component reads from the error body), or with a response whose `ok` flag is
      true (with what the component reads from it). */
  datatype Reply<+E, +T> =
    | Rejected(thrown: Thrown)
    | NotOk(status: nat, body: E)
    | Ok(payload: T)

  /** The message `HTTP error: <status>` the todo screen falls back to. */
  function HttpError(status: nat): (m: string)
    ensures |m| > |"HTTP error: "| && m[..|"HTTP error: "|] == "HTTP error: "
  {
    "HTTP error: " + Decimal(status)
  }

  /** The status code can be read back from its `HTTP error: <status>` message. */
  lemma HttpErrorInjective(s1: nat, s2: nat)
    requires HttpError(s1) == HttpError(s2)
    ensures s1 == s2
  {
    var p := "HTTP error: ";
    assert Decimal(s1) == HttpError(s1)[|p|..];
    assert Decimal(s2) == HttpError(s2)[|p|..];
    DecimalInjective(s1, s2);
  }

  /** `<prefix>: <status>`, the message of the `Error` the todo mutations throw on a non-ok response. */
  function StatusMessage(prefix: string, status: nat): (m: string)
    ensures |m| > |prefix| + 2 && m[..|prefix|] == prefix && m[|prefix|..|prefix| + 2] == ": "
    ensures var d := m[|prefix| + 2..];
            (forall i :: 0 <= i < |d| ==> IsDigit(d[i])) && DecimalValue(d) == status
  {
    var m := prefix + ": " + Decimal(status);
    assert m[|prefix| + 2..] == Decimal(status);
    DecimalRoundTrip(status);
    m
  }
}
