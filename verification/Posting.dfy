/** One POST of a batch, with its retries: what the server's answers make of it
    (dead_letter.py, `classify_response`, and reporter.py, `_post_batch`). */
module Posting {
  import opened Results
  import opened Splitting

  /** An attempt's answer: none, or a status and what the body's JSON envelope, if it is one,
      gives as its error. */
  datatype Answer = NoAnswer | Response(status: int, error: Option<string>)

  const PERMANENT_STATUSES := {400, 422}
  const PAYLOAD_ERRORS := {"VALIDATION_ERROR", "BAD_REQUEST"}

  function Classify(status: int, error: Option<string>): Delivery {
    if 200 <= status < 300 then Sent
    else if status == 413 then TooLarge
    else if status in PERMANENT_STATUSES && error.Some? && error.value in PAYLOAD_ERRORS then Permanent
    else Transient
  }

  function OutcomeOf(a: Answer): Delivery {
    match a
    case NoAnswer => Transient
    case Response(status, error) => Classify(status, error)
  }

  /** The answers to the attempts of one POST, in order. */
  type Answers = nat -> Answer

  /** An answer that ends the POST: anything but a transient failure. */
  predicate Decides(a: Answer) {
    OutcomeOf(a) != Transient
  }

  /** Whether the reporter is found stopped before an attempt, and after one that failed. */
  type Stops = nat -> bool

  /** POST a batch up to `maxRetries` times: it stops at the first answer that decides, or when
      the reporter is found stopped, and without an answer that decides the failure is
      transient. A permanent refusal always names the status it came with. */
  method PostBatch(answers: Answers, maxRetries: int, stopsBefore: Stops, stopsAfter: Stops)
    returns (outcome: Delivery, status: Option<int>, made: nat)
    ensures made <= (if maxRetries > 0 then maxRetries else 0)
    ensures forall k :: 0 <= k < made ==> !stopsBefore(k)
    ensures forall k :: 0 <= k < made - 1 ==> !Decides(answers(k)) && !stopsAfter(k)
    ensures outcome == Transient <==> forall k :: 0 <= k < made ==> !Decides(answers(k))
    ensures outcome == Transient ==> made >= maxRetries || stopsBefore(made) || (made > 0 && stopsAfter(made - 1))
    ensures outcome != Transient ==> made >= 1 && outcome == OutcomeOf(answers(made - 1))
    ensures outcome == Permanent ==> status == Some(400) || status == Some(422)
  {
    made, status := 0, None;
    while made < maxRetries
      invariant made <= (if maxRetries > 0 then maxRetries else 0)
      invariant forall k :: 0 <= k < made ==> !Decides(answers(k)) && !stopsBefore(k) && !stopsAfter(k)
    {
      if stopsBefore(made) { break; }
      var answer := answers(made);
      made := made + 1;
      match answer {
        case NoAnswer =>
          status := None;
        case Response(code, error) =>
          status := Some(code);
          outcome := Classify(code, error);
          if outcome != Transient {
            assert Decides(answers(made - 1));
            return;
          }
      }
      if stopsAfter(made - 1) { break; }
    }
    outcome := Transient;
  }
}
