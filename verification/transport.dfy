/**
 What a client sees of one HTTP call to the broker, abstracted to the cases
 its code distinguishes (Consumer/Consumer/Program.cs, Producer/Producer/Program.cs).
 */
module Transport {
  import opened Wrappers
  import opened Contract

  /**
   `Ok(body)`: a 2xx status other than 204, with `body` the message the
   response decodes to (`None` when it does not decode to one);
   `NoContent`: 204; `NonSuccess`: any status outside 2xx;
   `Exception`: the call threw (broker unreachable, timeout, ...).
   */
  datatype Reply = Ok(body: Option<Message>) | NoContent | NonSuccess | Exception

  /** `IsSuccessStatusCode`: 204 is a success status too. */
  predicate IsSuccessStatus(r: Reply)
  {
    r.Ok? || r.NoContent?
  }
}
