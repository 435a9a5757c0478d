/** Result and option types shared by the models. */
module Common {

  datatype Option<+T> = None | Some(value: T)

  datatype Result<+T, +E> = Ok(value: T) | Err(error: E)

  // What is left of the answers of the system after some calls.
  function Drop(answers: seq<bool>, calls: nat): seq<bool> {
    if |answers| <= calls then [] else answers[calls..]
  }

  // How many of the answers of the system that are still to come say that a call fails.  When none
  // are left, every call works.
  ghost function Failures(answers: seq<bool>): nat {
    if answers == [] then 0 else Failures(answers[1..]) + if answers[0] then 0 else 1
  }
}
