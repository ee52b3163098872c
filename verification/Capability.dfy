/**
 The execution token a decision is acted on with (mantlekeep-control/contracts.go).
 */
module Capability {

  datatype Token = Token(value: string, expiresAt: int, intentID: string)
  {
    predicate Valid(now: int) {
      now < expiresAt
    }

    /** What both the engine and an adapter insist on. */
    predicate Usable(now: int) {
      value != "" && Valid(now)
    }
  }
}
