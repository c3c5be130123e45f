/** Shared vocabulary: optional values, outcomes of a service call, and rounding. */
module Prelude {

  datatype Option<+T> = None | Some(value: T) {
    /** The nullish-coalescing operator `a ?? b`, with a plain fallback. */
    function GetOr(fallback: T): T {
      if Some? then value else fallback
    }

    /** The nullish-coalescing operator `a ?? b`, with an optional fallback. */
    function Or(other: Option<T>): Option<T> {
      if Some? then this else other
    }
  }

  /** The HTTP exceptions a service method can throw, and a write that the database refuses. */
  datatype Error = NotFound | Forbidden | BadRequest | Refused

  datatype Result<+T> = Ok(value: T) | Err(error: Error)

  /** JavaScript's Math.round on an exact number. */
  function Round(x: real): int {
    (x + 0.5).Floor
  }

  lemma RoundIsNear(x: real)
    ensures -0.5 < Round(x) as real - x <= 0.5
  {
  }
}
