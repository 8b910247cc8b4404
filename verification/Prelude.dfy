/** Values used throughout: results that may be absent or refused, and probabilities. */
module Prelude {
  datatype Option<+T> = None | Some(value: T)

  datatype Result<+T, +E> = Ok(value: T) | Err(error: E)

  /** The probabilities of a home win, a draw and an away win. */
  datatype Probs = Probs(home: real, draw: real, away: real) {
    function Sum(): real { home + draw + away }
  }
}
