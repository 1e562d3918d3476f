/** The record shapes the analysis works on: one archived game as the
    chess.com archive reports it, the colour a user asks about, and the
    small failure-carrying wrappers used for missing values and errors. */
module Records {

  /** A value that may be absent (Python's `None`). */
  datatype Option<+T> = None | Some(value: T)

  /** A computation that either succeeds or raises an error. */
  datatype Result<+T, +E> = Ok(value: T) | Err(error: E)

  /** The side the statistics are computed for; the source compares a free
      string against "white" and "black". */
  datatype Colour = White | Black

  /** One side of a game: the `white.*` or `black.*` columns of the flattened archive. */
  datatype Player = Player(username: string, rating: int, result: string)

  /** One archived game; only the columns the analysis reads are kept. */
  datatype GameRecord = GameRecord(
    white: Player,
    black: Player,
    pgn: string,
    rated: bool,
    rules: string
  )
}
