/** What several modules share. */
module Common {

  datatype Option<T> = None | Some(value: T)

  /** What a list of pieces is when put together, the pieces taken in order. */
  function Concat<T>(pieces: seq<seq<T>>): seq<T> {
    if pieces == [] then [] else Concat(pieces[..|pieces| - 1]) + pieces[|pieces| - 1]
  }
}
