/** What all parts of the model use. */
module Common {
  datatype Option<+T> = None | Some(value: T)

  function Elements<T>(s: seq<T>): set<T>
  {
    set x | x in s
  }

  /** Paths are C strings: no zero byte inside. */
  type Char = x: int | 0 < x < 256 witness 1
  datatype Path = Path(text: seq<Char>) {
    predicate Empty() { text == [] }
  }

  const NO_PATH := Path([])
}
