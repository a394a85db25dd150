/** Types shared by the models of the stores. */
module Common {
  /** A nullable column. */
  datatype Option<+T> = None | Some(value: T)

  /** Row identifiers are text; the empty text stands for "no identifier". */
  datatype Id = Id(text: string)

  const NO_ID := Id("")
}
