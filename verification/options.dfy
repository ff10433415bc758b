/** A value that may be absent: an empty table slot or a search that found nothing. */
module Options {

  datatype Option<+T> = None | Some(value: T)
}
