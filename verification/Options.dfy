/** Options, as the source's nilable pointers and comma-ok results. */
module Options {
  datatype Option<+T> = None | Some(value: T)
}
