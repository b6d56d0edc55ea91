/** An optional value: None where Python has None, or where a conversion
    fails. */
module Options {

  datatype Option<+T> = None | Some(value: T)
}
