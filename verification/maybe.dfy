/** An optional value, used for lookups and parses that can come back empty. */
module Maybe {

  datatype Option<+T> = None | Some(value: T)

}
