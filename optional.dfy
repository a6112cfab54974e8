/** Optional values: a form field that may be left without a value. */
module Optional {

  datatype Option<+T> = None | Some(value: T)

}
