/** A value that may be absent: the model's stand-in for a lookup in a
    JavaScript object or array that can yield `undefined`. */
module Optional {

  datatype Option<+T> = None | Some(value: T)
}
