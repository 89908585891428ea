/** An optional value. Here it stands for JavaScript's `undefined` next to a present
    value, and for a parse that may fail. */
module Options {

  datatype Option<+T> = None | Some(value: T)
}
