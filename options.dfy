/** The optional value returned by the lookups of the model (`Array.prototype.find`
    returns `undefined` when nothing matches). */
module Options {
  datatype Option<+T> = None | Some(value: T)
}
