/** The optional value shared by every module of the model: `None` stands for a
    JavaScript `null` or `undefined`, `Some(v)` for a present value. */
module Wrappers {

  datatype Option<+T> = None | Some(value: T)

}
