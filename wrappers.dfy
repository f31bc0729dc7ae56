/** Option stands for a value that pandas or numpy may hold as missing (NaN / None). */
module Wrappers {

  datatype Option<+T> = None | Some(value: T)
}
