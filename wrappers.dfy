/** The optional value used wherever the source reads a dictionary key that may be absent
    (`d.get(key)`) or a lookup that may return `None`. */
module Wrappers {

  datatype Option<+T> = None | Some(value: T) {

    /** `d.get(key, default)`: the stored value, or the default when the key is absent. */
    function GetOr(default: T): T {
      match this
      case Some(v) => v
      case None => default
    }
  }
}
