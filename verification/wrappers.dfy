/** An optional value, as Obstacles.py passes `line_path=None` for "no path
    given". */
module Wrappers {

  datatype Option<+T> = None | Some(value: T)
}
