/** The optional value returned by cache lookups and taken by the pipeline's optional inputs. */
module Wrappers {

  datatype Option<+T> = None | Some(value: T)
}
