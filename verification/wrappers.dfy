/** The optional-value datatype shared by the model: `None` stands for a value
    that is absent (a reply that did not parse, a search that found nothing). */
module Wrappers {

  datatype Option<+T> = None | Some(value: T)
}
