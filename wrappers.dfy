/** Small value wrappers shared by the whole model. */
module Wrappers {

  /** A value that may be missing: a nullable store field or a lookup result. */
  datatype Option<+T> = None | Some(value: T)

  /** A field of a parsed JSON request body. JavaScript tells an absent key
      (`undefined`) apart from an explicit `null`, and the libraries the
      controllers call treat the two differently, so the model keeps both. */
  datatype Field<+T> = Absent | Null | Given(value: T) {

    /** The field as a present value; `null` and `undefined` both become None. */
    function Provided(): (r: Option<T>)
      ensures r.Some? <==> Given?
      ensures r.Some? ==> r.value == value
    {
      if Given? then Some(value) else None
    }
  }
}
