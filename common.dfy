/** Values shared by the two page models: JavaScript's optional values, the
    truthiness of strings, and the keys of the client-side query cache. */
module Common {

  /** A value that may be missing (None). In an optional chain `?.` this covers
      both `undefined` and `null`; where the source relies on a destructuring
      default, it stands for `undefined` only. */
  datatype Option<+T> = None | Some(value: T)

  /** The logical resource names under which the query cache keeps fetched data. */
  datatype QueryKey = Friends | Users | OutgoingFriendReqs | AuthUser

  /** A JavaScript string is truthy exactly when it is not empty. */
  predicate Truthy(s: string)
  {
    s != ""
  }

  /** The value of `v || ""` for an optional string: the string itself when it
      is present and truthy, otherwise the empty string. */
  function OrEmpty(v: Option<string>): (r: string)
    ensures r == "" || v == Some(r)
    ensures v.Some? && Truthy(v.value) ==> r == v.value
  {
    if v.Some? && Truthy(v.value) then v.value else ""
  }
}
