/** Small value wrappers shared by every module of the model. */
module Wrappers {

  /** A value that may be absent: a nullable column, a failed lookup, JavaScript's NaN. */
  datatype Option<T> = None | Some(value: T)

  /** A field of an insert or update body: left out of the object, or given a value.
      A column with a default takes the default when its field is Omitted. */
  datatype Field<T> = Omitted | Given(value: T)

  /** The value of a field, or the column default when the field was left out. */
  function FieldOr<T>(f: Field<T>, default: T): T
  {
    match f
    case Omitted => default
    case Given(v) => v
  }

  /** A column after `set(patch)`: the field's value when it was given, its old value when it was left out. */
  predicate Sets<T(==)>(f: Field<T>, before: T, after: T)
  {
    if f.Given? then after == f.value else after == before
  }
}
