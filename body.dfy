/** Shapes of request-body fields as the handlers test them. */
module Body {
  import opened Wrappers

  /** JavaScript truthiness of a string field: present and not "". */
  predicate Filled(f: Option<string>)
  {
    f.Some? && f.value != ""
  }

  /** A field the handlers expect to be an array:
      - Absent: undefined or null (reading .length of it throws);
      - Scalar: any other non-array value; lengthPositive says whether `.length > 0` holds of it
        (a non-empty string, say);
      - List: an array. */
  datatype ListField<T> = Absent | Scalar(lengthPositive: bool) | List(items: seq<T>)

  /** `field && Array.isArray(field) && field.length > 0` */
  predicate NonEmptyList<T>(f: ListField<T>)
  {
    f.List? && |f.items| > 0
  }
}
