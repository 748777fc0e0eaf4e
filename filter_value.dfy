/** `getFilterValue`: converts a filter value to the type the driver
    expects. */
module FilterValue {
  import opened Php

  /** `bool` casts the value to a boolean, `date` renders it as ISO 8601
      through the date library (`isoDate`), and `text` or any other type
      leaves it as it was. */
  function GetFilterValue(val: Scalar, type_: string, isoDate: Scalar -> string): (r: Scalar)
    ensures type_ == "bool" ==> r.Bool? && (r.b <==> !Falsy(val))
    ensures type_ == "date" ==> r.Str?
    ensures type_ != "bool" && type_ != "date" ==> r == val
  {
    if type_ == "bool" then (TruthyIsNotFalsy(val); Bool(Truthy(val)))
    else if type_ == "date" then Str(isoDate(val))
    else val
  }

  /** The per-type cast agrees with PHP's list of values that convert to
      false. */
  lemma TruthyIsNotFalsy(v: Scalar)
    ensures Truthy(v) <==> !Falsy(v)
  {
  }

  /** Converting an already converted boolean filter value changes nothing. */
  lemma BoolFilterIdempotent(val: Scalar, isoDate: Scalar -> string)
    ensures GetFilterValue(GetFilterValue(val, "bool", isoDate), "bool", isoDate) == GetFilterValue(val, "bool", isoDate)
  {
  }
}
