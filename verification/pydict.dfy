/**
 Python's `d.get(key, default)` on a dictionary that may lack the key: the
 event the handler receives and the decoded review body are such
 dictionaries.
 */
module PyDict {

  /** What a dictionary holds under one key: nothing, or a value. */
  datatype Entry<T> = Absent | Present(value: T)

  /** `d.get(key, default)`: the stored value when the key is present, `default` when it is not. */
  function DictGet<T>(e: Entry<T>, default: T): (r: T)
    ensures e.Present? ==> r == e.value
    ensures e.Absent? ==> r == default
  {
    if e.Present? then e.value else default
  }
}
