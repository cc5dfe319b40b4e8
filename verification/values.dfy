/** Option and Result wrappers, and the untyped values held by the field maps
    of a raw configuration document. */
module Values {

  datatype Option<+T> = None | Some(value: T)

  datatype Result<+T, +E> = Ok(value: T) | Err(error: E)

  /** A decoded YAML value as found under one key of an untyped field map.
      Composition never looks inside nested mappings or floats, so those are
      folded into `Other`. An absent key reads as `Null`, just as a missing
      key reads as a nil interface value. */
  datatype Val =
    | Str(s: string)
    | Int(i: int)
    | Bool(b: bool)
    | Null
    | List(items: seq<Val>)
    | Other(tag: string)

  /** A list of names stored back into a field map as a YAML sequence of strings. */
  function StrList(names: seq<string>): (v: Val)
    ensures v.List? && |v.items| == |names|
    ensures forall i :: 0 <= i < |names| ==> v.items[i] == Str(names[i])
  {
    List(seq(|names|, i requires 0 <= i < |names| => Str(names[i])))
  }
}
