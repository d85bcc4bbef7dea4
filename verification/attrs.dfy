/** Optional and indeterminate attribute values of the host document model. */
module Attrs {

  /** A value that may be missing: an attribute not on the node (`'x' in node` fails),
      or an output key that is not emitted. */
  datatype Option<+T> = None | Some(value: T) {
    function GetOr(default: T): T {
      match this
      case Some(v) => v
      case None => default
    }
  }

  /** An attribute that may be absent, may hold the host's "mixed" sentinel
      (the value differs across a range or selection), or holds a value. */
  datatype Tri<+T> = Absent | Mixed | Value(value: T)

  /** An attribute that is always present on the nodes that carry it but may be
      the "mixed" sentinel (the typography attributes of a TEXT node). */
  datatype Mixable<+T> = Indeterminate | Determinate(value: T)

  /** JavaScript truthiness of an optional string: present and not empty. */
  predicate Truthy(s: Option<string>) {
    s.Some? && s.value != ""
  }
}
