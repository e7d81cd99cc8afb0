/** Runtime values as the validation engine observes them. */
module Values {

  /** The result of a property read: `Some(value)`, or `None` when the read
      throws a TypeError. */
  datatype Option<+T> = None | Some(value: T)

  /** A JavaScript value as far as the engine can tell values apart. Numbers
      are integers here; the engine never looks inside a number. */
  datatype Value =
    | Undef
    | Null
    | Bool(b: bool)
    | Num(n: int)
    | Str(s: string)
    | Arr(elems: seq<Value>)
    | Obj(props: map<string, Value>)

  /** `typeof v === "object"`: true of null and of arrays as well as of
      plain objects. */
  predicate IsObjectType(v: Value) {
    v.Null? || v.Arr? || v.Obj?
  }

  /** Reading the property `v[key]`. `None` stands for the TypeError that
      reading a property of null or undefined throws. A missing own property
      reads as undefined; a string key on a non-object reads as undefined too. */
  function Read(v: Value, key: string): (r: Option<Value>)
    ensures r.None? <==> v.Null? || v.Undef?
    ensures r.Some? && r.value != Undef ==> v.Obj? && key in v.props && v.props[key] == r.value
    ensures v.Obj? ==> r == Some(if key in v.props then v.props[key] else Undef)
  {
    match v
    case Null => None
    case Undef => None
    case Obj(props) => if key in props then Some(props[key]) else Some(Undef)
    case _ => Some(Undef)
  }
}
