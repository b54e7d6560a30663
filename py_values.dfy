/** The loosely typed values that cross the adapter's boundaries: the decoded
    JSON metadata, the decoded YAML override document, and whatever a stage's
    lifecycle hooks return.  Python's dynamic checks (`in`, subscripting,
    truthiness) are written out here once, so that every other module can
    follow the source's branches on them exactly. */
module PyValues {

  datatype Option<+T> = None | Some(value: T)

  /** A JSON/YAML/Python value.  Numbers are integers only; mapping keys are
      strings, as they are in JSON. */
  datatype Value =
    | VNone
    | VBool(b: bool)
    | VInt(i: int)
    | VStr(s: string)
    | VList(items: seq<Value>)
    | VDict(entries: map<string, Value>)

  /** The Python exceptions the modelled code can raise or let through. */
  datatype Exception =
    | TypeError
    | KeyError
    | IndexError
    | ValueError
    | AttributeError
    | UnicodeDecodeError
    | FileExistsError
    | FileNotFoundError
    | NotADirectoryError
    | OSError

  /** The result of Python code that either returns a value or raises. */
  datatype Outcome<+T> = Done(value: T) | Raised(exc: Exception)

  /** Python's truth value (`bool(v)`). */
  predicate Truthy(v: Value)
  {
    match v
    case VNone => false
    case VBool(b) => b
    case VInt(i) => i != 0
    case VStr(s) => s != ""
    case VList(items) => items != []
    case VDict(m) => m != map[]
  }

  /** `k` occurs in `s` as a contiguous substring. */
  predicate IsSubstring(k: string, s: string)
    decreases |s|
  {
    |k| <= |s| && (s[..|k|] == k || IsSubstring(k, s[1..]))
  }

  /** Python's `key in container` for a string key. */
  function Contains(container: Value, key: string): (r: Outcome<bool>)
    ensures container.VDict? ==> r == Done(key in container.entries)
    ensures r.Raised? <==> !(container.VDict? || container.VList? || container.VStr?)
  {
    match container
    case VDict(m) => Done(key in m)
    case VList(items) => Done(VStr(key) in items)
    case VStr(s) => Done(IsSubstring(key, s))
    case _ => Raised(TypeError)
  }

  /** Python's `container[key]` for a string key. */
  function Subscript(container: Value, key: string): (r: Outcome<Value>)
    ensures r.Done? <==> container.VDict? && key in container.entries
    ensures r.Done? ==> r.value == container.entries[key]
  {
    match container
    case VDict(m) => if key in m then Done(m[key]) else Raised(KeyError)
    case _ => Raised(TypeError)
  }

  /** Python's `container[0]`. */
  function First(container: Value): (r: Outcome<Value>)
    ensures container.VList? && container.items != [] ==> r == Done(container.items[0])
    ensures r.Done? ==> (container.VList? && container.items != []) || (container.VStr? && container.s != "")
  {
    match container
    case VList(items) => if items != [] then Done(items[0]) else Raised(IndexError)
    case VStr(s) => if s != "" then Done(VStr(s[..1])) else Raised(IndexError)
    case VDict(_) => Raised(KeyError)
    case _ => Raised(TypeError)
  }
}
