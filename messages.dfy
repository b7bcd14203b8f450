/**
 * The values the skill reads out of a bus message's data, and the Python
 * exceptions a handler raises when it subscripts one that lacks a key.
 */
module Messages {
  import opened Wrappers

  /**
   * A value found under a key of `message.data`: a JSON object with string
   * fields, or a bare string (`message.data.get("notification", "")` yields
   * the string "" when the key is absent).
   */
  datatype Value = Dict(entries: map<string, string>) | Str(s: string)

  /** The exceptions a handler can raise; the host logs them and goes on. */
  datatype PyError = KeyError(key: string) | TypeError | IndexError

  /** How a handler ended: normally, or by raising. */
  datatype Outcome = Done | Raised(error: PyError)

  /** Python's `v[key]`: a dict lookup, a KeyError for a missing key, a TypeError on a string. */
  function Lookup(v: Value, key: string): Result<string, PyError> {
    match v
    case Dict(m) => if key in m then Ok(m[key]) else Err(KeyError(key))
    case Str(_) => Err(TypeError)
  }
}
