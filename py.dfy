/** Python values and outcomes that the modelled code produces or inspects. */
module Py {

  /** `None` or a value. */
  datatype Option<+T> = None | Some(value: T)

  /** The exceptions that escape from the modelled operations. */
  datatype Error =
    | RuntimeError(message: string)  // raised by the code itself
    | ValueError                     // `range()` with a step of zero
    | UnicodeDecodeError             // `bytes.decode("UTF-8")` on invalid input
    | AttributeError                 // `Markdown.convert(None)`: `None` has no `strip`
    | SynthesisError                 // `gTTS(...)` or `tts.save(...)` failed
    | CalledProcessError             // `subprocess.check_output(["which", p])` exited non-zero
    | OSError                        // `subprocess.call` could not start its program

  /** A Python call either returns a value or raises. */
  datatype Result<+T> = Ok(value: T) | Raised(error: Error)

  type Byte = bv8
  type Bytes = seq<Byte>

  /** The arguments that the code examines with `isinstance`; a list holds strings. */
  datatype Object = PyBytes(data: Bytes) | PyStr(s: string) | PyList(items: seq<string>) | PyNone

  /** Python truthiness of such an argument. */
  predicate Truthy(o: Object)
  {
    match o
    case PyBytes(b) => b != []
    case PyStr(s) => s != ""
    case PyList(xs) => xs != []
    case PyNone => false
  }

  /** Concatenation of a sequence of sequences, in order. */
  function Concat<T>(xss: seq<seq<T>>): seq<T>
  {
    if xss == [] then [] else xss[0] + Concat(xss[1..])
  }
}
