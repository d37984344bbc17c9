/**
 * From a Markdown source to the lines that are spoken: source selection,
 * the `bytes_to_str` type guard, conversion, and the final line filter.
 * Reading, decoding, conversion, synthesis and executable lookup are the
 * collaborators in `Env`.
 */
module Pipeline {
  import opened Py
  import opened Lines
  import opened WorkDir

  /** Where the Markdown is read from. */
  datatype Source = Medium(url: string) | File(path: string)

  /** The calls into libraries and the system that the pipeline makes. */
  datatype Env = Env(
    read: Source -> Result<Bytes>,    // `read_from_medium()` (Docker), `read_from_file()`
    decode: Bytes -> Option<string>,  // `bytes.decode("UTF-8")`, `None` for invalid input
    convert: string -> string,        // `Markdown(output_format="plain").convert(text)`
    tts: string -> Option<Audio>,     // `gTTS(text=line, lang="en-us").save(name)`
    which: string -> Option<string>)  // `check_output(["which", p]).strip().decode()`, `None` on a non-zero exit

  const NoSourceMessage := "URL or Filename cannot be None"

  /**
   * The choice in `read_markdown`: the URL whenever it is set, the file only
   * without a URL, and `RuntimeError` with neither (an empty string stands
   * for `None`; both are falsy).
   */
  function SelectSource(url: string, filename: string): (r: Result<Source>)
    ensures url != "" ==> r == Ok(Medium(url))
    ensures url == "" && filename != "" ==> r == Ok(File(filename))
    ensures r.Raised? <==> url == "" && filename == ""
    ensures r.Raised? ==> r.error == RuntimeError(NoSourceMessage)
  {
    if url != "" then Ok(Medium(url))
    else if filename != "" then Ok(File(filename))
    else Raised(RuntimeError(NoSourceMessage))
  }

  /** `read_markdown()`: the bytes of the selected source. */
  function ReadMarkdown(url: string, filename: string, env: Env): (r: Result<Object>)
    ensures url != "" ==> r == Fetch(env, Medium(url))
    ensures url == "" && filename != "" ==> r == Fetch(env, File(filename))
    ensures url == "" && filename == "" ==> r == Raised(RuntimeError(NoSourceMessage))
  {
    match SelectSource(url, filename)
    case Raised(e) => Raised(e)
    case Ok(src) => Fetch(env, src)
  }

  function Fetch(env: Env, src: Source): Result<Object>
  {
    match env.read(src)
    case Ok(data) => Ok(PyBytes(data))
    case Raised(e) => Raised(e)
  }

  /**
   * `bytes_to_str(text)`: `None` for anything but bytes; bytes are decoded
   * and stripped of surrounding whitespace.
   */
  function BytesToStr(o: Object, decode: Bytes -> Option<string>): (r: Result<Option<string>>)
    ensures !o.PyBytes? ==> r == Ok(None)
    ensures o.PyBytes? && decode(o.data).None? ==> r == Raised(UnicodeDecodeError)
    ensures o.PyBytes? && decode(o.data).Some? ==> r == Ok(Some(Strip(decode(o.data).value)))
    ensures r.Ok? && r.value.Some? && r.value.value != "" ==>
      !IsSpace(r.value.value[0]) && !IsSpace(r.value.value[|r.value.value| - 1])
  {
    if !o.PyBytes? then Ok(None)
    else
      match decode(o.data)
      case None => Raised(UnicodeDecodeError)
      case Some(text) => Ok(Some(Strip(text)))
  }

  /**
   * `md.convert(text)` and `[x for x in plain_text.split("\n") if x]`.
   * `Markdown.convert(None)` raises `AttributeError`.
   */
  function PlainText(text: Option<string>, convert: string -> string): (r: Result<seq<string>>)
    ensures text.None? <==> r.Raised?
    ensures r.Raised? ==> r.error == AttributeError
    ensures r.Ok? ==> r.value == PlainLines(convert(text.value))
    ensures r.Ok? ==> forall i :: 0 <= i < |r.value| ==> r.value[i] != "" && '\n' !in r.value[i]
  {
    match text
    case None => Raised(AttributeError)
    case Some(t) => Ok(PlainLines(convert(t)))
  }

  /** `md_to_text(md_text)`: decode, convert, split into the non-empty lines. */
  function MdToText(o: Object, env: Env): (r: Result<seq<string>>)
    ensures !o.PyBytes? ==> r == Raised(AttributeError)
    ensures o.PyBytes? && env.decode(o.data).None? ==> r == Raised(UnicodeDecodeError)
    ensures o.PyBytes? && env.decode(o.data).Some? ==>
      r == Ok(PlainLines(env.convert(Strip(env.decode(o.data).value))))
    ensures r.Ok? ==> forall i :: 0 <= i < |r.value| ==> r.value[i] != "" && '\n' !in r.value[i]
  {
    match BytesToStr(o, env.decode)
    case Raised(e) => Raised(e)
    case Ok(text) => PlainText(text, env.convert)
  }

  /**
   * The source is read first, then converted: with neither a URL nor a
   * filename the call raises, and otherwise every line it returns is
   * non-empty and holds no newline.
   */
  function ReadAndConvert(url: string, filename: string, env: Env): (r: Result<seq<string>>)
    ensures url == "" && filename == "" ==> r == Raised(RuntimeError(NoSourceMessage))
    ensures r.Ok? ==> forall i :: 0 <= i < |r.value| ==> r.value[i] != "" && '\n' !in r.value[i]
  {
    match ReadMarkdown(url, filename, env)
    case Raised(e) => Raised(e)
    case Ok(o) => MdToText(o, env)
  }

  /** Without a URL or a filename nothing is read or converted: whatever the collaborators do, the result is the same error. */
  lemma NoSourceRaises(env: Env, env': Env)
    ensures ReadAndConvert("", "", env) == ReadAndConvert("", "", env') == Raised(RuntimeError(NoSourceMessage))
  {
  }

  /** A URL is used even when a filename is set too. */
  lemma UrlWins(url: string, filename: string, filename': string, env: Env)
    requires url != ""
    ensures ReadAndConvert(url, filename, env) == ReadAndConvert(url, filename', env)
  {
  }
}
