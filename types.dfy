/** Pipeline records as the GitLab pipelines API reports them, the guard's
    settings, and the primitives of the Python runtime the guard relies on
    (the `re` module and `int()`), which this model takes as a parameter. */
module Types {

  datatype Option<T> = None | Some(value: T)

  datatype Result<T, E> = Ok(value: T) | Err(error: E)

  /** The JSON value found under a pipeline's "id" key. */
  datatype IdValue = IdNumber(n: int) | IdText(text: string) | IdNull

  /** One pipeline run of the project: a snapshot taken at poll time. */
  datatype Record = Record(id: IdValue, ref: string, status: string, sha: string)

  /** The already-parsed command line the guard loop reads.
      `pipelineId` stays text, as the argument parser delivers it;
      `timeout` is the number of seconds the alarm is armed with. */
  datatype Config = Config(
    refPattern: string,
    statusPattern: string,
    pipelineId: string,
    timeout: int,
    silent: bool,
    noWait: bool)

  /** The command line's defaults: a ref that starts with digits and a
      dash, a status that starts with "running", one hour. */
  const DEFAULT_REF_PATTERN: string := "^\\d+\\-"
  const DEFAULT_STATUS_PATTERN: string := "running"
  const DEFAULT_TIMEOUT: int := 3600

  /** What the Python runtime does and this model does not define:
      - `compiles(p)`: `p` is a pattern the `re` module accepts;
      - `matchesAt(p, s, i)`: the compiled `p` matches `s` starting at index `i`
        (what `re.search` tries at every index and `re.match` at index 0);
      - `parseInt(t)`: the value of `int(t)` for a string `t`, or None when it raises. */
  datatype Host = Host(
    compiles: string -> bool,
    matchesAt: (string, string, int) -> bool,
    parseInt: string -> Option<int>)

  /** Every exception the body of the guard's `try` can raise. */
  datatype Failure =
    | ApiAccess(cause: string)     // the pipelines request failed
    | BadPattern(pattern: string)  // `re` rejected a pattern
    | BadId                        // `int()` rejected an id

  /** `int(v)` for the value of a record's id: a number is its own value, a
      string is parsed, and `None` raises. */
  function IntOf(host: Host, v: IdValue): (r: Option<int>)
    ensures v.IdNumber? ==> r == Some(v.n)
    ensures v.IdText? ==> r == host.parseInt(v.text)
    ensures v.IdNull? ==> r.None?
  {
    match v
    case IdNumber(n) => Some(n)
    case IdText(t) => host.parseInt(t)
    case IdNull => None
  }
}
