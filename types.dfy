/** The entities shared by the scanner, the probes and the API. */
module Types {
  import opened Wrappers

  /** The four injection classes probed on every discovered surface. */
  datatype VulnClass = Sql | Xss | Traversal | Command

  /** The probe classes, in the order the task list pairs them with each surface. */
  const Classes: seq<VulnClass> := [Sql, Xss, Traversal, Command]

  /** One vulnerability dictionary: 'type', 'url', 'payload', 'severity', 'description'. */
  datatype Finding = Finding(kind: string, url: string, payload: string, severity: string, description: string)

  /** A probe task: one surface URL and one class. */
  datatype Task = Task(url: string, cls: VulnClass)

  /**
   * What the network and the regular-expression engine answer. `get(url)` is the
   * body of a GET of `url`, None when the request raises; `head(url)` the header
   * names of a HEAD, None when it raises; `search(pattern, text)` whether
   * `re.search(pattern, text, re.IGNORECASE)` matches; `formActions(body)` the
   * captures of the form-action regular expression, in order.
   */
  datatype Web = Web(
    get: string -> Option<string>,
    head: string -> Option<set<string>>,
    search: (string, string) -> bool,
    formActions: string -> seq<string>)
}
