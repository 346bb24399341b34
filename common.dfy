/** Values shared by the five batch jobs: optional values, results of steps that
    can raise, the replies of upstream HTTP APIs and the (message, status) pair
    each job returns to its HTTP trigger. */
module Common {

  datatype Option<+T> = None | Some(value: T)

  /** The outcome of a step that may raise: `Err` stands for the exception that
      would abort the job. */
  datatype Result<+T, +E> = Ok(value: T) | Err(error: E)

  /** An upstream API reply: its HTTP status code and the list-valued fields of
      the JSON object it carries (`articles`, `quarterlyReports`, ...). */
  datatype Response<T> = Response(status: int, lists: map<string, seq<T>>)

  /** The (message, HTTP status) pair an entry point returns. */
  datatype Reply<M> = Reply(message: M, status: int)

  /** `data.get(key, [])`: the list stored under `key`, or no items when the key
      is absent. */
  function ListField<T>(r: Response<T>, key: string): seq<T>
  {
    if key in r.lists then r.lists[key] else []
  }

  /** Python truthiness of an optional string: neither None nor "". */
  predicate Truthy(s: Option<string>)
  {
    s.Some? && s.value != ""
  }

  /** Python's `s[:n]`: the first n characters, or all of `s` when it is shorter. */
  function Prefix(s: string, n: nat): (p: string)
    ensures |p| == if |s| < n then |s| else n
    ensures p <= s
  {
    if |s| <= n then s else s[..n]
  }

  /** No value occurs twice in `s`. */
  predicate NoDuplicates<T(==)>(s: seq<T>)
  {
    forall i, j :: 0 <= i < j < |s| ==> s[i] != s[j]
  }
}
