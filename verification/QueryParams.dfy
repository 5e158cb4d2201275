/**
 * Query strings as the pages read and write them: a map from parameter
 * names to (already decoded) values, and a navigation target.
 */
module QueryParams {
  import opened Wrappers

  type Query = map<string, string>

  /** A client-side navigation: the path and its query parameters. */
  datatype Navigation = Navigation(path: string, query: Query)

  /** `searchParams.get(key)`: None when the parameter is absent. */
  function Get(q: Query, key: string): Option<string> {
    if key in q then Some(q[key]) else None
  }

  /** `searchParams.get(key) || fallback`: an absent OR empty value gives the fallback. */
  function GetOr(q: Query, key: string, fallback: string): string {
    if key in q && q[key] != "" then q[key] else fallback
  }

  /** With an empty fallback, `get(key) || ""` reads back exactly what was written. */
  lemma GetOrEmpty(q: Query, key: string, value: string)
    requires key in q && q[key] == value
    ensures GetOr(q, key, "") == value
  {
  }
}
