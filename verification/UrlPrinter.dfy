/** The `href` getter and its parts. */
module UrlPrinter {
  import opened Wrappers
  import opened UrlText
  import opened UrlParser

  function Join(path: seq<string>): string {
    if path == [] then "" else if |path| == 1 then path[0] else path[0] + "/" + Join(path[1..])
  }

  function Pathname(u: Url): string {
    if u.isInvalid then "" else if u.isRelative then "/" + Join(u.path) else u.schemeData
  }

  /** The `host` getter: the host with its port, if there is one. */
  function HostAndPort(u: Url): string {
    if u.isInvalid then "" else if u.port != "" then u.host + ":" + u.port else u.host
  }

  function Credentials(u: Url): string {
    u.username + if u.password.Some? then ":" + u.password.value else ""
  }

  function Authority(u: Url): string {
    if u.username != "" || u.password.Some? then Credentials(u) + "@" else ""
  }

  /** `raw` is the string the object was constructed from. */
  function Href(u: Url, raw: string): string {
    if u.isInvalid then raw
    else
      u.scheme + ":"
      + (if u.isRelative then "//" + Authority(u) + HostAndPort(u) else "")
      + Pathname(u) + u.query + u.fragment
  }
}
