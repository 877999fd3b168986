/** Normalising avatar URLs returned by the site's API, which may be protocol-relative. */
module Avatar {
  import opened Wrappers

  /** `url.startsWith('//')` */
  predicate ProtocolRelative(url: string) { |url| >= 2 && url[..2] == "//" }

  /** `fixAvatarUrl`: `None` stands for `null` and `undefined`. Missing and empty URLs
      become "", protocol-relative ones get "https:" in front, and the rest are kept. */
  function FixAvatarUrl(url: Option<string>): (r: string)
    ensures url.None? || url == Some("") ==> r == ""
    ensures url.Some? && ProtocolRelative(url.value) ==> r == "https:" + url.value
    ensures url.Some? && url.value != "" && !ProtocolRelative(url.value) ==> r == url.value
    ensures !ProtocolRelative(r)
  {
    match url
    case None => ""
    case Some(u) =>
      if u == "" then ""
      else if ProtocolRelative(u) then (assert ("https:" + u)[0] == 'h'; "https:" + u)
      else u
  }

  /** Normalising twice gives what normalising once does. */
  lemma FixIsIdempotent(url: Option<string>)
    ensures FixAvatarUrl(Some(FixAvatarUrl(url))) == FixAvatarUrl(url)
  {
  }
}
