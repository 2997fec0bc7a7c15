/** `url_for_server`: how the configuration builders turn a server name into the arguments of
    Flask's URL building, so that a URL can be built for a server other than `SERVER_NAME`. */
module ServerUrl {
  import opened Base
  import opened Text

  /** What `uritools.urisplit` reports about a server name, with the `uricompose` of its parts
      other than the scheme. */
  datatype UriParts = UriParts(
    /** `.scheme`: the scheme as written, `None` when there is none. */
    scheme: Option<string>,
    /** `.getscheme()`: the scheme in lower case. */
    normalizedScheme: string,
    /** `.authority`: `None` when no authority was parsed. */
    authority: Option<string>,
    /** `uricompose(scheme=None, authority=…, path=…, query=…, fragment=…)`. */
    recomposed: string)

  /** The arguments handed to `url_map.bind` and to `build`: the server name without scheme, the
      script name, the scheme to build with (the bound scheme `https` when `None`) and whether
      an absolute URL is wanted. */
  datatype Binding = Binding(serverName: string, scriptName: Option<string>, urlScheme: Option<string>, external: bool)

  /** `s.startswith("/")`. */
  predicate SlashFirst(s: string) {
    |s| >= 1 && s[0] == '/'
  }

  /** `s.startswith("//")`. */
  predicate TwoSlashesFirst(s: string) {
    |s| >= 2 && s[0] == '/' && s[1] == '/'
  }

  /** `s.startswith("./")`. */
  predicate DotSlashFirst(s: string) {
    |s| >= 2 && s[0] == '.' && s[1] == '/'
  }

  /** A server name that stands for a path on the current server: it starts with `/` but not
      with `//`, or it starts with `./`. */
  predicate IsPathLike(s: string) {
    !TwoSlashesFirst(s) && (SlashFirst(s) || DotSlashFirst(s))
  }

  /** `s[2:]`, which is empty for a string shorter than two characters. */
  function DropTwo(s: string): (r: string)
    ensures |s| >= 2 ==> s == s[..2] + r
    ensures |s| < 2 ==> r == ""
  {
    if |s| >= 2 then s[2..] else ""
  }

  predicate OnlySlashes(s: string) {
    forall i | 0 <= i < |s| :: s[i] == '/'
  }

  /** The last step before binding: a name with something other than `/` in it loses its
      trailing slashes, a name of slashes only is kept as it is. */
  function TrimServerName(s: string): (r: string)
    ensures OnlySlashes(s) ==> r == s
    ensures !OnlySlashes(s) ==> r != "" && r[|r| - 1] != '/'
    ensures |r| <= |s| && r == s[..|r|] && forall i | |r| <= i < |s| :: s[i] == '/'
  {
    if StripChar(s, '/') != "" then
      RStripChar(s, '/')
    else s
  }

  /** Trimming a server name a second time changes nothing. */
  lemma TrimServerNameIdempotent(s: string)
    ensures TrimServerName(TrimServerName(s)) == TrimServerName(s)
  {
    var r := TrimServerName(s);
    if !OnlySlashes(s) {
      assert !OnlySlashes(r) by {
        assert r[|r| - 1] != '/';
      }
    }
  }

  /** The server name without scheme, before trimming, and the other binding arguments. */
  function Classify(serverName: Option<string>, split: string -> UriParts): Binding {
    if serverName.None? then
      Binding("", None, None, false)
    else if TwoSlashesFirst(serverName.value) then
      Binding(DropTwo(serverName.value), None, None, true)
    else if SlashFirst(serverName.value) || DotSlashFirst(serverName.value) then
      Binding("", serverName, None, false)
    else if Given(split(serverName.value).scheme) then
      var parts := split(serverName.value);
      var withoutScheme := if Given(parts.authority) then DropTwo(parts.recomposed) else parts.recomposed;
      Binding(withoutScheme, None, Some(parts.normalizedScheme), true)
    else
      Binding(serverName.value, None, None, true)
  }

  /** The binding `url_for_server` builds with. Relative names (none, or a path) give a relative
      URL on the current server, with a path as the script name; every other name gives an
      absolute URL for that server, built with its own scheme when it has one. */
  function BindingFor(serverName: Option<string>, split: string -> UriParts): (b: Binding)
    ensures b.external <==> serverName.Some? && !IsPathLike(serverName.value)
    ensures b.scriptName.Some? <==> serverName.Some? && IsPathLike(serverName.value)
    ensures b.scriptName.Some? ==> b.scriptName == serverName && b.serverName == ""
    ensures serverName.None? ==> b == Binding("", None, None, false)
    ensures b.urlScheme.Some? <==>
      serverName.Some? && !SlashFirst(serverName.value) && !DotSlashFirst(serverName.value)
      && Given(split(serverName.value).scheme)
    ensures b.urlScheme.Some? ==> b.urlScheme.value == split(serverName.value).normalizedScheme
    ensures b.serverName == "" || b.serverName[|b.serverName| - 1] != '/' || OnlySlashes(b.serverName)
  {
    var c := Classify(serverName, split);
    c.(serverName := TrimServerName(c.serverName))
  }

  /** `url_for_server(app, server_name, endpoint)`, with the application's URL building passed
      in as `build`. */
  function UrlForServer(serverName: Option<string>, endpoint: string, split: string -> UriParts,
                        build: (Binding, string) -> string): string
  {
    build(BindingFor(serverName, split), endpoint)
  }

  /** A name written `//host` is the host, trimmed, with the scheme the application binds. */
  lemma ProtocolRelativeName(host: string, split: string -> UriParts)
    ensures BindingFor(Some("//" + host), split) == Binding(TrimServerName(host), None, None, true)
  {
    var s := "//" + host;
    assert TwoSlashesFirst(s);
    assert DropTwo(s) == host;
  }

  /** A bare host name is bound as it is, less its trailing slashes. */
  lemma BareHostName(host: string, split: string -> UriParts)
    requires !SlashFirst(host) && !DotSlashFirst(host) && !Given(split(host).scheme)
    ensures BindingFor(Some(host), split) == Binding(TrimServerName(host), None, None, true)
  {
    assert Classify(Some(host), split) == Binding(host, None, None, true);
  }

  /** A name with a scheme is bound without it, built with the scheme in lower case, and, when
      an authority was parsed, without the `//` that `uricompose` puts before the authority. */
  lemma SchemeGiven(name: string, split: string -> UriParts)
    requires !SlashFirst(name) && !DotSlashFirst(name) && Given(split(name).scheme)
    ensures var parts := split(name);
      var withoutScheme := if Given(parts.authority) then DropTwo(parts.recomposed) else parts.recomposed;
      BindingFor(Some(name), split) == Binding(TrimServerName(withoutScheme), None, Some(parts.normalizedScheme), true)
  {
    var parts := split(name);
    var withoutScheme := if Given(parts.authority) then DropTwo(parts.recomposed) else parts.recomposed;
    assert Classify(Some(name), split) == Binding(withoutScheme, None, Some(parts.normalizedScheme), true);
  }
}
