/** `build_shibboleth_eds_config`: the configuration of the Shibboleth embedded discovery service,
    which lets the IdP chooser return only to this site's own servers. */
module ShibbolethEds {
  import opened Base
  import opened JsonValues
  import opened StringOrder
  import opened Text
  import opened ServerUrl

  /** The Flask settings the builder reads; `None` when a setting is unset or `None`. */
  datatype AppConfig = AppConfig(serverName: Option<string>, siteUiUrl: Option<string>, siteApiUrl: Option<string>)

  const DiscoFeedEndpoint: string := "invenio_edugain.disco_feed"
  const AuthnRequestEndpoint: string := "invenio_edugain.authn_request"

  /** The name, without trailing slashes, that a truthy setting contributes. */
  function ServerNameOf(setting: Option<string>): seq<string> {
    if Given(setting) then [RStripChar(setting.value, '/')] else []
  }

  /** The server names in the order `SERVER_NAME`, `SITE_UI_URL`, `SITE_API_URL`, each setting
      contributing when it is truthy. */
  function ServerNames(cfg: AppConfig): seq<string>
  {
    ServerNameOf(cfg.serverName) + ServerNameOf(cfg.siteUiUrl) + ServerNameOf(cfg.siteApiUrl)
  }

  /** No server name ends in `/`. */
  lemma ServerNamesTrimmed(cfg: AppConfig)
    ensures forall x | x in ServerNames(cfg) :: x == "" || x[|x| - 1] != '/'
  {
  }

  /** The JavaScript pattern that allows returning to the server itself. */
  function ExactPattern(escaped: string): string {
    "^" + escaped + "$"
  }

  /** The JavaScript pattern that allows returning to any path below the server. */
  function SubpathPattern(escaped: string): string {
    "^" + escaped + "/.*$"
  }

  /** The two patterns of each server, server by server, with `escape` standing for `re.escape`. */
  function RedirectAllow(names: seq<string>, escape: string -> string): (r: seq<string>)
    ensures |r| == 2 * |names|
    ensures forall k | 0 <= k < |names| ::
      r[2 * k] == ExactPattern(escape(names[k])) && r[2 * k + 1] == SubpathPattern(escape(names[k]))
    decreases |names|
  {
    if names == [] then []
    else
      var init := names[..|names| - 1];
      var last := names[|names| - 1];
      RedirectAllow(init, escape) + [ExactPattern(escape(last)), SubpathPattern(escape(last))]
  }

  /** `set(s)`. */
  function Distinct(s: seq<string>): set<string> {
    set x | x in s
  }

  /** `sorted(set(names))`. */
  function SortedDistinct(names: seq<string>): (r: seq<string>)
    ensures StrictlySorted(r)
    ensures forall x :: x in r <==> x in names
  {
    SortedSet(Distinct(names))
  }

  /** The servers the IdP chooser may return to, in ascending order, each once. */
  function AllowedNames(cfg: AppConfig): (r: seq<string>)
    ensures StrictlySorted(r)
    ensures forall x :: x in r <==> x in ServerNames(cfg)
  {
    SortedDistinct(ServerNames(cfg))
  }

  /** The entries the builder sets before the keyword arguments are merged in. */
  function DefaultEntries(dataSource: string, defaultReturn: string, redirectAllow: seq<string>): map<string, Json> {
    map[
      "dataSource" := JStr(dataSource),
      "defaultReturn" := JStr(defaultReturn),
      "redirectAllow" := JList(StrList(redirectAllow)),
      "ignoreURLParams" := JBool(false)]
  }

  /** `res | kwargs` for this application: the keyword arguments win over the builder's own
      entries. */
  function EdsConfig(cfg: AppConfig, kwargs: map<string, Json>, escape: string -> string,
                     split: string -> UriParts, build: (Binding, string) -> string): map<string, Json>
  {
    DefaultEntries(
      UrlForServer(None, DiscoFeedEndpoint, split, build),
      UrlForServer(cfg.serverName, AuthnRequestEndpoint, split, build),
      RedirectAllow(AllowedNames(cfg), escape)) + kwargs
  }

  /** The loop over the sorted server names. */
  method CollectRedirectAllow(names: seq<string>, escape: string -> string) returns (allow: seq<string>)
    ensures allow == RedirectAllow(names, escape)
  {
    allow := [];
    for i := 0 to |names|
      invariant allow == RedirectAllow(names[..i], escape)
    {
      var escapedName := escape(names[i]);
      assert names[..i + 1][..i] == names[..i];
      allow := allow + [ExactPattern(escapedName), SubpathPattern(escapedName)];
    }
    assert names[..|names|] == names;
  }

  /** The three `if server_name := app.config.get(…)` steps. */
  method CollectServerNames(cfg: AppConfig) returns (serverNames: seq<string>)
    ensures serverNames == ServerNames(cfg)
  {
    serverNames := [];
    if Given(cfg.serverName) {
      serverNames := serverNames + [RStripChar(cfg.serverName.value, '/')];
    }
    if Given(cfg.siteUiUrl) {
      serverNames := serverNames + [RStripChar(cfg.siteUiUrl.value, '/')];
    }
    if Given(cfg.siteApiUrl) {
      serverNames := serverNames + [RStripChar(cfg.siteApiUrl.value, '/')];
    }
  }

  /** `build_shibboleth_eds_config(app, **kwargs)`. */
  method BuildShibbolethEdsConfig(cfg: AppConfig, kwargs: map<string, Json>, escape: string -> string,
                                  split: string -> UriParts, build: (Binding, string) -> string)
    returns (res: map<string, Json>)
    ensures res == EdsConfig(cfg, kwargs, escape, split, build)
  {
    var serverNames := CollectServerNames(cfg);
    var names := SortedDistinct(serverNames);
    var redirectAllow := CollectRedirectAllow(names, escape);
    assert redirectAllow == RedirectAllow(AllowedNames(cfg), escape);
    var dataSource := UrlForServer(None, DiscoFeedEndpoint, split, build);
    var defaultReturn := UrlForServer(cfg.serverName, AuthnRequestEndpoint, split, build);
    res := DefaultEntries(dataSource, defaultReturn, redirectAllow);
    res := res + kwargs;
  }

  /** Every keyword argument ends up in the configuration as given, next to the four entries the
      builder always sets. */
  lemma KeywordsWin(cfg: AppConfig, kwargs: map<string, Json>, escape: string -> string,
                    split: string -> UriParts, build: (Binding, string) -> string)
    ensures var res := EdsConfig(cfg, kwargs, escape, split, build);
      && res.Keys == kwargs.Keys + {"dataSource", "defaultReturn", "redirectAllow", "ignoreURLParams"}
      && forall k | k in kwargs :: res[k] == kwargs[k]
  {
  }

  /** Unless a keyword argument overrides it, each computed entry is kept: the feed is fetched
      from a relative URL on the current server, the IdP chooser returns to `authn_request` on
      `SERVER_NAME`, the allowed return patterns are the servers', and the URL parameters are
      kept, which the redirect after login needs. */
  lemma FixedDefaults(cfg: AppConfig, kwargs: map<string, Json>, escape: string -> string,
                      split: string -> UriParts, build: (Binding, string) -> string,
                      dataSource: string, defaultReturn: string, allow: seq<string>)
    requires dataSource == UrlForServer(None, DiscoFeedEndpoint, split, build)
    requires defaultReturn == UrlForServer(cfg.serverName, AuthnRequestEndpoint, split, build)
    requires allow == RedirectAllow(AllowedNames(cfg), escape)
    ensures var res := EdsConfig(cfg, kwargs, escape, split, build);
      && ("dataSource" !in kwargs ==> "dataSource" in res && res["dataSource"] == JStr(dataSource))
      && ("defaultReturn" !in kwargs ==> "defaultReturn" in res && res["defaultReturn"] == JStr(defaultReturn))
      && ("redirectAllow" !in kwargs ==> "redirectAllow" in res && res["redirectAllow"] == JList(StrList(allow)))
      && ("ignoreURLParams" !in kwargs ==> "ignoreURLParams" in res && res["ignoreURLParams"] == JBool(false))
  {
    DefaultsKept(dataSource, defaultReturn, allow, kwargs);
  }

  /** The builder's entries that the keyword arguments do not override survive the merge. */
  lemma DefaultsKept(dataSource: string, defaultReturn: string, allow: seq<string>, kwargs: map<string, Json>)
    ensures var res := DefaultEntries(dataSource, defaultReturn, allow) + kwargs;
      && ("dataSource" !in kwargs ==> "dataSource" in res && res["dataSource"] == JStr(dataSource))
      && ("defaultReturn" !in kwargs ==> "defaultReturn" in res && res["defaultReturn"] == JStr(defaultReturn))
      && ("redirectAllow" !in kwargs ==> "redirectAllow" in res && res["redirectAllow"] == JList(StrList(allow)))
      && ("ignoreURLParams" !in kwargs ==> "ignoreURLParams" in res && res["ignoreURLParams"] == JBool(false))
  {
  }

  /** The feed's URL is relative: no server name, no script name, not external. */
  lemma DataSourceRelative(split: string -> UriParts, build: (Binding, string) -> string)
    ensures UrlForServer(None, DiscoFeedEndpoint, split, build) == build(Binding("", None, None, false), DiscoFeedEndpoint)
  {
  }

  /** Every configured server may be returned to, at its root and below it. */
  lemma ConfiguredServersAllowed(cfg: AppConfig, escape: string -> string, setting: Option<string>)
    requires setting == cfg.serverName || setting == cfg.siteUiUrl || setting == cfg.siteApiUrl
    requires Given(setting)
    ensures var allow := RedirectAllow(AllowedNames(cfg), escape);
      && ExactPattern(escape(RStripChar(setting.value, '/'))) in allow
      && SubpathPattern(escape(RStripChar(setting.value, '/'))) in allow
  {
    var names := AllowedNames(cfg);
    var name := RStripChar(setting.value, '/');
    assert name in names;
    var k :| 0 <= k < |names| && names[k] == name;
    var allow := RedirectAllow(names, escape);
    assert allow[2 * k] == ExactPattern(escape(name));
    assert allow[2 * k + 1] == SubpathPattern(escape(name));
  }

  lemma Halves(i: nat)
    ensures i == 2 * (i / 2) || i == 2 * (i / 2) + 1
  {
  }

  /** Each pattern comes from one of the names it was built from. */
  lemma PatternSource(names: seq<string>, escape: string -> string, pattern: string) returns (k: nat)
    requires pattern in RedirectAllow(names, escape)
    ensures k < |names|
    ensures pattern == ExactPattern(escape(names[k])) || pattern == SubpathPattern(escape(names[k]))
  {
    var allow := RedirectAllow(names, escape);
    var i :| 0 <= i < |allow| && allow[i] == pattern;
    k := i / 2;
    Halves(i);
  }

  /** Nothing else may be returned to: every pattern is one of the two of a configured server. */
  lemma OnlyConfiguredServersAllowed(cfg: AppConfig, escape: string -> string, pattern: string)
    requires pattern in RedirectAllow(AllowedNames(cfg), escape)
    ensures exists name | name in ServerNames(cfg) ::
      pattern == ExactPattern(escape(name)) || pattern == SubpathPattern(escape(name))
  {
    var names := AllowedNames(cfg);
    var k := PatternSource(names, escape, pattern);
    assert names[k] in names;
    assert names[k] in ServerNames(cfg);
  }
}
