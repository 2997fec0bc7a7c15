/** The discovery feed the IdP chooser reads and the selection of where an authentication request
    goes (`invenio_edugain/views.py`). */
module Views {
  import opened Base
  import opened JsonValues
  import opened StringOrder
  import opened Models
  import opened Text
  import Utils

  // ---------------------------------------------------------------------------------------------
  // disco_feed

  /** A text with its language, as mdui and `<Organization>` elements give them. */
  datatype LangText = LangText(lang: string, text: string)

  /** An mdui `<Logo>`: its URL, its size and maybe a language. */
  datatype Logo = Logo(text: string, height: Json, width: Json, lang: Option<string>)

  /** One mdui `<UIInfo>` element. */
  datatype UIInfo = UIInfo(displayNames: seq<LangText>, keywords: seq<LangText>, logos: seq<Logo>)

  /** An IdP's `<Organization>`; the lists are empty when the element is missing. */
  datatype Organization = Organization(displayNames: seq<LangText>, names: seq<LangText>, urls: seq<LangText>)

  /** What the metadata store holds about one IdP, as far as the feed uses it. */
  datatype IdPMetadata = IdPMetadata(uiinfos: seq<UIInfo>, org: Organization)

  datatype LangValue = LangValue(lang: string, value: string)

  datatype LogoEntry = LogoEntry(value: string, height: Json, width: Json, lang: Option<string>)

  /** One entry of the feed. */
  datatype FeedEntry = FeedEntry(entityId: string, displayNames: seq<LangValue>, keywords: seq<LangValue>, logos: seq<LogoEntry>)

  function UIDisplayNames(uiinfos: seq<UIInfo>): seq<seq<LangText>> {
    seq(|uiinfos|, i requires 0 <= i < |uiinfos| => uiinfos[i].displayNames)
  }

  function UIKeywords(uiinfos: seq<UIInfo>): seq<seq<LangText>> {
    seq(|uiinfos|, i requires 0 <= i < |uiinfos| => uiinfos[i].keywords)
  }

  function UILogos(uiinfos: seq<UIInfo>): seq<seq<Logo>> {
    seq(|uiinfos|, i requires 0 <= i < |uiinfos| => uiinfos[i].logos)
  }

  /** The names of an IdP by relevance: the display names of every `<UIInfo>`, then the
      organisation's display names, names and URLs. */
  function NameCandidates(md: IdPMetadata): (r: seq<LangText>)
    ensures forall n :: n in r <==>
      || (exists i | 0 <= i < |md.uiinfos| :: n in md.uiinfos[i].displayNames)
      || n in md.org.displayNames || n in md.org.names || n in md.org.urls
  {
    var r := Concat(UIDisplayNames(md.uiinfos)) + md.org.displayNames + md.org.names + md.org.urls;
    assert forall i | 0 <= i < |md.uiinfos| :: UIDisplayNames(md.uiinfos)[i] == md.uiinfos[i].displayNames;
    r
  }

  /** The position of the first name in `lang` at or after `i`, or `|names|`. */
  function FirstIndexFrom(names: seq<LangText>, lang: string, i: nat): nat
    requires i <= |names|
    decreases |names| - i
  {
    if i == |names| then i else if names[i].lang == lang then i else FirstIndexFrom(names, lang, i + 1)
  }

  /** The position of the first name in `lang`, or `|names|`. */
  function FirstIndex(names: seq<LangText>, lang: string): nat {
    FirstIndexFrom(names, lang, 0)
  }

  lemma {:induction false} FirstIndexFromSpec(names: seq<LangText>, lang: string, i: nat)
    requires i <= |names|
    ensures var r := FirstIndexFrom(names, lang, i);
      && i <= r <= |names|
      && (forall j | i <= j < r :: names[j].lang != lang)
      && (r < |names| ==> names[r].lang == lang)
    decreases |names| - i
  {
    if i < |names| && names[i].lang != lang {
      FirstIndexFromSpec(names, lang, i + 1);
    }
  }

  /** No name before the first index is in `lang`, and the name there is. */
  lemma FirstIndexSpec(names: seq<LangText>, lang: string)
    ensures var r := FirstIndex(names, lang);
      && r <= |names|
      && (forall j | 0 <= j < r :: names[j].lang != lang)
      && (r < |names| ==> names[r].lang == lang)
  {
    FirstIndexFromSpec(names, lang, 0);
  }

  function LangsOf(entries: seq<LangValue>): (r: seq<string>)
    ensures |r| == |entries| && forall i | 0 <= i < |r| :: r[i] == entries[i].lang
  {
    seq(|entries|, i requires 0 <= i < |entries| => entries[i].lang)
  }

  /** `DisplayNames` of a feed entry: per language, in the order the languages first appear, the
      first name in that language. */
  function DisplayNames(names: seq<LangText>): seq<LangValue>
    decreases |names|
  {
    if names == [] then []
    else
      var init := DisplayNames(names[..|names| - 1]);
      var last := names[|names| - 1];
      if last.lang in LangsOf(init) then init else init + [LangValue(last.lang, last.text)]
  }

  lemma {:induction false} FirstIndexFromUnique(names: seq<LangText>, lang: string, i: nat, k: nat)
    requires i <= k <= |names|
    requires forall j | i <= j < k :: names[j].lang != lang
    requires k < |names| ==> names[k].lang == lang
    ensures FirstIndexFrom(names, lang, i) == k
    decreases k - i
  {
    if i < k {
      FirstIndexFromUnique(names, lang, i + 1, k);
    }
  }

  /** The first index is the only one with its defining property. */
  lemma FirstIndexUnique(names: seq<LangText>, lang: string, k: nat)
    requires k <= |names|
    requires forall j | 0 <= j < k :: names[j].lang != lang
    requires k < |names| ==> names[k].lang == lang
    ensures FirstIndex(names, lang) == k
  {
    FirstIndexFromUnique(names, lang, 0, k);
  }

  /** The first name of a language is still the first once more names follow. */
  lemma FirstIndexOfInit(names: seq<LangText>, lang: string)
    requires names != []
    ensures var n := |names| - 1;
      FirstIndex(names, lang) == if FirstIndex(names[..n], lang) < n then FirstIndex(names[..n], lang)
                                 else if names[n].lang == lang then n else n + 1
  {
    var n := |names| - 1;
    var g := FirstIndex(names[..n], lang);
    PrefixFirstIndex(names, n, lang);
    if g < n {
      FirstIndexUnique(names, lang, g);
    } else if names[n].lang == lang {
      FirstIndexUnique(names, lang, n);
    } else {
      FirstIndexUnique(names, lang, n + 1);
    }
  }

  /** What the first index in a prefix says about the names themselves. */
  lemma PrefixFirstIndex(names: seq<LangText>, n: nat, lang: string)
    requires n <= |names|
    ensures var g := FirstIndex(names[..n], lang);
      && g <= n
      && (forall j | 0 <= j < g :: names[j].lang != lang)
      && (g < n ==> names[g].lang == lang)
  {
    var g := FirstIndex(names[..n], lang);
    FirstIndexSpec(names[..n], lang);
    forall j | 0 <= j < g ensures names[j].lang != lang {
      assert names[j] == names[..n][j];
    }
    if g < n {
      assert names[g] == names[..n][g];
    }
  }

  /** One more name either repeats a language already there or adds its own, at the end. */
  lemma DisplayNamesStep(names: seq<LangText>)
    requires names != []
    ensures var n := |names| - 1;
      var r0 := DisplayNames(names[..n]);
      && DisplayNames(names) == (if names[n].lang in LangsOf(r0) then r0 else r0 + [LangValue(names[n].lang, names[n].text)])
      && LangsOf(DisplayNames(names))[..|r0|] == LangsOf(r0)
  {
  }

  /** Every language of the names has an entry. */
  lemma {:induction false} DisplayNamesComplete(names: seq<LangText>)
    ensures forall k | 0 <= k < |names| :: names[k].lang in LangsOf(DisplayNames(names))
    decreases |names|
  {
    if names != [] {
      var n := |names| - 1;
      var init := names[..n];
      DisplayNamesComplete(init);
      DisplayNamesStep(names);
      var r0 := DisplayNames(init);
      var r := DisplayNames(names);
      forall k | 0 <= k < |names| ensures names[k].lang in LangsOf(r) {
        if k < n {
          assert init[k] == names[k];
          assert names[k].lang in LangsOf(r0);
          var i :| 0 <= i < |r0| && LangsOf(r0)[i] == names[k].lang;
          assert LangsOf(r)[..|r0|] == LangsOf(r0);
          assert LangsOf(r)[..|r0|][i] == LangsOf(r)[i];
        } else if names[n].lang !in LangsOf(r0) {
          assert LangsOf(r)[|r0|] == names[n].lang;
        }
      }
    }
  }

  /** Each entry holds the first name in its language, and the entries come in the order their
      languages first appear in the names. */
  predicate FirstWins(names: seq<LangText>, entries: seq<LangValue>) {
    && (forall i | 0 <= i < |entries| ::
         FirstIndex(names, entries[i].lang) < |names| && entries[i].value == names[FirstIndex(names, entries[i].lang)].text)
    && (forall i, j | 0 <= i < j < |entries| :: FirstIndex(names, entries[i].lang) < FirstIndex(names, entries[j].lang))
  }

  /** The display names hold the first name of each language, in the order the languages first
      appear (so no language has two). */
  lemma {:induction false} DisplayNamesFirstWins(names: seq<LangText>)
    ensures FirstWins(names, DisplayNames(names))
    decreases |names|
  {
    if names != [] {
      var n := |names| - 1;
      var init := names[..n];
      DisplayNamesFirstWins(init);
      var r0 := DisplayNames(init);
      InitEntriesKept(names, init, r0);
      DisplayNamesStep(names);
      var r := DisplayNames(names);
      if names[n].lang in LangsOf(r0) {
        assert r == r0;
      } else {
        NewLanguageFirst(names);
        assert r == r0 + [LangValue(names[n].lang, names[n].text)];
        assert forall i | 0 <= i < |r0| :: r[i] == r0[i];
        NewLastFirst(names, r0, r);
      }
    }
  }

  /** The entries of the names but the last keep their first positions once the last follows. */
  lemma InitEntriesKept(names: seq<LangText>, init: seq<LangText>, r0: seq<LangValue>)
    requires names != [] && init == names[..|names| - 1]
    requires FirstWins(init, r0)
    ensures FirstWins(names, r0)
    ensures forall i | 0 <= i < |r0| :: FirstIndex(names, r0[i].lang) < |names| - 1
  {
    forall i | 0 <= i < |r0|
      ensures FirstIndex(names, r0[i].lang) == FirstIndex(init, r0[i].lang) < |names| - 1
      ensures r0[i].value == names[FirstIndex(names, r0[i].lang)].text
    {
      FirstIndexOfInit(names, r0[i].lang);
      assert init[FirstIndex(init, r0[i].lang)] == names[FirstIndex(init, r0[i].lang)];
    }
  }

  /** A language that the names but the last lack first appears last. */
  lemma NewLanguageFirst(names: seq<LangText>)
    requires names != []
    requires names[|names| - 1].lang !in LangsOf(DisplayNames(names[..|names| - 1]))
    ensures FirstIndex(names, names[|names| - 1].lang) == |names| - 1
  {
    var n := |names| - 1;
    var init := names[..n];
    DisplayNamesComplete(init);
    FirstIndexOfInit(names, names[n].lang);
    FirstIndexSpec(init, names[n].lang);
  }

  /** The entry a new language adds comes last and holds the last name, whose position is after
      the first positions of all the earlier languages. */
  lemma NewLastFirst(names: seq<LangText>, r0: seq<LangValue>, r: seq<LangValue>)
    requires names != []
    requires |r| == |r0| + 1 && forall i | 0 <= i < |r0| :: r[i] == r0[i]
    requires r[|r0|].lang == names[|names| - 1].lang && r[|r0|].value == names[|names| - 1].text
    requires FirstIndex(names, names[|names| - 1].lang) == |names| - 1
    requires FirstWins(names, r0)
    requires forall i | 0 <= i < |r0| :: FirstIndex(names, r0[i].lang) < |names| - 1
    ensures FirstWins(names, r)
  {
  }

  /** The grouping loop of `disco_feed`: a dictionary of names per language, whose keys keep the
      order they were first inserted in, then the first name of each. */
  method GroupNames(names: seq<LangText>) returns (displayNames: seq<LangValue>)
    ensures displayNames == DisplayNames(names)
  {
    var langs: seq<string> := [];
    var namesByLang: map<string, seq<string>> := map[];
    for k := 0 to |names|
      invariant langs == LangsOf(DisplayNames(names[..k]))
      invariant forall l :: l in namesByLang <==> l in langs
      invariant forall i | 0 <= i < |langs| ::
        namesByLang[langs[i]] != [] && namesByLang[langs[i]][0] == DisplayNames(names[..k])[i].value
    {
      var dn := names[k];
      assert names[..k + 1][..k] == names[..k];
      if dn.lang in namesByLang {
        namesByLang := namesByLang[dn.lang := namesByLang[dn.lang] + [dn.text]];
      } else {
        langs := langs + [dn.lang];
        namesByLang := namesByLang[dn.lang := [dn.text]];
      }
    }
    assert names[..|names|] == names;
    displayNames := seq(|langs|, i requires 0 <= i < |langs| => LangValue(langs[i], namesByLang[langs[i]][0]));
  }

  /** `Keywords` of a feed entry: the keywords of every `<UIInfo>`, in order. */
  function Keywords(uiinfos: seq<UIInfo>): (r: seq<LangValue>)
    ensures |r| == |Concat(UIKeywords(uiinfos))|
  {
    var kws := Concat(UIKeywords(uiinfos));
    seq(|kws|, k requires 0 <= k < |kws| => LangValue(kws[k].lang, kws[k].text))
  }

  /** The keywords of one `<UIInfo>`, language and text. */
  lemma KeywordsOfOne(uiinfo: UIInfo)
    ensures |Keywords([uiinfo])| == |uiinfo.keywords|
    ensures forall k | 0 <= k < |uiinfo.keywords| ::
      Keywords([uiinfo])[k] == LangValue(uiinfo.keywords[k].lang, uiinfo.keywords[k].text)
  {
    assert UIKeywords([uiinfo]) == [uiinfo.keywords];
    assert Concat([uiinfo.keywords]) == Concat([uiinfo.keywords][..0]) + uiinfo.keywords;
  }

  /** The keywords of several `<UIInfo>` elements come one element after the other. */
  lemma KeywordsAppend(a: seq<UIInfo>, b: seq<UIInfo>)
    ensures Keywords(a + b) == Keywords(a) + Keywords(b)
  {
    assert UIKeywords(a + b) == UIKeywords(a) + UIKeywords(b);
    ConcatAppend(UIKeywords(a), UIKeywords(b));
  }

  /** One entry of `Logos`: the logo's URL and size, and its language only when it has one. */
  function LogoEntryOf(logo: Logo): LogoEntry {
    LogoEntry(logo.text, logo.height, logo.width, logo.lang)
  }

  /** `Logos` of a feed entry: an entry per logo of every `<UIInfo>`, in order. */
  function LogoEntries(uiinfos: seq<UIInfo>): (r: seq<LogoEntry>)
    ensures var logos := Concat(UILogos(uiinfos));
      && |r| == |logos|
      && forall k | 0 <= k < |r| ::
        && r[k].value == logos[k].text && r[k].height == logos[k].height && r[k].width == logos[k].width
        && (r[k].lang.Some? <==> logos[k].lang.Some?) && (logos[k].lang.Some? ==> r[k].lang == logos[k].lang)
  {
    var logos := Concat(UILogos(uiinfos));
    seq(|logos|, k requires 0 <= k < |logos| => LogoEntryOf(logos[k]))
  }

  /** The logo loop of `disco_feed`. */
  method CollectLogos(uiinfos: seq<UIInfo>) returns (logoEntries: seq<LogoEntry>)
    ensures logoEntries == LogoEntries(uiinfos)
  {
    logoEntries := [];
    for i := 0 to |uiinfos|
      invariant logoEntries == LogoEntries(uiinfos[..i])
    {
      var logos := uiinfos[i].logos;
      ghost var before := logoEntries;
      for j := 0 to |logos|
        invariant |logoEntries| == |before| + j
        invariant logoEntries[..|before|] == before
        invariant forall k | 0 <= k < j :: logoEntries[|before| + k] == LogoEntryOf(logos[k])
      {
        var logoEntry := LogoEntry(logos[j].text, logos[j].height, logos[j].width, None);
        if logos[j].lang.Some? {
          logoEntry := logoEntry.(lang := logos[j].lang);
        }
        logoEntries := logoEntries + [logoEntry];
      }
      assert UILogos(uiinfos[..i + 1]) == UILogos(uiinfos[..i]) + [logos];
      assert UILogos(uiinfos[..i + 1])[..i] == UILogos(uiinfos[..i]);
      ConcatStep(UILogos(uiinfos[..i + 1]), i);
      assert UILogos(uiinfos[..i + 1])[..i + 1] == UILogos(uiinfos[..i + 1]);
    }
    assert uiinfos[..|uiinfos|] == uiinfos;
  }

  /** The feed entry of one IdP. */
  function FeedEntryOf(id: string, md: IdPMetadata): FeedEntry {
    FeedEntry(id, DisplayNames(NameCandidates(md)), Keywords(md.uiinfos), LogoEntries(md.uiinfos))
  }

  function EntityIds(feed: seq<FeedEntry>): (r: seq<string>)
    ensures |r| == |feed| && forall k | 0 <= k < |feed| :: r[k] == feed[k].entityId
  {
    seq(|feed|, k requires 0 <= k < |feed| => feed[k].entityId)
  }

  /** `disco_feed`: an entry for every IdP that is both in the metadata store (`mdsIds`) and an
      enabled, discoverable row, in ascending id order. */
  method DiscoFeed(mdsIds: set<string>, rows: map<string, IdPData>, metadataOf: string -> IdPMetadata)
    returns (feed: seq<FeedEntry>)
    ensures StrictlySorted(EntityIds(feed))
    ensures forall id :: id in EntityIds(feed) <==>
      id in mdsIds && id in rows && rows[id].enabled && rows[id].discoverable
    ensures forall e | e in feed :: e == FeedEntryOf(e.entityId, metadataOf(e.entityId))
  {
    var discoverableIdpIds := set id | id in rows && rows[id].discoverable && rows[id].enabled;
    var availableIdpIds := SortedSet(mdsIds * discoverableIdpIds);
    feed := BuildFeed(availableIdpIds, metadataOf);
  }

  /** The entry-building loop of `disco_feed`, over the ids in the order given. */
  method BuildFeed(ids: seq<string>, metadataOf: string -> IdPMetadata) returns (feed: seq<FeedEntry>)
    ensures EntityIds(feed) == ids
    ensures forall e | e in feed :: e == FeedEntryOf(e.entityId, metadataOf(e.entityId))
  {
    feed := [];
    for i := 0 to |ids|
      invariant EntityIds(feed) == ids[..i]
      invariant forall e | e in feed :: e == FeedEntryOf(e.entityId, metadataOf(e.entityId))
    {
      var idpId := ids[i];
      var md := metadataOf(idpId);
      var displayNames := GroupNames(NameCandidates(md));
      var logoEntries := CollectLogos(md.uiinfos);
      var entry := FeedEntry(idpId, displayNames, Keywords(md.uiinfos), logoEntries);
      feed := feed + [entry];
    }
  }

  // ---------------------------------------------------------------------------------------------
  // authn_request

  /** What `prepare_for_authenticate` returns: the response headers and maybe a status. */
  datatype HttpArgs = HttpArgs(headers: seq<(string, string)>, status: Option<Json>)

  /** The redirect `authn_request` answers with, and the status code it passes on, if any. */
  datatype Redirect = Redirect(location: string, code: Option<Json>)

  datatype RequestError =
    | BadRequest(description: string)  // aborts with status 400
    | ValueError(msg: string)

  const MissingIdMsg := "Missing required parameter: id"
  const NoAcsMsg := "No ACS configured for this host"
  const NoRedirectMsg := "pysaml2 gave no redirect urls"
  const MultipleRedirectsMsg := "pysaml2 gave multiple redirect urls"

  /** The relay state: the safe `next` target, else the configured post-login view, else "/". */
  function RelayState(safeNext: Option<string>, postLoginView: Option<string>): (r: string)
    ensures r != ""
    ensures Given(safeNext) ==> r == safeNext.value
    ensures !Given(safeNext) && Given(postLoginView) ==> r == postLoginView.value
    ensures !Given(safeNext) && !Given(postLoginView) ==> r == "/"
  {
    if Given(safeNext) then safeNext.value
    else if Given(postLoginView) then postLoginView.value
    else "/"
  }

  /** The first URL that starts with `hostUrl`. */
  function FirstWithPrefix(urls: seq<string>, hostUrl: string): (r: Option<string>)
    ensures r.None? <==> forall k | 0 <= k < |urls| :: !StartsWith(urls[k], hostUrl)
    ensures r.Some? ==> StartsWith(r.value, hostUrl) && r.value in urls
    decreases |urls|
  {
    if urls == [] then None
    else if StartsWith(urls[0], hostUrl) then Some(urls[0])
    else
      assert forall k | 0 <= k < |urls| - 1 :: urls[1..][k] == urls[k + 1];
      FirstWithPrefix(urls[1..], hostUrl)
  }

  /** No URL before the chosen one has the prefix. */
  lemma {:induction false} FirstWithPrefixIsFirst(urls: seq<string>, hostUrl: string, k: nat)
    requires k < |urls| && StartsWith(urls[k], hostUrl)
    requires forall j | 0 <= j < k :: !StartsWith(urls[j], hostUrl)
    ensures FirstWithPrefix(urls, hostUrl) == Some(urls[k])
    decreases k
  {
    if k > 0 {
      FirstWithPrefixIsFirst(urls[1..], hostUrl, k - 1);
    }
  }

  /** The search for the ACS URL of the request's host. */
  method FindAcsUrl(serviceUrls: seq<string>, hostUrl: string) returns (acsUrl: Option<string>)
    ensures acsUrl == FirstWithPrefix(serviceUrls, hostUrl)
  {
    for i := 0 to |serviceUrls|
      invariant forall j | 0 <= j < i :: !StartsWith(serviceUrls[j], hostUrl)
    {
      if StartsWith(serviceUrls[i], hostUrl) {
        FirstWithPrefixIsFirst(serviceUrls, hostUrl, i);
        return Some(serviceUrls[i]);
      }
    }
    return None;
  }

  /** The values of the `Location` headers, in order. */
  function LocationHeaders(headers: seq<(string, string)>): (r: seq<string>)
    ensures forall v :: v in r <==> ("Location", v) in headers
    ensures |r| <= |headers|
    ensures |headers| == 1 ==> r == if headers[0].0 == "Location" then [headers[0].1] else []
    decreases |headers|
  {
    if headers == [] then []
    else
      var init := headers[..|headers| - 1];
      var last := headers[|headers| - 1];
      assert forall h :: h in headers <==> h in init || h == last;
      LocationHeaders(init) + (if last.0 == "Location" then [last.1] else [])
  }

  /** Collecting distributes over `+`: with the one-header case above, this fixes the values, their
      number and their order. */
  lemma {:induction false} LocationHeadersAppend(a: seq<(string, string)>, b: seq<(string, string)>)
    ensures LocationHeaders(a + b) == LocationHeaders(a) + LocationHeaders(b)
    decreases |b|
  {
    if b == [] {
      assert a + b == a;
    } else {
      var b' := b[..|b| - 1];
      assert (a + b)[..|a + b| - 1] == a + b';
      LocationHeadersAppend(a, b');
    }
  }

  /** Headers of other names give no redirect value. */
  lemma NoLocationHeaders(headers: seq<(string, string)>)
    requires forall h | h in headers :: h.0 != "Location"
    ensures LocationHeaders(headers) == []
    decreases |headers|
  {
    if headers != [] {
      NoLocationHeaders(headers[..|headers| - 1]);
    }
  }

  /** A `Location` header among headers of other names is the one redirect, whatever their
      number. */
  lemma SingleLocationRedirects(before: seq<(string, string)>, url: string, after: seq<(string, string)>,
                                status: Option<Json>)
    requires forall h | h in before + after :: h.0 != "Location"
    ensures RedirectFor(HttpArgs(before + [("Location", url)] + after, status)).Ok?
    ensures RedirectFor(HttpArgs(before + [("Location", url)] + after, status)).value.location == url
  {
    LocationHeadersAppend(before, [("Location", url)]);
    LocationHeadersAppend(before + [("Location", url)], after);
    assert forall h | h in before :: h in before + after;
    assert forall h | h in after :: h in before + after;
    NoLocationHeaders(before);
    NoLocationHeaders(after);
  }

  /** The redirect built from what `prepare_for_authenticate` returned: exactly one `Location`
      header is expected, and a truthy status becomes the redirect's code. */
  function RedirectFor(httpArgs: HttpArgs): (r: Result<Redirect, RequestError>)
    ensures |LocationHeaders(httpArgs.headers)| == 0 ==> r == Err(ValueError(NoRedirectMsg))
    ensures |LocationHeaders(httpArgs.headers)| > 1 ==> r == Err(ValueError(MultipleRedirectsMsg))
    ensures |LocationHeaders(httpArgs.headers)| == 1 ==> r.Ok?
    ensures r.Ok? ==>
      && LocationHeaders(httpArgs.headers) == [r.value.location]
      && ("Location", r.value.location) in httpArgs.headers
      && (r.value.code.Some? <==> httpArgs.status.Some? && Truthy(httpArgs.status.value))
      && (r.value.code.Some? ==> r.value.code == httpArgs.status)
  {
    var redirectUrls := LocationHeaders(httpArgs.headers);
    if |redirectUrls| < 1 then Err(ValueError(NoRedirectMsg))
    else if |redirectUrls| > 1 then Err(ValueError(MultipleRedirectsMsg))
    else
      var code := if httpArgs.status.Some? && Truthy(httpArgs.status.value) then httpArgs.status else None;
      Ok(Redirect(redirectUrls[0], code))
  }

  /** Two `Location` headers are refused even when they agree. */
  lemma RepeatedLocationRefused(url: string)
    ensures RedirectFor(HttpArgs([("Location", url), ("Location", url)], None)) == Err(ValueError(MultipleRedirectsMsg))
  {
    var headers := [("Location", url), ("Location", url)];
    assert headers[..1] == [("Location", url)];
    assert [("Location", url)][..0] == [];
  }

  /** `authn_request`: the IdP named by `entityID`, the relay state, and the ACS URL of the
      request's host go to `prepare` (pysaml2's `prepare_for_authenticate`), whose answer becomes
      the redirect. */
  method AuthnRequest(
    entityId: Option<string>,
    safeNext: Option<string>,
    postLoginView: Option<string>,
    hostUrl: string,
    serviceUrls: seq<string>,
    prepare: (string, string, string) -> HttpArgs)
    returns (r: Result<Redirect, RequestError>)
    ensures entityId.None? ==> r == Err(BadRequest(MissingIdMsg))
    ensures entityId.Some? && FirstWithPrefix(serviceUrls, hostUrl).None? ==> r == Err(BadRequest(NoAcsMsg))
    ensures entityId.Some? && FirstWithPrefix(serviceUrls, hostUrl).Some? ==>
      r == RedirectFor(prepare(entityId.value, RelayState(safeNext, postLoginView), FirstWithPrefix(serviceUrls, hostUrl).value))
  {
    if entityId.None? {
      return Err(BadRequest(MissingIdMsg));
    }
    var relayState := RelayState(safeNext, postLoginView);
    var acsUrl := FindAcsUrl(serviceUrls, hostUrl);
    if acsUrl.None? {
      return Err(BadRequest(NoAcsMsg));
    }
    var httpArgs := prepare(entityId.value, relayState, acsUrl.value);
    r := RedirectFor(httpArgs);
  }
}
