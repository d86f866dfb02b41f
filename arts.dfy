/**
 * Art URL resolution for one game (resources/arts.py).
 *
 * Each art type the media center asks for (poster, banner, fanart, ...) is
 * assigned a URL template on Steam's image host and, optionally, a fallback art
 * type. When fallback is enabled and the type has a fallback, the formatted URL
 * is probed with a HEAD request; if the image is not there the resolver moves on
 * to the fallback type. The HEAD request (and the cache in front of it) is an
 * oracle here: a function from URL to the response it gets.
 */
module Arts {
  import opened Wrappers

  /** One piece of a URL template: literal text or one of the two named fields `{appid}` and `{img_icon_path}`. */
  datatype Piece = Lit(text: string) | AppId | IconPath

  type Template = seq<Piece>

  /** An entry of ARTS_ASSIGNMENTS: the URL template and the optional fallback art type. */
  datatype ArtAssignment = ArtAssignment(url: Template, fallback: Option<string>)

  type ArtTable = map<string, ArtAssignment>

  /** What the HEAD request gives back: a status code, or an IOError (timeout, connection error, ...). */
  datatype ProbeResponse = Status(code: int) | IoError

  /** The template as Python format-string text, with the fields written `{appid}` and `{img_icon_path}`. */
  function Render(t: Template): string {
    if t == [] then ""
    else
      (match t[0]
       case Lit(s) => s
       case AppId => "{appid}"
       case IconPath => "{img_icon_path}")
      + Render(t[1..])
  }

  /** `template.format(appid=appid, img_icon_path=iconPath)`. */
  function Format(t: Template, appid: string, iconPath: string): string {
    if t == [] then ""
    else
      (match t[0]
       case Lit(s) => s
       case AppId => appid
       case IconPath => iconPath)
      + Format(t[1..], appid, iconPath)
  }

  /**
   * Formatting a template with the field names themselves as values gives back
   * its format-string text: Format substitutes the fields and nothing else.
   */
  lemma {:induction false} FormatWithFieldNames(t: Template)
    ensures Format(t, "{appid}", "{img_icon_path}") == Render(t)
  {
    if t != [] {
      FormatWithFieldNames(t[1..]);
    }
  }

  const CdnApps := "http://cdn.akamai.steamstatic.com/steam/apps/"
  const CommunityImages := "https://steamcdn-a.akamaihd.net/steamcommunity/public/images/apps/"

  const PosterUrl: Template := [Lit(CdnApps), AppId, Lit("/library_600x900.jpg")]
  const HeroUrl: Template := [Lit(CdnApps), AppId, Lit("/library_hero.jpg")]
  const HeaderUrl: Template := [Lit(CdnApps), AppId, Lit("/header.jpg")]
  const GeneratedBgUrl: Template := [Lit(CdnApps), AppId, Lit("/page_bg_generated_v6b.jpg")]
  const IconUrl: Template := [Lit(CommunityImages), AppId, Lit("/"), IconPath, Lit(".jpg")]
  const ClearlogoUrl: Template := [Lit(CdnApps), AppId, Lit("/logo.png")]

  /** STEAM_ARTS_TYPES: the image URLs Steam serves, by kind. */
  const SteamArtsTypes: map<string, Template> := map[
    "poster" := PosterUrl,
    "hero" := HeroUrl,
    "header" := HeaderUrl,
    "generated_bg" := GeneratedBgUrl,
    "icon" := IconUrl,
    "clearlogo" := ClearlogoUrl
  ]

  /** ARTS_ASSIGNMENTS: the template and fallback of every art type the plugin asks for. */
  const ArtsAssignments: ArtTable := map[
    "poster" := ArtAssignment(SteamArtsTypes["poster"], Some("landscape")),
    "banner" := ArtAssignment(SteamArtsTypes["hero"], Some("landscape")),
    "fanart" := ArtAssignment(SteamArtsTypes["hero"], Some("fanart1")),
    "fanart1" := ArtAssignment(SteamArtsTypes["header"], None),
    "fanart2" := ArtAssignment(SteamArtsTypes["generated_bg"], None),
    "landscape" := ArtAssignment(SteamArtsTypes["header"], None),
    "thumb" := ArtAssignment(SteamArtsTypes["header"], None),
    "icon" := ArtAssignment(SteamArtsTypes["icon"], None),
    "clearlogo" := ArtAssignment(SteamArtsTypes["clearlogo"], None)
  ]

  /** Render of a template of the shape `<prefix>{appid}<suffix>`. */
  lemma {:induction false} RenderCdnTemplate(prefix: string, suffix: string)
    ensures Render([Lit(prefix), AppId, Lit(suffix)]) == prefix + "{appid}" + suffix
  {
    var t := [Lit(prefix), AppId, Lit(suffix)];
    assert Render(t[2..]) == suffix + Render([]);
    assert Render(t[1..]) == "{appid}" + Render(t[2..]);
  }

  /** The CDN templates above are, as format strings, the CDN URLs of STEAM_ARTS_TYPES. */
  lemma SteamArtsTypesText()
    ensures Render(PosterUrl) == CdnApps + "{appid}" + "/library_600x900.jpg"
    ensures Render(HeroUrl) == CdnApps + "{appid}" + "/library_hero.jpg"
    ensures Render(HeaderUrl) == CdnApps + "{appid}" + "/header.jpg"
    ensures Render(GeneratedBgUrl) == CdnApps + "{appid}" + "/page_bg_generated_v6b.jpg"
    ensures Render(ClearlogoUrl) == CdnApps + "{appid}" + "/logo.png"
  {
    RenderCdnTemplate(CdnApps, "/library_600x900.jpg");
    RenderCdnTemplate(CdnApps, "/library_hero.jpg");
    RenderCdnTemplate(CdnApps, "/header.jpg");
    RenderCdnTemplate(CdnApps, "/page_bg_generated_v6b.jpg");
    RenderCdnTemplate(CdnApps, "/logo.png");
  }

  /** The icon template is, as a format string, the icon URL of STEAM_ARTS_TYPES. */
  lemma IconUrlText()
    ensures Render(IconUrl) == CommunityImages + "{appid}" + "/" + "{img_icon_path}" + ".jpg"
  {
    var icon := IconUrl;
    assert Render(icon[4..]) == ".jpg" + Render([]);
    assert Render(icon[3..]) == "{img_icon_path}" + Render(icon[4..]);
    assert Render(icon[2..]) == "/" + Render(icon[3..]);
    assert Render(icon[1..]) == "{appid}" + Render(icon[2..]);
  }

  /** Formatting distributes over the pieces: each part of a template is formatted on its own. */
  lemma {:induction false} FormatConcat(t1: Template, t2: Template, appid: string, iconPath: string)
    ensures Format(t1 + t2, appid, iconPath) == Format(t1, appid, iconPath) + Format(t2, appid, iconPath)
  {
    if t1 == [] {
      assert t1 + t2 == t2;
    } else {
      assert (t1 + t2)[0] == t1[0];
      assert (t1 + t2)[1..] == t1[1..] + t2;
      FormatConcat(t1[1..], t2, appid, iconPath);
    }
  }

  /** A `<prefix>{appid}<suffix>` template puts the app id between its prefix and suffix. */
  lemma {:induction false} FormatCdnTemplate(prefix: string, suffix: string, appid: string, iconPath: string)
    ensures Format([Lit(prefix), AppId, Lit(suffix)], appid, iconPath) == prefix + appid + suffix
  {
    var t := [Lit(prefix), AppId, Lit(suffix)];
    assert Format(t[2..], appid, iconPath) == suffix + Format([], appid, iconPath);
    assert Format(t[1..], appid, iconPath) == appid + Format(t[2..], appid, iconPath);
  }

  /** For every app id and icon path, the URLs STEAM_ARTS_TYPES formats to. */
  lemma SteamArtsTypesUrls(appid: string, iconPath: string)
    ensures Format(SteamArtsTypes["poster"], appid, iconPath) == CdnApps + appid + "/library_600x900.jpg"
    ensures Format(SteamArtsTypes["hero"], appid, iconPath) == CdnApps + appid + "/library_hero.jpg"
    ensures Format(SteamArtsTypes["header"], appid, iconPath) == CdnApps + appid + "/header.jpg"
    ensures Format(SteamArtsTypes["generated_bg"], appid, iconPath) == CdnApps + appid + "/page_bg_generated_v6b.jpg"
    ensures Format(SteamArtsTypes["clearlogo"], appid, iconPath) == CdnApps + appid + "/logo.png"
    ensures Format(SteamArtsTypes["icon"], appid, iconPath) == CommunityImages + appid + "/" + iconPath + ".jpg"
  {
    FormatCdnTemplate(CdnApps, "/library_600x900.jpg", appid, iconPath);
    FormatCdnTemplate(CdnApps, "/library_hero.jpg", appid, iconPath);
    FormatCdnTemplate(CdnApps, "/header.jpg", appid, iconPath);
    FormatCdnTemplate(CdnApps, "/page_bg_generated_v6b.jpg", appid, iconPath);
    FormatCdnTemplate(CdnApps, "/logo.png", appid, iconPath);
    var icon := IconUrl;
    assert Format(icon[4..], appid, iconPath) == ".jpg" + Format([], appid, iconPath);
    assert Format(icon[3..], appid, iconPath) == iconPath + Format(icon[4..], appid, iconPath);
    assert Format(icon[2..], appid, iconPath) == "/" + Format(icon[3..], appid, iconPath);
    assert Format(icon[1..], appid, iconPath) == appid + Format(icon[2..], appid, iconPath);
  }

  /**
   * is_art_url_available: the art is unavailable exactly when the request
   * raises an IOError or answers with a status in [400, 600); any other status,
   * including one of 600 or more, counts as available.
   */
  function IsArtUrlAvailable(probe: string -> ProbeResponse, url: string): (available: bool)
    ensures !available <==> probe(url).IoError? || 400 <= probe(url).code < 600
  {
    match probe(url)
    case IoError => false
    case Status(code) => !(400 <= code < 600)
  }

  /**
   * `rank` witnesses that the fallback graph of `table` has no cycle: following
   * a fallback edge to a type that is in the table strictly lowers the rank.
   */
  predicate RankedBy(table: ArtTable, rank: map<string, nat>) {
    && table.Keys <= rank.Keys
    && forall t :: t in table && table[t].fallback.Some? && table[t].fallback.value in table ==>
         rank[table[t].fallback.value] < rank[t]
  }

  /** The outcome of a resolution: the URL accepted, if any, and the URLs probed, in order. */
  datatype Resolution = Resolution(url: Option<string>, probes: seq<string>)

  /**
   * What resolve_art_url computes, one art type at a time: an unknown type
   * gives no URL; a type is accepted without a probe when fallback is disabled
   * or it has no fallback; otherwise its URL is probed and, if unavailable, the
   * fallback type is resolved in its place.
   */
  function Resolve(table: ArtTable, rank: map<string, nat>, artType: string, appid: string, iconPath: string,
                   fallbackEnabled: bool, probe: string -> ProbeResponse): Resolution
    requires RankedBy(table, rank)
    decreases if artType in table then rank[artType] + 1 else 0
  {
    if artType !in table then Resolution(None, [])
    else
      var art := table[artType];
      var url := Format(art.url, appid, iconPath);
      if !fallbackEnabled || art.fallback.None? then Resolution(Some(url), [])
      else if IsArtUrlAvailable(probe, url) then Resolution(Some(url), [url])
      else
        var rest := Resolve(table, rank, art.fallback.value, appid, iconPath, fallbackEnabled, probe);
        Resolution(rest.url, [url] + rest.probes)
  }

  /**
   * resolve_art_url: walk the fallback chain of `artType`, as the source's
   * `while` loop does, and report the URL accepted and the URLs probed. The
   * table is a parameter so that termination is proved for any table whose
   * fallback graph `rank` shows acyclic; ArtsAssignments is such a table.
   */
  method ResolveArtUrl(table: ArtTable, ghost rank: map<string, nat>, artType: string, appid: string,
                       iconPath: string, fallbackEnabled: bool, probe: string -> ProbeResponse)
    returns (validArtUrl: Option<string>, probes: seq<string>)
    requires RankedBy(table, rank)
    ensures Resolution(validArtUrl, probes) == Resolve(table, rank, artType, appid, iconPath, fallbackEnabled, probe)
  {
    ghost var goal := Resolve(table, rank, artType, appid, iconPath, fallbackEnabled, probe);
    validArtUrl := None;
    probes := [];
    var requestedArt: Option<ArtAssignment> := if artType in table then Some(table[artType]) else None;
    ghost var current := artType;
    while validArtUrl.None? && requestedArt.Some?
      invariant requestedArt == if current in table then Some(table[current]) else None
      invariant validArtUrl.None? ==>
        var rest := Resolve(table, rank, current, appid, iconPath, fallbackEnabled, probe);
        goal == Resolution(rest.url, probes + rest.probes)
      invariant validArtUrl.Some? ==> goal == Resolution(validArtUrl, probes)
      decreases if validArtUrl.None? && requestedArt.Some? then rank[current] + 1 else 0
    {
      var artUrl := Format(requestedArt.value.url, appid, iconPath);
      var fallbackArtType := requestedArt.value.fallback;
      if !fallbackEnabled || fallbackArtType.None? {
        validArtUrl := Some(artUrl);
      } else {
        probes := probes + [artUrl];
        if IsArtUrlAvailable(probe, artUrl) {
          validArtUrl := Some(artUrl);
        } else {
          var name := fallbackArtType.value;
          requestedArt := if name in table then Some(table[name]) else None;
          current := name;
        }
      }
    }
  }
}
