/** Finding the feeds of a website, as the two earlier main view models do:
    a company-name service suggests domains, the pages at each domain's base
    addresses are scanned for feed links, and failing that a few usual feed
    paths are probed. The pages, the probes and the suggestion service appear
    as parameters giving their answers. */
module FeedDiscovery {
  import opened Wrappers
  import opened Strings
  import opened Lists

  /** A feed offered to the user. */
  datatype DiscoveredFeed = DiscoveredFeed(title: string, url: string, iconUrl: Option<string>, siteName: Option<string>)

  /** A company the suggestion service proposes: its domain, name and logo. */
  datatype Suggestion = Suggestion(domain: string, name: Option<string>, logo: Option<string>)

  /** A feed link read off a page: its title and absolute address. */
  datatype Link = Link(title: string, href: string)

  /** The query as searched: trimmed and lower-cased. */
  function CleanQuery(query: string): string {
    Lower(Trim(query))
  }

  /** The suggestion service is asked unless the query both contains "."
      and starts with "http". */
  predicate ConsultsSuggestions(cleanQuery: string) {
    !Contains(cleanQuery, ".") || !StartsWith(cleanQuery, "http")
  }

  function SuggestedDomains(ss: seq<Suggestion>): (ds: seq<string>)
    ensures |ds| == |ss| && forall i :: 0 <= i < |ss| ==> ds[i] == ss[i].domain
  {
    seq(|ss|, i requires 0 <= i < |ss| => ss[i].domain)
  }

  /** The first value given: what a loop keeps that only assigns a variable
      while it is still null. */
  function FirstSome<T>(xs: seq<Option<T>>): (r: Option<T>)
    ensures r.None? <==> forall i :: 0 <= i < |xs| ==> xs[i].None?
    ensures r.Some? ==> exists i :: 0 <= i < |xs| && xs[i] == r && forall j :: 0 <= j < i ==> xs[j].None?
    decreases |xs|
  {
    if |xs| == 0 then None
    else if xs[0].Some? then xs[0]
    else
      var r := FirstSome(xs[1..]);
      assert forall i :: 1 <= i < |xs| ==> xs[i] == xs[1..][i - 1];
      assert r.Some? ==> exists i :: 0 <= i < |xs| && xs[i] == r && forall j :: 0 <= j < i ==> xs[j].None? by {
        if r.Some? {
          var i :| 0 <= i < |xs[1..]| && xs[1..][i] == r && forall j :: 0 <= j < i ==> xs[1..][j].None?;
          assert xs[i + 1] == r;
          assert forall j :: 0 <= j < i + 1 ==> xs[j].None? by {
            forall j | 0 <= j < i + 1 ensures xs[j].None? {
              if j > 0 { assert xs[j] == xs[1..][j - 1]; }
            }
          }
        }
      }
      r
  }

  /** The company name shown with the feeds: the first name suggested, when
      the service was asked. */
  function SiteName(cleanQuery: string, ss: seq<Suggestion>): Option<string> {
    if ConsultsSuggestions(cleanQuery) then FirstSome(seq(|ss|, i requires 0 <= i < |ss| => ss[i].name)) else None
  }

  /** The icon shown with the feeds: the first logo suggested, when the
      service was asked. */
  function SiteIcon(cleanQuery: string, ss: seq<Suggestion>): Option<string> {
    if ConsultsSuggestions(cleanQuery) then FirstSome(seq(|ss|, i requires 0 <= i < |ss| => ss[i].logo)) else None
  }

  /** The addresses tried for a domain: the domain itself when it starts
      with "http", else https, https with "www." and http, in that order. */
  function BaseUrls(domain: string): (us: seq<string>)
    ensures StartsWith(domain, "http") ==> us == [domain]
    ensures !StartsWith(domain, "http") ==> us == ["https://" + domain, "https://www." + domain, "http://" + domain]
  {
    if StartsWith(domain, "http") then [domain]
    else ["https://" + domain, "https://www." + domain, "http://" + domain]
  }

  /** The feeds for the links found on one page. */
  function Feeds(links: seq<Link>, icon: Option<string>, name: Option<string>): (fs: seq<DiscoveredFeed>)
    ensures |fs| == |links|
    ensures forall i :: 0 <= i < |links| ==> fs[i] == DiscoveredFeed(links[i].title, links[i].href, icon, name)
  {
    seq(|links|, i requires 0 <= i < |links| => DiscoveredFeed(links[i].title, links[i].href, icon, name))
  }

  /** The feeds of the first base address whose page lists any. */
  function PageFeeds(domain: string, page: string -> seq<Link>, icon: Option<string>, name: Option<string>): seq<DiscoveredFeed> {
    FirstNonEmpty(BaseUrls(domain), (u: string) => Feeds(page(u), icon, name))
  }

  /** The inner loop over the base addresses, which stops at the first page
      that lists a feed. */
  method ScanPages(domain: string, page: string -> seq<Link>, icon: Option<string>, name: Option<string>)
    returns (results: seq<DiscoveredFeed>)
    ensures results == PageFeeds(domain, page, icon, name)
  {
    var urls := BaseUrls(domain);
    var f := (u: string) => Feeds(page(u), icon, name);
    results := [];
    var i := 0;
    while i < |urls| && results == []
      invariant 0 <= i <= |urls|
      invariant results == [] ==> FirstNonEmpty(urls[i..], f) == FirstNonEmpty(urls, f)
      invariant results != [] ==> results == FirstNonEmpty(urls, f)
    {
      assert urls[i..][1..] == urls[i + 1..];
      results := Feeds(page(urls[i]), icon, name);
      i := i + 1;
    }
  }

  /** `removePrefix`. */
  function RemovePrefix(s: string, p: string): (r: string)
    ensures StartsWith(s, p) ==> p + r == s
    ensures !StartsWith(s, p) ==> r == s
  {
    if StartsWith(s, p) then s[|p|..] else s
  }

  /** The host a domain names: the host of the address when it starts with
      "http" (`host` gives it, or the text itself when it is no address),
      else the domain. */
  function HostOf(domain: string, host: string -> string): string {
    if StartsWith(domain, "http") then host(domain) else domain
  }

  /** The probe loop over `paths` at `https://<host>`: one feed, titled
      `titlePrefix` followed by the path, per address whose content type is XML. */
  function Probes(host: string, paths: seq<string>, isXml: string -> bool, titlePrefix: string,
                  icon: Option<string>, name: Option<string>): (fs: seq<DiscoveredFeed>)
    ensures forall f :: f in fs <==>
      (exists p :: p in paths && isXml("https://" + host + p) && f == DiscoveredFeed(titlePrefix + p, "https://" + host + p, icon, name))
    decreases |paths|
  {
    if |paths| == 0 then []
    else
      var init, p := paths[..|paths| - 1], paths[|paths| - 1];
      assert paths == init + [p];
      var url := "https://" + host + p;
      Probes(host, init, isXml, titlePrefix, icon, name) + (if isXml(url) then [DiscoveredFeed(titlePrefix + p, url, icon, name)] else [])
  }

  method ProbePaths(host: string, paths: seq<string>, isXml: string -> bool, titlePrefix: string,
                    icon: Option<string>, name: Option<string>) returns (results: seq<DiscoveredFeed>)
    ensures results == Probes(host, paths, isXml, titlePrefix, icon, name)
  {
    results := [];
    var j := 0;
    while j < |paths|
      invariant 0 <= j <= |paths|
      invariant results == Probes(host, paths[..j], isXml, titlePrefix, icon, name)
    {
      assert paths[..j + 1][..j] == paths[..j];
      var url := "https://" + host + paths[j];
      if isXml(url) {
        results := results + [DiscoveredFeed(titlePrefix + paths[j], url, icon, name)];
      }
      j := j + 1;
    }
    assert paths[..j] == paths;
  }
}
