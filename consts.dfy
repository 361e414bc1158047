/** The site's deployment base and the navigation links prefixed with it. */
module Consts {
  import opened Wrappers

  /** JavaScript truthiness of an environment variable: set and non-empty. */
  predicate Truthy(v: Option<string>) {
    v.Some? && v.value != ""
  }

  /** `isGithub`: not on Vercel, and a production build. */
  function IsGithub(vercel: Option<string>, nodeEnv: Option<string>): (r: bool)
    ensures r <==> !Truthy(vercel) && nodeEnv == Some("production")
  {
    !(Truthy(vercel) || nodeEnv != Some("production"))
  }

  /** `SITE_BASE`. */
  function SiteBase(vercel: Option<string>, nodeEnv: Option<string>): string {
    if IsGithub(vercel, nodeEnv) then "/blog" else ""
  }

  datatype Link = Link(name: string, url: string)

  /** The links before prefixing. */
  const WebsiteLinkSources: seq<Link> := [Link("Home", "/"), Link("Posts", "/posts"), Link("About", "/about")]

  /** The callback of the `.map`: the root url is dropped when there is a base, then the base is prepended. */
  function PrefixLink(base: string, l: Link): Link {
    var url := if l.url == "/" && base != "" then "" else l.url;
    Link(l.name, base + url)
  }

  function PrefixLinks(base: string, links: seq<Link>): (r: seq<Link>)
    ensures |r| == |links|
    ensures forall i :: 0 <= i < |links| ==> r[i] == PrefixLink(base, links[i])
  {
    if links == [] then [] else [PrefixLink(base, links[0])] + PrefixLinks(base, links[1..])
  }

  /** `WebsiteLinks`. */
  function WebsiteLinks(vercel: Option<string>, nodeEnv: Option<string>): seq<Link> {
    PrefixLinks(SiteBase(vercel, nodeEnv), WebsiteLinkSources)
  }

  /** Names and order are kept; every url starts with the base, and any url but the root is the base followed by it. */
  lemma PrefixLinksShape(base: string, links: seq<Link>)
    ensures var r := PrefixLinks(base, links);
      |r| == |links|
      && (forall i :: 0 <= i < |r| ==> r[i].name == links[i].name && |base| <= |r[i].url| && r[i].url[..|base|] == base)
      && (forall i :: 0 <= i < |r| ==> links[i].url != "/" ==> r[i].url == base + links[i].url)
      && (forall i :: 0 <= i < |r| ==> links[i].url == "/" && base != "" ==> r[i].url == base)
  {
    var r := PrefixLinks(base, links);
    forall i | 0 <= i < |r| ensures |base| <= |r[i].url| && r[i].url[..|base|] == base {
      assert r[i].url == base + PrefixLink(base, links[i]).url[|base|..];
    }
  }

  /** With an empty base, the links are unchanged. */
  lemma EmptyBaseIsIdentity(links: seq<Link>)
    ensures PrefixLinks("", links) == links
  {
    var r := PrefixLinks("", links);
    forall i | 0 <= i < |links| ensures r[i] == links[i] {
      assert "" + links[i].url == links[i].url;
    }
  }

  /** The GitHub Pages build: Home is exactly `/blog`, with no trailing slash. */
  lemma GithubLinks()
    ensures WebsiteLinks(None, Some("production")) ==
      [Link("Home", "/blog"), Link("Posts", "/blog/posts"), Link("About", "/blog/about")]
  {
    var r := WebsiteLinks(None, Some("production"));
    assert SiteBase(None, Some("production")) == "/blog";
    assert r[0] == PrefixLink("/blog", Link("Home", "/")) == Link("Home", "/blog" + "");
    assert r[1] == PrefixLink("/blog", Link("Posts", "/posts")) == Link("Posts", "/blog" + "/posts");
    assert r[2] == PrefixLink("/blog", Link("About", "/about")) == Link("About", "/blog" + "/about");
    assert "/blog" + "" == "/blog" && "/blog" + "/posts" == "/blog/posts" && "/blog" + "/about" == "/blog/about";
  }

  /** Every other build (Vercel, development) keeps the root-relative urls. */
  lemma OtherBuildLinks(vercel: Option<string>, nodeEnv: Option<string>)
    requires !IsGithub(vercel, nodeEnv)
    ensures WebsiteLinks(vercel, nodeEnv) == WebsiteLinkSources
  {
    EmptyBaseIsIdentity(WebsiteLinkSources);
  }
}
