/** What internal/nntp/client.go knows about servers when it asks them about an article. */
module Providers {

  /** backbone is normalised once per client; "" means none is configured. */
  datatype Provider = Provider(host: string, backbone: string, backup: bool)

  /** providerExclusions: whom not to ask about this article again. */
  datatype Exclusions = Exclusions(hosts: set<string>, backbones: set<string>) {
    predicate Excludes(p: Provider) {
      p.host in hosts || ExcludesBackbone(p)
    }

    predicate ExcludesBackbone(p: Provider) {
      p.backbone != "" && p.backbone in backbones
    }

    function ExcludeHost(host: string): Exclusions {
      if host == "" then this else this.(hosts := hosts + {host})
    }

    /** excludeForArticleNotFound: the whole backbone when there is one, else the host. */
    function ExcludeForArticle(p: Provider): Exclusions {
      if p.backbone != "" then this.(backbones := backbones + {p.backbone}) else ExcludeHost(p.host)
    }
  }

  /** One provider's word on an article holds for the other: same host, or same configured backbone. */
  predicate Covers(p: Provider, q: Provider) {
    p.host == q.host || (p.backbone != "" && p.backbone == q.backbone)
  }
}
