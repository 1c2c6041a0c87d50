/** The crawled-link graph the reports read. The crawler that fills it is
    not part of this model: every report receives it complete and only
    reads it. A link refers to its children and parents by URL, and the
    graph maps each URL to the one link recorded for it, so a page reached
    from several places is one shared node. */
module Links {
  import opened Wrappers

  type Url = string

  /** One crawled resource, with the attributes the report code reads. */
  datatype Link = Link(
    url: Url,
    title: Option<string>,
    author: Option<string>,
    status: Option<string>,
    mimetype: Option<string>,
    size: Option<int>,
    mtime: Option<int>,
    isinternal: bool,
    isyanked: bool,
    redirectdepth: int,
    children: seq<Url>,          // outbound references, in the order found
    parents: seq<Url>,           // pages that refer to this one
    linkproblems: seq<string>,   // diagnostics, in the order recorded
    html: bool,                  // whether the resource is an HTML page
    age: Option<int>)            // days since last modification, when known

  /** `linkMap`: the registry of links, keyed by URL. */
  type Graph = map<Url, Link>

  /** Every child URL of every link is registered, so the lookups
      `linkMap[i]` the site map makes on children always succeed. */
  predicate ChildrenRegistered(g: Graph)
  {
    forall u, c :: u in g && c in g[u].children ==> c in g
  }
}
