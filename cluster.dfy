/**
  What an export asks of the cluster, as data: the answers of the settings,
  mapping, alias and search lookups, and the thread's interrupt flag.
 */
module Cluster {
  import opened Wrappers

  /** A map as the cluster returns it: its entries in iteration order. */
  type Assoc<V> = seq<(string, V)>

  predicate HasKey<V>(a: Assoc<V>, k: string)
  {
    exists j :: 0 <= j < |a| && a[j].0 == k
  }

  /** A search hit: its index, type and id, its fetched fields (name and value text) and its source. */
  datatype Hit = Hit(index: string, typeName: string, id: string, fields: Assoc<string>, source: string)

  /** One search response: the scroll id it carries (if any) and its hits. */
  datatype Page = Page(scrollId: Option<string>, hits: seq<Hit>)

  /**
    The responses of one scan search: the initial response, and the responses the
    successive scroll calls return. A scroll call past the end of `pages` returns
    a page with no hits.
   */
  datatype ScrollRun = ScrollRun(first: Page, pages: seq<Result<Page>>)

  /** The parts of a SearchRequest the export sets: target indices ([] is all), types ([] is all), query. */
  datatype SearchRequest = SearchRequest(indices: seq<string>, types: set<string>, query: string)

  /**
    The cluster as the export sees it.
    - settings: index names asked for -> concrete index and its settings
    - mappings: concrete index and type filter (None is all types) -> type and its mapping
    - aliases: concrete index -> alias and its definition
    - search: the search request -> the responses of its scroll
    - interrupted(index, k): Thread.interrupted() is true at the k-th check of the scroll loop for index
   */
  datatype Client = Client(
    settings: set<string> -> Result<Assoc<string>>,
    mappings: (string, Option<set<string>>) -> Result<Assoc<string>>,
    aliases: string -> Result<Assoc<string>>,
    search: SearchRequest -> Result<ScrollRun>,
    interrupted: (string, nat) -> bool)
}
