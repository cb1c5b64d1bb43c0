/** The two halves of a URL path as the application builds and reads them:
    the pathname before the first `?`, and the query string after it. */
module Urls {
  import opened Seqs

  function IsQueryMark(c: char): bool
  {
    c == '?'
  }

  /** The pathname: everything before the first `?`, or the whole URL when
      there is none. */
  function PathOf(url: string): (r: string)
    ensures |r| <= |url| && r == url[..|r|]
    ensures '?' !in r
    ensures '?' !in url ==> r == url
  {
    match FirstIndex(url, IsQueryMark)
    case None => url
    case Some(i) => url[..i]
  }

  /** The query string: everything after the first `?`, if there is one. */
  function QueryOf(url: string): (r: Option<string>)
    ensures r.None? <==> '?' !in url
  {
    match FirstIndex(url, IsQueryMark)
    case None => None
    case Some(i) => Some(url[i + 1..])
  }

  /** Pathname and query string recompose the URL. */
  lemma PathAndQueryRecompose(url: string)
    requires QueryOf(url).Some?
    ensures url == PathOf(url) + "?" + QueryOf(url).value
  {
    var i := FirstIndex(url, IsQueryMark).value;
    assert url == url[..i] + [url[i]] + url[i + 1..];
  }

  /** A URL built from a `?`-free path and any query string splits back into
      the two. */
  lemma BuildThenSplit(path: string, query: string)
    requires '?' !in path
    ensures PathOf(path + "?" + query) == path
    ensures QueryOf(path + "?" + query) == Some(query)
  {
    var url := path + "?" + query;
    forall j | 0 <= j < |path|
      ensures !IsQueryMark(url[j])
    {
      assert url[j] == path[j];
    }
    assert IsQueryMark(url[|path|]);
    assert FirstIndex(url, IsQueryMark) == Some(|path|);
    assert url[|path| + 1..] == query;
  }
}
