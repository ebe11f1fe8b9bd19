/** The navigation bar's highlight: a link is active on its own page and on
    every page below it. */
module Navigation {
  import opened Core

  const Links := ["/dashboard", "/search", "/history"]

  /** `isActive(path)`: the current path is the link's path or starts with
      the link's path followed by `/`. */
  predicate IsActive(pathname: string, path: string) {
    pathname == path || path + "/" <= pathname
  }

  /** The first segment of a path after its leading `/`, and whether it is
      the whole path. */
  function Segment(pathname: string, path: string): (r: Option<string>)
    ensures r.Some? <==> IsActive(pathname, path)
    ensures r.Some? ==> path + r.value == pathname && (r.value == "" || r.value[0] == '/')
  {
    if pathname == path then Some("")
    else if path + "/" <= pathname then
      assert pathname == path + pathname[|path|..];
      Some(pathname[|path|..])
    else None
  }

  /** An active link's path is a prefix of the current path that ends at a
      segment boundary, so a longer sibling does not activate it. */
  lemma {:induction false} ActiveAtBoundary(pathname: string, path: string)
    requires IsActive(pathname, path)
    ensures path <= pathname
    ensures |pathname| == |path| || pathname[|path|] == '/'
  {
    var r := Segment(pathname, path);
    assert pathname == path + r.value;
  }

  /** `/searchx` does not activate the `/search` link; `/search/abc` does. */
  lemma {:induction false} SiblingIsNotActive()
    ensures !IsActive("/searchx", "/search")
    ensures IsActive("/search/abc", "/search")
  {
    assert ("/search" + "/")[7] == '/';
    assert "/searchx"[7] == 'x';
  }

  /** No path activates two of the bar's links. */
  lemma {:induction false} AtMostOneLinkActive(pathname: string, i: nat, j: nat)
    requires i < j < |Links|
    ensures !(IsActive(pathname, Links[i]) && IsActive(pathname, Links[j]))
  {
    FirstLetter(pathname, Links[i]);
    FirstLetter(pathname, Links[j]);
    assert Links[i][1] != Links[j][1];
  }

  /** An active link's first letter is the current path's. */
  lemma {:induction false} FirstLetter(pathname: string, path: string)
    requires |path| >= 2
    ensures IsActive(pathname, path) ==> |pathname| >= 2 && pathname[1] == path[1]
  {
    if IsActive(pathname, path) {
      ActiveAtBoundary(pathname, path);
    }
  }
}
