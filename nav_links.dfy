/** Clicks on the navigation links. A link whose href starts with '#' is an
    in-page link: the page cancels the browser's navigation, looks up the
    element whose id is the href without its '#', and, if it exists,
    scrolls to it and pushes the fragment "#" + id onto the history. */
module NavLinks {

  datatype Option<T> = None | Some(value: T)

  /** The attribute value is present, non-empty and starts with '#'
      (`href && href.startsWith("#")`). */
  predicate Intercepted(href: Option<string>)
  {
    href.Some? && |href.value| > 0 && href.value[0] == '#'
  }

  /** `href.slice(1)`: the href without its first character. */
  function TargetId(href: string): (id: string)
    requires |href| > 0
    ensures |id| == |href| - 1
    ensures forall i :: 0 <= i < |id| ==> id[i] == href[i + 1]
  {
    href[1..]
  }

  /** The fragment written to the history for an id. */
  function Fragment(id: string): (f: string)
    ensures |f| == |id| + 1 && f[0] == '#'
    ensures forall i :: 0 <= i < |id| ==> f[i + 1] == id[i]
  {
    "#" + id
  }

  /** document.getElementById: an element with that id exists. No element
      has the empty id, so the empty id never finds one. */
  predicate HasElement(ids: set<string>, id: string)
  {
    id != "" && id in ids
  }

  /** What a click does: the browser follows the link, or the page cancels
      that and, when the target exists, scrolls to it and pushes a fragment. */
  datatype ClickEffect =
    | FollowLink
    | Prevented(scrolledTo: Option<string>, pushed: Option<string>)

  /** The click handler, given the link's href attribute (None when absent)
      and the ids of the elements in the document. */
  function OnClick(href: Option<string>, ids: set<string>): (e: ClickEffect)
    // only an href starting with '#' is intercepted
    ensures e.Prevented? <==> Intercepted(href)
    // the page scrolls exactly when the href minus its '#' names an element
    ensures e.Prevented? ==>
              (e.scrolledTo.Some? <==> HasElement(ids, href.value[1..])) &&
              (e.scrolledTo.Some? ==> e.scrolledTo.value == href.value[1..])
    // it pushes a fragment exactly when it scrolls, and that fragment is the href itself
    ensures e.Prevented? ==>
              e.pushed == (if e.scrolledTo.Some? then href else None)
  {
    if Intercepted(href) then
      var id := TargetId(href.value);
      if HasElement(ids, id) then
        FragmentRoundTrip(href.value);
        Prevented(Some(id), Some(Fragment(id)))
      else
        Prevented(None, None)
    else
      FollowLink
  }

  /** Cutting the '#' off an intercepted href and putting it back gives the
      href again. */
  lemma FragmentRoundTrip(href: string)
    requires Intercepted(Some(href))
    ensures Fragment(TargetId(href)) == href
  {
    assert Fragment(TargetId(href)) == [href[0]] + href[1..];
  }

  /** The other direction: the fragment of an id is intercepted, and cutting
      its '#' off gives the id back. */
  lemma IdRoundTrip(id: string)
    ensures Intercepted(Some(Fragment(id)))
    ensures TargetId(Fragment(id)) == id
  {
  }
}
