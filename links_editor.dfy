/** src/components/ui/LinksEditor.tsx: adding and removing link attachments. */
module LinksEditor {
  import opened Wrappers
  import opened Text
  import opened Domain
  import opened OpenUrl
  import opened JsonValues

  /** The protocol fix-up of `handleAddLink`: a URL without `http://` or
      `https://` gets `https://` in front. */
  function WithScheme(url: string): (r: string)
    ensures HttpScheme(r)
    ensures HttpScheme(url) ==> r == url
    ensures !HttpScheme(url) ==> r == "https://" + url
  {
    if HttpScheme(url) then url
    else
      assert StartsWith("https://" + url, "https://");
      "https://" + url
  }

  /** Fixing up a fixed-up URL changes nothing. */
  lemma WithSchemeIdempotent(url: string)
    ensures WithScheme(WithScheme(url)) == WithScheme(url)
  {
  }

  /** `newTitle.trim() || undefined` */
  function LinkTitle(newTitle: string): (r: Option<string>)
    ensures r.None? <==> Trim(newTitle) == ""
    ensures r.Some? ==> r.value == Trim(newTitle)
  {
    if Trim(newTitle) == "" then None else Some(Trim(newTitle))
  }

  /** `handleAddLink()`: the list passed to `onChange`, or `None` when the URL
      is blank and `onChange` is not called. */
  function AddLink(links: seq<Link>, newUrl: string, newTitle: string): (r: Option<seq<Link>>)
    ensures r.None? <==> forall i :: 0 <= i < |newUrl| ==> IsSpace(newUrl[i])
    ensures r.Some? ==> |r.value| == |links| + 1 && r.value[..|links|] == links
    ensures r.Some? ==> r.value[|links|] == Link(WithScheme(Trim(newUrl)), LinkTitle(newTitle))
  {
    TrimEmpty(newUrl);
    if Trim(newUrl) == "" then None
    else Some(links + [Link(WithScheme(Trim(newUrl)), LinkTitle(newTitle))])
  }

  /** Every link the editor adds has a non-empty URL with an accepted scheme. */
  lemma AddedLinkUrl(links: seq<Link>, newUrl: string, newTitle: string)
    requires AddLink(links, newUrl, newTitle).Some?
    ensures var l := AddLink(links, newUrl, newTitle).value[|links|];
      l.url != "" && HttpScheme(l.url)
  {
  }

  /** A body holding a non-empty URL with an accepted scheme is opened. */
  lemma UrlBodyOpens(url: string)
    requires url != "" && HttpScheme(url)
    ensures Handle(Some(JObj(map["url" := JStr(url)])), EscapeQuotes).Opened?
  {
    var body := JObj(map["url" := JStr(url)]);
    assert Prop(body, "url") == Some(JStr(url));
    assert UrlOf(body) == Some(url);
  }

  /** Every link the editor adds passes the checks of the open-url route. */
  lemma AddedLinkOpens(links: seq<Link>, newUrl: string, newTitle: string)
    requires AddLink(links, newUrl, newTitle).Some?
    ensures var l := AddLink(links, newUrl, newTitle).value[|links|];
      Handle(Some(JObj(map["url" := JStr(l.url)])), EscapeQuotes).Opened?
  {
    AddedLinkUrl(links, newUrl, newTitle);
    UrlBodyOpens(AddLink(links, newUrl, newTitle).value[|links|].url);
  }

  /** `links.filter((_, i) => i !== index)` */
  function RemoveLink(links: seq<Link>, index: int): (r: seq<Link>)
    ensures !(0 <= index < |links|) ==> r == links
    ensures 0 <= index < |links| ==> r == links[..index] + links[index + 1..]
    decreases |links|
  {
    if links == [] then []
    else if index == 0 then links[1..]
    else
      var rest := RemoveLink(links[1..], index - 1);
      assert 0 <= index < |links| ==> links[1..][..index - 1] == links[1..index];
      assert 0 <= index < |links| ==> links[1..][index..] == links[index + 1..];
      [links[0]] + rest
  }

  /** Removing keeps every other link, in order, and drops exactly one when the index is valid. */
  lemma RemoveLinkKeepsOthers(links: seq<Link>, index: int)
    requires 0 <= index < |links|
    ensures |RemoveLink(links, index)| == |links| - 1
    ensures forall i :: 0 <= i < |links| - 1 ==>
      RemoveLink(links, index)[i] == if i < index then links[i] else links[i + 1]
  {
  }

  /** Removing the link just added gives back the original list. */
  lemma RemoveAddedLink(links: seq<Link>, newUrl: string, newTitle: string)
    requires AddLink(links, newUrl, newTitle).Some?
    ensures RemoveLink(AddLink(links, newUrl, newTitle).value, |links|) == links
  {
    var r := AddLink(links, newUrl, newTitle).value;
    assert r[..|links|] == links;
  }
}
