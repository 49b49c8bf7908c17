/**
 * The affiliate-link editor (components/admin/AffiliateLinksSection.tsx, and
 * the same handlers written inline in app/admin/books/new/page-Ricardo-PC-Test.tsx).
 * The links are mutable objects: `updateLink` and `clearLink` copy the
 * array shallowly and then assign the URL of the shared element object, so
 * the caller's objects change in place; `removeLink` and `addCustomLink`
 * build new arrays.
 */
module AffiliateLinks {
  import opened BookEntry

  /** One `{ name, url }` object. */
  class AffiliateLink {
    var name: string
    var url: string

    constructor (name: string, url: string)
      ensures this.name == name && this.url == url
    {
      this.name := name;
      this.url := url;
    }
  }

  /** The names and URLs a list of link objects currently holds. */
  function Values(links: seq<AffiliateLink>): (vs: seq<LinkValue>)
    reads links
    ensures |vs| == |links|
    ensures forall k :: 0 <= k < |links| ==> vs[k] == LinkValue(links[k].name, links[k].url)
  {
    if links == [] then [] else [LinkValue(links[0].name, links[0].url)] + Values(links[1..])
  }

  /** No object appears twice in the list. */
  predicate Distinct(links: seq<AffiliateLink>) {
    forall i, j :: 0 <= i < j < |links| ==> links[i] != links[j]
  }

  /** `list.filter((_, i) => i !== index)`, walking the list position by position. */
  function WithoutIndex<T>(s: seq<T>, index: int): (r: seq<T>)
    ensures 0 <= index < |s| ==> r == s[..index] + s[index + 1..]
    ensures !(0 <= index < |s|) ==> r == s
  {
    if s == [] then []
    else (if index == 0 then [] else [s[0]]) + WithoutIndex(s[1..], index - 1)
  }

  /** Removing row `index` keeps every other row, in order, and only that row goes. */
  lemma WithoutIndexDropsOne<T>(s: seq<T>, index: int)
    requires 0 <= index < |s|
    ensures |WithoutIndex(s, index)| == |s| - 1
    ensures multiset(WithoutIndex(s, index)) + multiset{s[index]} == multiset(s)
    ensures forall k :: 0 <= k < |s| - 1 ==> WithoutIndex(s, index)[k] == s[if k < index then k else k + 1]
  {
    assert s == s[..index] + [s[index]] + s[index + 1..];
  }

  /** The button at the end of a row. */
  datatype RowButton = ClearButton | NoButton | RemoveButton

  /** Rows below the count of default stores offer to clear a non-empty
      URL; the other rows offer to remove the row. */
  function RowButtonFor(index: nat, url: string, defaultLinksCount: nat): (b: RowButton)
    ensures b == RemoveButton <==> index >= defaultLinksCount
    ensures b == ClearButton <==> index < defaultLinksCount && url != ""
  {
    if index < defaultLinksCount then (if url != "" then ClearButton else NoButton)
    else RemoveButton
  }

  /** A default row can never be removed, and a custom row can never be merely cleared. */
  lemma DefaultRowsStay(index: nat, url: string, defaultLinksCount: nat)
    ensures index < defaultLinksCount ==> RowButtonFor(index, url, defaultLinksCount) != RemoveButton
    ensures index >= defaultLinksCount ==> RowButtonFor(index, url, defaultLinksCount) != ClearButton
  {
  }

  /**
   * The editor: the caller's `links` state, which `onChange` replaces, and
   * the component's own two inputs for a custom link.
   */
  class LinksEditor {
    var links: seq<AffiliateLink>
    var customLinkName: string
    var customLinkUrl: string
    const defaultLinksCount: nat

    /** Mounting with the caller's initial list; the inputs start empty. */
    constructor (initial: seq<AffiliateLink>, defaultLinksCount: nat)
      ensures links == initial && this.defaultLinksCount == defaultLinksCount
      ensures customLinkName == "" && customLinkUrl == ""
    {
      links := initial;
      this.defaultLinksCount := defaultLinksCount;
      customLinkName := "";
      customLinkUrl := "";
    }

    /** updateLink(index, url): the shallow copy holds the same objects, and
        the URL is assigned on the shared object itself. Every list that
        holds that object sees the new URL; no name changes. */
    method UpdateLink(index: nat, url: string)
      requires index < |links|
      modifies this, links[index]
      ensures links == old(links)
      ensures customLinkName == old(customLinkName) && customLinkUrl == old(customLinkUrl)
      ensures links[index].url == url && links[index].name == old(links[index].name)
      ensures forall k :: 0 <= k < |links| && links[k] != links[index] ==> links[k].url == old(links[k].url)
      ensures Distinct(links) ==>
        Values(links) == old(Values(links))[index := LinkValue(old(links[index].name), url)]
    {
      var newLinks := links;
      newLinks[index].url := url;
      links := newLinks;
      if Distinct(links) {
        assert forall k :: 0 <= k < |links| ==>
          Values(links)[k] == old(Values(links))[index := LinkValue(old(links[index].name), url)][k];
      }
    }

    /** clearLink(index): the same in-place assignment, with the empty URL. */
    method ClearLink(index: nat)
      requires index < |links|
      modifies this, links[index]
      ensures links == old(links)
      ensures customLinkName == old(customLinkName) && customLinkUrl == old(customLinkUrl)
      ensures links[index].url == "" && links[index].name == old(links[index].name)
      ensures forall k :: 0 <= k < |links| && links[k] != links[index] ==> links[k].url == old(links[k].url)
      ensures Distinct(links) ==>
        Values(links) == old(Values(links))[index := LinkValue(old(links[index].name), "")]
    {
      UpdateLink(index, "");
    }

    /** The evident intent of updateLink: a new object for the edited row,
        so that no object the caller handed in is changed. */
    method UpdateLinkCopy(index: nat, url: string)
      requires index < |links|
      modifies this
      ensures |links| == |old(links)| && fresh(links[index])
      ensures forall k :: 0 <= k < |links| && k != index ==> links[k] == old(links[k])
      ensures Values(links) == old(Values(links))[index := LinkValue(old(links[index].name), url)]
      ensures unchanged(old(links))
      ensures customLinkName == old(customLinkName) && customLinkUrl == old(customLinkUrl)
    {
      var edited := new AffiliateLink(links[index].name, url);
      links := links[index := edited];
      assert forall k :: 0 <= k < |links| ==>
        Values(links)[k] == old(Values(links))[index := LinkValue(old(links[index].name), url)][k];
    }

    /** removeLink(index): every row but `index`, in order. */
    method RemoveLink(index: int)
      modifies this
      ensures links == WithoutIndex(old(links), index)
      ensures customLinkName == old(customLinkName) && customLinkUrl == old(customLinkUrl)
    {
      links := WithoutIndex(links, index);
    }

    /** addCustomLink(): with both inputs non-empty, a new `{name, url}` is
        appended and both inputs are reset; otherwise nothing changes. */
    method AddCustomLink()
      modifies this
      ensures old(customLinkName) != "" && old(customLinkUrl) != "" ==>
        && |links| == |old(links)| + 1 && links[..|old(links)|] == old(links)
        && fresh(links[|old(links)|])
        && links[|old(links)|].name == old(customLinkName) && links[|old(links)|].url == old(customLinkUrl)
        && customLinkName == "" && customLinkUrl == ""
      ensures old(customLinkName) == "" || old(customLinkUrl) == "" ==>
        links == old(links) && customLinkName == old(customLinkName) && customLinkUrl == old(customLinkUrl)
    {
      if customLinkName != "" && customLinkUrl != "" {
        var added := new AffiliateLink(customLinkName, customLinkUrl);
        links := links + [added];
        customLinkName := "";
        customLinkUrl := "";
      }
    }
  }

  /** app/admin/books/new/page.tsx's module-level DEFAULT_AFFILIATE_LINKS:
      three objects created once, when the module is loaded. */
  method LoadDefaultLinks() returns (defaults: seq<AffiliateLink>)
    ensures Values(defaults) == [LinkValue("Amazon", ""), LinkValue("Casa del Libro", ""), LinkValue("Buscalibre", "")]
    ensures Distinct(defaults)
    ensures forall l :: l in defaults ==> fresh(l)
  {
    var amazon := new AffiliateLink("Amazon", "");
    var casa := new AffiliateLink("Casa del Libro", "");
    var busca := new AffiliateLink("Buscalibre", "");
    defaults := [amazon, casa, busca];
  }

  /** As written: the new-book form starts from the shared default objects,
      so a URL typed on one visit is still filled in when the form is
      mounted again for the next book. */
  method RemountKeepsTypedUrl() returns (shown: LinkValue)
    ensures shown == LinkValue("Amazon", "https://www.amazon.es/dp/1")
  {
    var defaults := LoadDefaultLinks();
    var first := new LinksEditor(defaults, 3);
    assert defaults[0] in defaults;
    first.UpdateLink(0, "https://www.amazon.es/dp/1");
    var second := new LinksEditor(defaults, 3);
    shown := Values(second.links)[0];
  }

  /** With the copying update the defaults are never changed, so every
      mount starts with blank URLs. */
  method RemountStartsBlank() returns (shown: seq<LinkValue>)
    ensures shown == [LinkValue("Amazon", ""), LinkValue("Casa del Libro", ""), LinkValue("Buscalibre", "")]
  {
    var defaults := LoadDefaultLinks();
    var first := new LinksEditor(defaults, 3);
    first.UpdateLinkCopy(0, "https://www.amazon.es/dp/1");
    first.UpdateLinkCopy(2, "https://www.buscalibre.es/libro/1");
    var second := new LinksEditor(defaults, 3);
    shown := Values(second.links);
  }
}
