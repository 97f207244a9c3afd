/** The Focus Mode screen's list of sites to block, with its text box for adding one. */
module FocusBlockList {
  import Strings
  import Lists

  datatype BlockList = BlockList(sites: seq<string>, input: string)

  /** The list on mount: six social sites, an empty text box. */
  const Initial := BlockList(
    ["facebook.com", "twitter.com", "instagram.com", "youtube.com", "tiktok.com", "reddit.com"], "")

  lemma InitialDuplicateFree()
    ensures Lists.NoDuplicates(Initial.sites)
  {
  }

  /**
   * `addBlockedSite`: the trimmed input joins the end of the list exactly when
   * it is non-empty and not yet listed, and the text box is then cleared;
   * otherwise nothing changes. The list stays free of duplicates.
   */
  function AddBlockedSite(b: BlockList): (r: BlockList)
    ensures var site := Strings.Trim(b.input);
      r.sites != b.sites <==> site != [] && site !in b.sites
    ensures r.sites == b.sites || r.sites == b.sites + [Strings.Trim(b.input)]
    ensures r.sites != b.sites ==> r.input == []
    ensures r.sites == b.sites ==> r == b
    ensures Lists.NoDuplicates(b.sites) ==> Lists.NoDuplicates(r.sites)
  {
    var site := Strings.Trim(b.input);
    if site != [] && site !in b.sites then
      Lists.AppendNoDuplicates(b.sites, site);
      BlockList(b.sites + [site], [])
    else b
  }

  /**
   * `removeBlockedSite`: every entry equal to `site` goes, the others stay in
   * their order, and the text box is left alone.
   */
  function RemoveBlockedSite(b: BlockList, site: string): (r: BlockList)
    ensures site !in r.sites
    ensures forall i :: 0 <= i < |b.sites| && b.sites[i] != site ==> b.sites[i] in r.sites
    ensures forall i :: 0 <= i < |r.sites| ==> r.sites[i] in b.sites
    ensures Lists.IsSubsequence(r.sites, b.sites)
    ensures site !in b.sites ==> r == b
    ensures |r.sites| == |b.sites| - Lists.CountWhere(b.sites, s => s == site)
    ensures Lists.NoDuplicates(b.sites) ==> Lists.NoDuplicates(r.sites)
    ensures r.input == b.input
  {
    var keep := (s: string) => s != site;
    Lists.FilterLength(b.sites, keep, s => s == site);
    Lists.FilterNoDuplicates(b.sites, keep);
    BlockList(Lists.Filter(b.sites, keep), b.input)
  }

  /** A site that was just added can be removed again, leaving the list as it was. */
  lemma AddThenRemove(b: BlockList)
    requires Strings.Trim(b.input) != [] && Strings.Trim(b.input) !in b.sites
    ensures RemoveBlockedSite(AddBlockedSite(b), Strings.Trim(b.input)).sites == b.sites
  {
    var site := Strings.Trim(b.input);
    var keep := (s: string) => s != site;
    Lists.FilterAppend(b.sites, [site], keep);
    assert Lists.Filter([site], keep) == [];
  }
}
