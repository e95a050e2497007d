/**
 * The FAQ page: the active `faq` records, fetched once, shown as an
 * accordion with at most one entry open.
 */
module Faq {
  import opened Records
  import Api

  /** The click rule: clicking the open entry closes it, clicking any other entry opens that one instead. */
  function ToggleOpen(open: Option<nat>, index: nat): (r: Option<nat>)
    ensures r == Some(index) <==> open != Some(index)
    ensures r == None <==> open == Some(index)
  {
    if open == Some(index) then None else Some(index)
  }

  /**
   * Clicking the same entry twice gives back the previous open entry exactly
   * when none was open or that very entry was; when another entry was open,
   * it stays closed.
   */
  lemma ToggleOpenTwice(open: Option<nat>, index: nat)
    ensures ToggleOpen(ToggleOpen(open, index), index) == open <==> open.None? || open == Some(index)
    ensures open.Some? && open != Some(index) ==> ToggleOpen(ToggleOpen(open, index), index) == None
  {
  }

  /** The state of the FAQ page. */
  class Page {
    var openIndex: Option<nat>
    var faqs: seq<ContentItem>
    var loading: bool

    /** Nothing is open before the page shows, and the open entry, if any, is one of the listed entries. */
    predicate Valid()
      reads this
    {
      (loading ==> openIndex == None) && (openIndex.Some? ==> openIndex.value < |faqs|)
    }

    /** Nothing is shown while the fetch is pending. */
    predicate Rendered()
      reads this
    {
      !loading
    }

    constructor ()
      ensures Valid() && !Rendered()
      ensures openIndex == None && faqs == [] && loading
    {
      openIndex, faqs, loading := None, [], true;
    }

    /** The fetch resolves: the list is what the section fetch delivers, and the page shows. */
    method OnFetched(reply: Api.Reply<seq<ContentItem>>)
      requires Valid() && loading
      modifies this`faqs, this`loading
      ensures Valid() && Rendered()
      ensures faqs == Api.GetWebsiteInfoBySection("faq", reply)
    {
      faqs := Api.GetWebsiteInfoBySection("faq", reply);
      loading := false;
    }

    /** A click on entry `index`, one of the shown entries. */
    method Click(index: nat)
      requires Valid() && Rendered() && index < |faqs|
      modifies this`openIndex
      ensures Valid()
      ensures openIndex == ToggleOpen(old(openIndex), index)
    {
      openIndex := if openIndex == Some(index) then None else Some(index);
    }
  }

  /** After the fetch, the FAQ list holds the fetched `faq` rows: active, of that section and in display order. */
  lemma FetchedFaqsSound(table: seq<ContentItem>, reply: Api.Reply<seq<ContentItem>>)
    requires Api.SectionReplyFrom(table, "faq", reply)
    ensures forall x :: x in Api.GetWebsiteInfoBySection("faq", reply) ==> x.section == "faq" && x.isActive
    ensures Api.SortedByDisplayOrder(Api.GetWebsiteInfoBySection("faq", reply))
  {
    Api.SectionFetchSound(table, "faq", reply);
  }
}
