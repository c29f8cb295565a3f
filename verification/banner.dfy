/**
 * The warning banner. The page container is a list of child nodes; the banner
 * is the one node with id `alertBox`, created on first use and reused after.
 */
module Banner {
  import opened Options

  /** A child of the page container: the banner (its text and whether it is displayed) or anything else. */
  datatype Node = AlertBox(text: string, shown: bool) | Other(name: string)

  /** The lookup of the banner by its id (static/app.js:22, 35): the position of the first banner, if any. */
  function FindBanner(page: seq<Node>): (r: Option<nat>)
    ensures r.Some? ==> r.value < |page| && page[r.value].AlertBox?
    ensures r.Some? ==> forall j :: 0 <= j < r.value ==> !page[j].AlertBox?
    ensures r.None? ==> forall j :: 0 <= j < |page| ==> !page[j].AlertBox?
  {
    if |page| == 0 then None
    else if page[0].AlertBox? then Some(0)
    else
      match FindBanner(page[1..])
      case None => None
      case Some(i) => Some(i + 1)
  }

  /** How many banners the container holds. */
  function CountBanners(page: seq<Node>): nat {
    if |page| == 0 then 0
    else (if page[0].AlertBox? then 1 else 0) + CountBanners(page[1..])
  }

  /** The container's other children, in order: everything but banners. */
  function Others(page: seq<Node>): seq<Node> {
    if |page| == 0 then []
    else (if page[0].AlertBox? then [] else [page[0]]) + Others(page[1..])
  }

  /** The text of the displayed banner, or None when no banner is displayed. */
  function VisibleWarning(page: seq<Node>): Option<string> {
    match FindBanner(page)
    case Some(i) => if page[i].shown then Some(page[i].text) else None
    case None => None
  }

  /** The page never holds two banners. */
  predicate AtMostOneBanner(page: seq<Node>) {
    CountBanners(page) <= 1
  }

  /**
   * Where a new banner goes (static/app.js:28): before the container's third
   * child, or at the end when the container has fewer than three children.
   */
  function InsertPosition(page: seq<Node>): nat {
    if |page| < 2 then |page| else 2
  }

  /**
   * `showWarning(msg)`: reuse the banner if there is one, else create it at the
   * insert position; then set its text and display it.
   */
  function ShowWarning(page: seq<Node>, msg: string): (r: seq<Node>)
    ensures VisibleWarning(r) == Some(msg)
    ensures CountBanners(r) == (if CountBanners(page) == 0 then 1 else CountBanners(page))
    ensures Others(r) == Others(page)
    ensures FindBanner(page).Some? ==> FindBanner(r) == FindBanner(page) && |r| == |page|
    ensures FindBanner(page).None? ==> FindBanner(r) == Some(InsertPosition(page)) && |r| == |page| + 1
  {
    var box := AlertBox(msg, true);
    match FindBanner(page)
    case Some(i) =>
      ReplaceAt(page, i, box);
      page[i := box]
    case None =>
      InsertCount(page, InsertPosition(page), box);
      InsertKeepsOthers(page, InsertPosition(page), box);
      InsertFound(page, InsertPosition(page), box);
      page[..InsertPosition(page)] + [box] + page[InsertPosition(page)..]
  }

  /** `hideWarning()`: stop displaying the banner if there is one; otherwise do nothing. */
  function HideWarning(page: seq<Node>): (r: seq<Node>)
    ensures VisibleWarning(r) == None
    ensures CountBanners(r) == CountBanners(page)
    ensures Others(r) == Others(page)
    ensures FindBanner(r) == FindBanner(page)
    ensures FindBanner(page).None? ==> r == page
    ensures FindBanner(page).Some? ==> r[FindBanner(page).value].text == page[FindBanner(page).value].text
  {
    match FindBanner(page)
    case Some(i) =>
      var box := AlertBox(page[i].text, false);
      ReplaceAt(page, i, box);
      page[i := box]
    case None => page
  }

  /** Both banner operations keep the page to at most one banner. */
  lemma BannerOperationsKeepOneBanner(page: seq<Node>, msg: string)
    requires AtMostOneBanner(page)
    ensures AtMostOneBanner(ShowWarning(page, msg))
    ensures AtMostOneBanner(HideWarning(page))
    ensures CountBanners(ShowWarning(page, msg)) == 1
  {
  }

  /** Showing twice creates nothing new: the second call updates the text in place. */
  lemma ShowWarningReusesBanner(page: seq<Node>, first: string, second: string)
    ensures var once := ShowWarning(page, first);
            var twice := ShowWarning(once, second);
            |twice| == |once| && FindBanner(twice) == FindBanner(once)
            && CountBanners(twice) == CountBanners(once) && VisibleWarning(twice) == Some(second)
  {
  }

  // ---------------------------------------------------------------------------
  // Helpers about counting
  // ---------------------------------------------------------------------------

  lemma {:induction false} CountAndOthersOfConcat(a: seq<Node>, b: seq<Node>)
    ensures CountBanners(a + b) == CountBanners(a) + CountBanners(b)
    ensures Others(a + b) == Others(a) + Others(b)
  {
    if |a| > 0 {
      CountAndOthersOfConcat(a[1..], b);
      assert (a + b)[1..] == a[1..] + b;
    } else {
      assert a + b == b;
    }
  }

  /** A lone banner counts once and leaves no other children. */
  lemma SingleBanner(box: Node)
    requires box.AlertBox?
    ensures CountBanners([box]) == 1 && Others([box]) == []
  {
    assert [box][1..] == [];
    assert Others([box][1..]) == [];
  }

  /** A page without banners is all "other" children. */
  lemma {:induction false} NoBanners(page: seq<Node>)
    requires forall j :: 0 <= j < |page| ==> !page[j].AlertBox?
    ensures CountBanners(page) == 0 && Others(page) == page
  {
    if |page| > 0 {
      NoBanners(page[1..]);
      assert page == [page[0]] + page[1..];
    }
  }

  /** Overwriting a banner with a banner changes neither the count nor the other children. */
  lemma ReplaceAt(page: seq<Node>, i: nat, box: Node)
    requires i < |page| && page[i].AlertBox? && box.AlertBox?
    requires forall j :: 0 <= j < i ==> !page[j].AlertBox?
    ensures CountBanners(page[i := box]) == CountBanners(page) >= 1
    ensures Others(page[i := box]) == Others(page)
    ensures FindBanner(page[i := box]) == Some(i)
  {
    var r := page[i := box];
    assert page == page[..i] + [page[i]] + page[i + 1..];
    assert r == page[..i] + [box] + page[i + 1..];
    CountAndOthersOfConcat(page[..i] + [page[i]], page[i + 1..]);
    CountAndOthersOfConcat(page[..i], [page[i]]);
    CountAndOthersOfConcat(page[..i] + [box], page[i + 1..]);
    CountAndOthersOfConcat(page[..i], [box]);
    assert [page[i]][1..] == [] && [box][1..] == [];
    FirstBannerAt(r, i);
  }

  /** Inserting a banner into a page without one makes it the page's only banner. */
  lemma InsertCount(page: seq<Node>, k: nat, box: Node)
    requires k <= |page| && box.AlertBox?
    requires forall j :: 0 <= j < |page| ==> !page[j].AlertBox?
    ensures CountBanners(page) == 0
    ensures CountBanners(page[..k] + [box] + page[k..]) == 1
  {
    var a, b := page[..k], page[k..];
    NoBanners(page);
    NoBanners(a);
    NoBanners(b);
    CountAndOthersOfConcat(a + [box], b);
    CountAndOthersOfConcat(a, [box]);
    SingleBanner(box);
  }

  /** Inserting a banner leaves the other children as they were. */
  lemma InsertKeepsOthers(page: seq<Node>, k: nat, box: Node)
    requires k <= |page| && box.AlertBox?
    requires forall j :: 0 <= j < |page| ==> !page[j].AlertBox?
    ensures Others(page[..k] + [box] + page[k..]) == Others(page)
  {
    var a, b := page[..k], page[k..];
    var left := a + [box];
    NoBanners(a);
    NoBanners(b);
    NoBanners(page);
    SingleBanner(box);
    CountAndOthersOfConcat(a, [box]);
    assert Others(left) == a;
    CountAndOthersOfConcat(left, b);
    assert Others(left + b) == a + b;
    assert page == a + b;
  }

  /** The inserted banner is the one `getElementById` then finds. */
  lemma InsertFound(page: seq<Node>, k: nat, box: Node)
    requires k <= |page| && box.AlertBox?
    requires forall j :: 0 <= j < |page| ==> !page[j].AlertBox?
    ensures FindBanner(page[..k] + [box] + page[k..]) == Some(k)
  {
    var r := page[..k] + [box] + page[k..];
    assert forall j :: 0 <= j < k ==> r[j] == page[j];
    FirstBannerAt(r, k);
  }

  /** A banner with none before it is the one `getElementById` finds. */
  lemma {:induction false} FirstBannerAt(page: seq<Node>, i: nat)
    requires i < |page| && page[i].AlertBox?
    requires forall j :: 0 <= j < i ==> !page[j].AlertBox?
    ensures FindBanner(page) == Some(i)
  {
    if i > 0 {
      FirstBannerAt(page[1..], i - 1);
    }
  }
}
