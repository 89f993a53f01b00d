/** The page (tab) part of the browser manager (`PlaywrightManager` in
    src/managers/playwright/base.py): `get_all_pages`, `open_extension_popup`,
    `close_page`, `close_unused_pages`, `find_page_by_value` and
    `_get_page_value`.

    A tab is a record of its URL and title; the browser context is the list of
    open tabs, in tab order. Closing a tab is recorded in a log, and the
    browser's refusal to close a tab is an oracle map from tab to message. */
module Pages {
  import opened Wrappers
  import opened Timing
  import opened Text

  /** An open tab. `id` tells apart tabs with the same URL and title. */
  datatype Page = Page(id: nat, url: string, title: string)

  /** The `type` argument of `find_page_by_value`: 'url' or 'title'. */
  datatype ValueKind = Url | Title

  /** Tabs are distinct objects: no tab appears twice in the context. */
  predicate DistinctTabs(pages: seq<Page>)
  {
    forall i, j :: 0 <= i < j < |pages| ==> pages[i] != pages[j]
  }

  // ------------------------------------------------------------------
  // _get_page_value and the filter of find_page_by_value
  // ------------------------------------------------------------------

  function PageValue(p: Page, kind: ValueKind): string
  {
    match kind
    case Url => p.url
    case Title => p.title
  }

  /** `_get_page_value`: the tab when `value` is a substring of its URL or
      title, else None. */
  function PageMatch(p: Page, value: string, kind: ValueKind): Option<Page>
  {
    if Contains(PageValue(p, kind), value) then Some(p) else None
  }

  predicate Matches(p: Page, value: string, kind: ValueKind)
  {
    PageMatch(p, value, kind).Some?
  }

  /** `[page for page in await gather(...) if page]`: `_get_page_value` on every
      tab, in tab order (gather keeps the order of its arguments), keeping the hits. */
  function MatchedPages(pages: seq<Page>, value: string, kind: ValueKind): (r: seq<Page>)
    ensures |r| <= |pages|
    ensures forall p :: p in r <==> p in pages && Matches(p, value, kind)
  {
    if pages == [] then []
    else
      match PageMatch(pages[0], value, kind)
      case Some(p) => [p] + MatchedPages(pages[1..], value, kind)
      case None => MatchedPages(pages[1..], value, kind)
  }

  /** The filter keeps tab order: it distributes over concatenation. */
  lemma {:induction false} MatchedPagesAppend(a: seq<Page>, b: seq<Page>, value: string, kind: ValueKind)
    ensures MatchedPages(a + b, value, kind) == MatchedPages(a, value, kind) + MatchedPages(b, value, kind)
  {
    if a == [] {
      assert a + b == b;
    } else {
      assert (a + b)[0] == a[0];
      assert (a + b)[1..] == a[1..] + b;
      MatchedPagesAppend(a[1..], b, value, kind);
    }
  }

  /** The index of the first tab, in tab order, that matches, or |pages|. */
  function FirstMatch(pages: seq<Page>, value: string, kind: ValueKind): (k: nat)
    ensures k <= |pages|
    ensures forall j :: 0 <= j < k ==> !Matches(pages[j], value, kind)
    ensures k < |pages| ==> Matches(pages[k], value, kind)
  {
    if pages == [] || Matches(pages[0], value, kind) then 0 else 1 + FirstMatch(pages[1..], value, kind)
  }

  /** The filter has a hit iff some tab matches, and its first hit is the
      first matching tab in tab order. */
  lemma {:induction false} FirstHitIsFirstMatch(pages: seq<Page>, value: string, kind: ValueKind)
    ensures MatchedPages(pages, value, kind) == [] <==> FirstMatch(pages, value, kind) == |pages|
    ensures MatchedPages(pages, value, kind) != [] ==>
              MatchedPages(pages, value, kind)[0] == pages[FirstMatch(pages, value, kind)]
  {
    if pages != [] && !Matches(pages[0], value, kind) {
      FirstHitIsFirstMatch(pages[1..], value, kind);
    }
  }

  /** Python's `in` is a substring test: a tab matches iff `value` occurs in its
      URL or title at some position, and the empty value matches every tab. */
  lemma MatchIsSubstring(p: Page, value: string, kind: ValueKind)
    ensures Matches(p, value, kind) <==> exists i :: OccursAt(PageValue(p, kind), value, i)
    ensures Matches(p, "", kind)
  {
    ContainsIffOccurs(PageValue(p, kind), value);
    EmptyIsContained(PageValue(p, kind));
  }

  /** Filtering distinct tabs gives distinct tabs. */
  lemma {:induction false} MatchedPagesDistinct(pages: seq<Page>, value: string, kind: ValueKind)
    requires DistinctTabs(pages)
    ensures DistinctTabs(MatchedPages(pages, value, kind))
  {
    if pages != [] {
      assert DistinctTabs(pages[1..]);
      MatchedPagesDistinct(pages[1..], value, kind);
      assert pages[0] !in pages[1..];
    }
  }

  // ------------------------------------------------------------------
  // close_page and close_unused_pages
  // ------------------------------------------------------------------

  /** `close_page`'s default delay. */
  const CloseDelay := 0.25

  function ClosePageFailure(cause: string): string
  {
    "Error while closing page: " + cause
  }

  function CloseUnusedFailure(cause: string): string
  {
    "Error while closing unused pages: " + cause
  }

  /** The first tab of `ps` the browser refuses to close, or |ps|. */
  function FirstUnclosable(ps: seq<Page>, closeErrors: map<Page, string>): (k: nat)
    ensures k <= |ps|
    ensures forall j :: 0 <= j < k ==> ps[j] !in closeErrors
    ensures k < |ps| ==> ps[k] in closeErrors
  {
    if ps == [] || ps[0] in closeErrors then 0 else 1 + FirstUnclosable(ps[1..], closeErrors)
  }

  /** What `close_unused_pages` did: the tabs it closed, in order, the sleeps
      it requested, and the message raised, if any. */
  datatype ClosingRun = ClosingRun(closedTabs: seq<Page>, sleeps: seq<Sleep>, error: Option<string>)

  /** `close_unused_pages`: close the tabs in list order, each after the default
      delay, and stop at the first one that cannot be closed. */
  function ClosingSpec(ps: seq<Page>, closeErrors: map<Page, string>): ClosingRun
  {
    var k := FirstUnclosable(ps, closeErrors);
    if k < |ps| then
      ClosingRun(ps[..k], Repeat(Fixed(CloseDelay), k + 1),
                 Some(CloseUnusedFailure(ClosePageFailure(closeErrors[ps[k]]))))
    else
      ClosingRun(ps, Repeat(Fixed(CloseDelay), |ps|), None)
  }

  /** `close_unused_pages` closes a prefix of its list in order; it closes the
      whole list iff every tab can be closed, and otherwise raises, having
      closed exactly the tabs before the first one that cannot be. */
  lemma ClosingClosesPrefix(ps: seq<Page>, closeErrors: map<Page, string>)
    ensures var c := ClosingSpec(ps, closeErrors);
      |c.closedTabs| <= |ps| && c.closedTabs == ps[..|c.closedTabs|]
    ensures var c := ClosingSpec(ps, closeErrors);
      c.error.None? <==> forall p :: p in ps ==> p !in closeErrors
    ensures var c := ClosingSpec(ps, closeErrors);
      c.error.None? ==> c.closedTabs == ps
    ensures var c := ClosingSpec(ps, closeErrors);
      c.error.Some? ==> (ps[|c.closedTabs|] in closeErrors &&
        c.error.value == CloseUnusedFailure(ClosePageFailure(closeErrors[ps[|c.closedTabs|]])))
    ensures var c := ClosingSpec(ps, closeErrors);
      |c.sleeps| == |c.closedTabs| + (if c.error.Some? then 1 else 0)
  {
    var k := FirstUnclosable(ps, closeErrors);
    if k == |ps| {
      assert ps[..k] == ps;
      forall p | p in ps ensures p !in closeErrors {
        var j :| 0 <= j < |ps| && ps[j] == p;
      }
    }
  }

  // ------------------------------------------------------------------
  // find_page_by_value
  // ------------------------------------------------------------------

  function SearchFailure(cause: string): string
  {
    "Searching page failed: " + cause
  }

  const NoPageFound := "0 pages were found"

  /** What `find_page_by_value` did: the tab returned or the message raised,
      the tabs it closed and the sleeps it requested. */
  datatype FindRun = FindRun(result: Result<Page>, closedTabs: seq<Page>, sleeps: seq<Sleep>)

  /** `find_page_by_value` as written: with more than one hit, EVERY hit,
      the returned one included, goes to `close_unused_pages`. */
  function FindPageSpec(pages: seq<Page>, closeErrors: map<Page, string>, value: string, kind: ValueKind): FindRun
  {
    var matched := MatchedPages(pages, value, kind);
    if matched == [] then
      FindRun(Err(SearchFailure(NoPageFound)), [], [])
    else if |matched| > 1 then
      var c := ClosingSpec(matched, closeErrors);
      if c.error.Some? then FindRun(Err(SearchFailure(c.error.value)), c.closedTabs, c.sleeps)
      else FindRun(Ok(matched[0]), c.closedTabs, c.sleeps)
    else
      FindRun(Ok(matched[0]), [], [])
  }

  /** `find_page_by_value` raises when no tab matches; otherwise it returns
      the first matching tab in tab order, unless closing the hits fails. */
  lemma FindPageOutcome(pages: seq<Page>, closeErrors: map<Page, string>, value: string, kind: ValueKind)
    ensures var run := FindPageSpec(pages, closeErrors, value, kind);
      (forall p :: p in pages ==> !Matches(p, value, kind)) ==>
        run == FindRun(Err(SearchFailure(NoPageFound)), [], [])
    ensures var run := FindPageSpec(pages, closeErrors, value, kind);
      var matched := MatchedPages(pages, value, kind);
      run.result.Ok? <==>
        matched != [] && (|matched| == 1 || forall p :: p in matched ==> p !in closeErrors)
    ensures var run := FindPageSpec(pages, closeErrors, value, kind);
      run.result.Ok? ==>
        FirstMatch(pages, value, kind) < |pages| && run.result.value == pages[FirstMatch(pages, value, kind)]
    ensures var run := FindPageSpec(pages, closeErrors, value, kind);
      |MatchedPages(pages, value, kind)| <= 1 ==> run.closedTabs == []
  {
    var matched := MatchedPages(pages, value, kind);
    if matched != [] {
      ClosingClosesPrefix(matched, closeErrors);
      FirstHitIsFirstMatch(pages, value, kind);
    }
  }

  /** As written, a successful search that found more than one tab has closed
      every hit, so the tab it returns is one it has just closed. */
  lemma FindPageClosesReturnedTab(pages: seq<Page>, closeErrors: map<Page, string>, value: string, kind: ValueKind)
    requires |MatchedPages(pages, value, kind)| > 1
    requires FindPageSpec(pages, closeErrors, value, kind).result.Ok?
    ensures FindPageSpec(pages, closeErrors, value, kind).closedTabs == MatchedPages(pages, value, kind)
    ensures FindPageSpec(pages, closeErrors, value, kind).result.value in
              FindPageSpec(pages, closeErrors, value, kind).closedTabs
  {
    ClosingClosesPrefix(MatchedPages(pages, value, kind), closeErrors);
  }

  /** Two tabs whose URLs both contain "a": the search returns the first and
      closes both. */
  lemma FindPageClosesReturnedTabExample()
    ensures var first := Page(1, "a1", "x");
      var run := FindPageSpec([first, Page(2, "a2", "y")], map[], "a", Url);
      run.result == Ok(first) && first in run.closedTabs
  {
    var first, second := Page(1, "a1", "x"), Page(2, "a2", "y");
    assert StartsWith(first.url, "a") && StartsWith(second.url, "a");
    assert MatchedPages([second], "a", Url) == [second];
    assert [first, second][1..] == [second];
    assert MatchedPages([first, second], "a", Url) == [first, second];
  }

  /** The search as evidently intended: close only the hits after the first. */
  function FindPageClosingExtras(pages: seq<Page>, closeErrors: map<Page, string>, value: string, kind: ValueKind): FindRun
  {
    var matched := MatchedPages(pages, value, kind);
    if matched == [] then
      FindRun(Err(SearchFailure(NoPageFound)), [], [])
    else if |matched| > 1 then
      var c := ClosingSpec(matched[1..], closeErrors);
      if c.error.Some? then FindRun(Err(SearchFailure(c.error.value)), c.closedTabs, c.sleeps)
      else FindRun(Ok(matched[0]), c.closedTabs, c.sleeps)
    else
      FindRun(Ok(matched[0]), [], [])
  }

  /** With the correction, a successful search returns the first hit, leaves
      it open and has closed every other hit. */
  lemma ClosingExtrasKeepsReturnedTab(pages: seq<Page>, closeErrors: map<Page, string>, value: string, kind: ValueKind)
    requires DistinctTabs(pages)
    ensures var run := FindPageClosingExtras(pages, closeErrors, value, kind);
      run.result.Ok? ==>
        run.result.value == MatchedPages(pages, value, kind)[0] &&
        run.result.value !in run.closedTabs &&
        run.closedTabs == MatchedPages(pages, value, kind)[1..]
  {
    var matched := MatchedPages(pages, value, kind);
    if matched != [] {
      MatchedPagesDistinct(pages, value, kind);
      ClosingClosesPrefix(matched[1..], closeErrors);
      assert matched[0] !in matched[1..];
    }
  }

  // ------------------------------------------------------------------
  // open_extension_popup
  // ------------------------------------------------------------------

  const DefaultPopupTimeout := 15

  function PopupFailure(timeout: int): string
  {
    "Error: extension page hasn't opened in " + IntToString(timeout) + " seconds"
  }

  /** The first open tab whose URL equals `url` exactly, or |pages|. */
  function FirstWithUrl(pages: seq<Page>, url: string): (k: nat)
    ensures k <= |pages|
    ensures forall j :: 0 <= j < k ==> pages[j].url != url
    ensures k < |pages| ==> pages[k].url == url
  {
    if pages == [] || pages[0].url == url then 0 else 1 + FirstWithUrl(pages[1..], url)
  }

  /** What `open_extension_popup` did: the tab returned or the message raised,
      and whether it waited for a new tab. */
  datatype PopupRun = PopupRun(result: Result<Page>, waitedForNewTab: bool)

  /** `open_extension_popup`: an already open tab with the exact URL, else the
      tab the browser opens within the timeout (`newTab`), whatever its URL. */
  function PopupSpec(pages: seq<Page>, url: string, timeout: int, newTab: Option<Page>): PopupRun
  {
    var k := FirstWithUrl(pages, url);
    if k < |pages| then PopupRun(Ok(pages[k]), false)
    else if newTab.Some? then PopupRun(Ok(newTab.value), true)
    else PopupRun(Err(PopupFailure(timeout)), true)
  }

  /** When an open tab has the exact URL, `open_extension_popup` returns the
      first such tab without waiting, whatever the browser would open; it
      waits only when no open tab has that URL. */
  lemma PopupPrefersOpenTab(pages: seq<Page>, url: string, timeout: int, newTab: Option<Page>, i: nat)
    requires i < |pages| && pages[i].url == url
    requires forall j :: 0 <= j < i ==> pages[j].url != url
    ensures PopupSpec(pages, url, timeout, newTab) == PopupRun(Ok(pages[i]), false)
  {
  }

  /** It waits iff no open tab has the URL, and it raises iff it waited and no
      tab appeared. */
  lemma PopupWaitsOnlyWithoutMatch(pages: seq<Page>, url: string, timeout: int, newTab: Option<Page>)
    ensures PopupSpec(pages, url, timeout, newTab).waitedForNewTab <==> forall p :: p in pages ==> p.url != url
    ensures PopupSpec(pages, url, timeout, newTab).result.Err? <==>
              newTab.None? && forall p :: p in pages ==> p.url != url
    ensures PopupSpec(pages, url, timeout, newTab).result.Ok? ==>
              PopupSpec(pages, url, timeout, newTab).result.value in pages + (if newTab.Some? then [newTab.value] else [])
  {
    var k := FirstWithUrl(pages, url);
    if k == |pages| {
      forall p | p in pages ensures p.url != url {
        var j :| 0 <= j < |pages| && pages[j] == p;
      }
    }
  }

  // ------------------------------------------------------------------
  // The manager
  // ------------------------------------------------------------------

  /** The browser manager's view of its browser context. */
  class PlaywrightManager {
    /** The context's open tabs, in tab order. */
    var pages: seq<Page>
    /** The browser's message for each tab whose `close()` raises. */
    var closeErrors: map<Page, string>
    /** The tab last brought to the front. */
    var front: Option<Page>
    /** Every tab closed so far, in order. */
    ghost var closed: seq<Page>
    /** Every sleep requested so far, in order. */
    ghost var slept: seq<Sleep>

    constructor (pages: seq<Page>, closeErrors: map<Page, string>)
      ensures this.pages == pages && this.closeErrors == closeErrors
      ensures front == None && closed == [] && slept == []
    {
      this.pages := pages;
      this.closeErrors := closeErrors;
      front := None;
      closed := [];
      slept := [];
    }

    /** `get_all_pages`: the open tabs in tab order; it catches its own
        "No pages found" error, so an empty context yields [] and no error. */
    method GetAllPages() returns (r: seq<Page>)
      ensures r == pages
      ensures pages == [] ==> r == []
    {
      if pages == [] {
        // raise inside the try, caught by its own except: return []
        return [];
      }
      return pages;
    }

    /** `close_page`: sleep for `delay` unless it is None or 0, then close. */
    method ClosePage(page: Page, delay: Option<real>) returns (error: Option<string>)
      modifies this`closed, this`slept
      ensures slept == old(slept) + (if delay.Some? && delay.value != 0.0 then [Fixed(delay.value)] else [])
      ensures page in closeErrors ==> closed == old(closed) && error == Some(ClosePageFailure(closeErrors[page]))
      ensures page !in closeErrors ==> closed == old(closed) + [page] && error == None
    {
      if delay.Some? && delay.value != 0.0 {
        slept := slept + [Fixed(delay.value)];
      }
      if page in closeErrors {
        return Some(ClosePageFailure(closeErrors[page]));
      }
      closed := closed + [page];
      return None;
    }

    /** `close_unused_pages`. */
    method CloseUnusedPages(ps: seq<Page>) returns (error: Option<string>)
      modifies this`closed, this`slept
      ensures closed == old(closed) + ClosingSpec(ps, closeErrors).closedTabs
      ensures slept == old(slept) + ClosingSpec(ps, closeErrors).sleeps
      ensures error == ClosingSpec(ps, closeErrors).error
    {
      for i := 0 to |ps|
        invariant closed == old(closed) + ps[..i]
        invariant slept == old(slept) + Repeat(Fixed(CloseDelay), i)
        invariant forall j :: 0 <= j < i ==> ps[j] !in closeErrors
      {
        var e := ClosePage(ps[i], Some(CloseDelay));
        if e.Some? {
          assert FirstUnclosable(ps, closeErrors) == i;
          return Some(CloseUnusedFailure(e.value));
        }
        assert ps[..i + 1] == ps[..i] + [ps[i]];
      }
      assert ps[..|ps|] == ps;
      return None;
    }

    /** `find_page_by_value`. */
    method FindPageByValue(value: string, kind: ValueKind) returns (r: Result<Page>)
      modifies this`closed, this`slept
      ensures r == FindPageSpec(pages, closeErrors, value, kind).result
      ensures closed == old(closed) + FindPageSpec(pages, closeErrors, value, kind).closedTabs
      ensures slept == old(slept) + FindPageSpec(pages, closeErrors, value, kind).sleeps
    {
      var all := GetAllPages();
      var matched := MatchedPages(all, value, kind);
      if matched == [] {
        return Err(SearchFailure(NoPageFound));
      }
      if |matched| > 1 {
        var e := CloseUnusedPages(matched);
        if e.Some? {
          return Err(SearchFailure(e.value));
        }
      }
      return Ok(matched[0]);
    }

    /** `open_extension_popup`: scan the open tabs for the exact URL, else wait
        for the browser to open one; bring the result to the front. */
    method OpenExtensionPopup(url: string, timeout: int, newTab: Option<Page>) returns (r: PopupRun)
      modifies this`pages, this`front
      ensures r == PopupSpec(old(pages), url, timeout, newTab)
      ensures pages == old(pages) + (if r.waitedForNewTab && newTab.Some? then [newTab.value] else [])
      ensures front == (if r.result.Ok? then Some(r.result.value) else old(front))
    {
      var extensionPage: Option<Page> := None;
      for i := 0 to |pages|
        invariant forall j :: 0 <= j < i ==> pages[j].url != url
      {
        if url == pages[i].url {
          extensionPage := Some(pages[i]);
          assert FirstWithUrl(pages, url) == i;
          break;
        }
      }
      var waited := extensionPage.None?;
      if waited {
        if newTab.None? {
          return PopupRun(Err(PopupFailure(timeout)), true);
        }
        // the tab the browser opens joins the context
        pages := pages + [newTab.value];
        extensionPage := newTab;
      }
      front := extensionPage;
      return PopupRun(Ok(extensionPage.value), waited);
    }
  }
}
