# Browser manager retry and page-lookup layer, in Dafny

This project models the reusable core of a browser-automation script:
`PlaywrightManager` in `src/managers/playwright/base.py`. That class wraps
browser primitives in bounded retry loops (`click`, `click_by_cords`,
`get_element`, `get_element_with_retry`, `type_in_input`) and finds, opens and
closes tabs (`get_all_pages`, `open_extension_popup`, `close_page`,
`close_unused_pages`, `find_page_by_value`, `_get_page_value`).

The browser is an oracle. A retry loop gets the browser's answers to its
successive attempts as a sequence. `outcomes[i]` says whether attempt `i`
succeeded, and `answers[i]` gives the element attempt `i` found, if any. An
attempt past the end of the sequence fails. Given those answers, the model
states exactly how many attempts the loop makes, which sleeps it requests,
what it returns and the message of the exception it raises. Raised exceptions
are modelled as their message strings.

Tabs are `(id, url, title)` records. The browser context is the list of open
tabs, in tab order. A ghost log records every tab closed and every sleep. The
browser's refusal to close a tab is an oracle map from tab to error message.

Files:
- `wrappers.dfy`: `Option`, `Result` and the `Sleep` request (`Timing`).
- `text.dfy`: Python's substring test `v in s`, and integer formatting.
- `retry.dfy`: the retry loops, each a method proved equal to a specification
  function, with lemmas about those functions.
- `pages.dfy`: the tab filter, the page-lookup specifications and the
  `PlaywrightManager` class with the tab methods.

The model keeps these behaviours of the code, though a reader of its design might expect otherwise:
- `find_page_by_value` closes every matching tab, the returned one included,
  not "all but the first". See Findings.
- `get_all_pages` never raises. Its own `except` catches the "No pages found"
  error and returns `[]`.
- The new tab `open_extension_popup` waits for is returned whatever its URL.

## Model

| member | source | states |
|---|---|---|
| `Retry.RetryTally` | src/managers/playwright/base.py:111-129 | the loop stops at the first success or when `max_attempts` is spent; every attempt before the last failed, and the last succeeded iff the loop succeeded; attempts never exceed the budget, and an unsuccessful loop spends all of it |
| `Retry.AttemptsUntilFirstSuccess` | src/managers/playwright/base.py:114-129 | when the first success is attempt k, exactly min(k, max_attempts) attempts are made, and the loop succeeds iff k is within the budget |
| `Retry.AttemptsWhenEveryAttemptFails` | src/managers/playwright/base.py:114-129 | when every attempt fails, exactly max_attempts attempts are made (none when max_attempts <= 0) and the loop does not succeed |
| `Retry.NoAttemptAfterSuccess` | src/managers/playwright/base.py:121-122 | a successful attempt is always the last one made |
| `Retry.SucceedsIffSomeAttemptSucceeds` | src/managers/playwright/base.py:111-131 | the loop succeeds iff some attempt within the budget succeeds |
| `Retry.Click` | src/managers/playwright/base.py:94-134 | the `click` loop, attempt by attempt, yields the attempts, sleeps, success and error of `ClickSpec` |
| `Retry.ClickRaisesIff` | src/managers/playwright/base.py:131-134 | `click` raises "No element was clicked with locator: …" iff the call is required and no attempt within the budget succeeded; max_attempts <= 0 means zero attempts |
| `Retry.ClickSleepsOncePerAttempt` | src/managers/playwright/base.py:109-129 | one sleep of `wait_before_action`, then exactly one sleep of `delay_between_attempts` per attempt, the successful one included |
| `Retry.ClickDefaults` | src/managers/playwright/base.py:100-104 | with the defaults (5 attempts, required) a browser that always fails gets 5 attempts and an error, and one that succeeds on attempt 3 gets 3 attempts and no error |
| `Retry.ClickByCords` | src/managers/playwright/base.py:136-195 | the `click_by_cords` loop, attempt by attempt, yields the attempts, sleeps, success and error of `ClickByCordsSpec` |
| `Retry.ClickByCordsRaisesIff` | src/managers/playwright/base.py:192-195 | `click_by_cords` raises iff required and no attempt succeeded, and makes the same attempts with the same result as `click` on the same answers, without the initial wait |
| `Retry.ClickPointInsideBox` | src/managers/playwright/base.py:161-167 | the offset divides the box size (`offset or 2`); no offset gives the box centre, and any offset >= 1 keeps the point inside the box |
| `Retry.GetElement` | src/managers/playwright/base.py:197-243 | the `get_element` loop, attempt by attempt, yields the attempts, sleeps, element and error of `GetElementSpec` |
| `Retry.GetElementReturnsFirstFound` | src/managers/playwright/base.py:217-225 | the first element found within the budget is returned after exactly that many attempts, without an error |
| `Retry.GetElementWhenNothingFound` | src/managers/playwright/base.py:238-243 | when nothing is found, every attempt is spent and None is returned; it raises "No element was found by locator: …" iff required |
| `Retry.GetElementWithRetrySpec` | src/managers/playwright/base.py:274-279 | `get_element_with_retry` raises exactly when it has no element to return |
| `Retry.GetElementWithRetry` | src/managers/playwright/base.py:245-279 | the `get_element_with_retry` loop yields the attempts, sleeps (one uniform draw from `delay` per attempt), element and error of its specification |
| `Retry.WithRetryIsRequiredLookup` | src/managers/playwright/base.py:257-279 | `get_element_with_retry` makes the attempts and returns or raises exactly as a required `get_element` with the same budget; it raises iff no attempt within the budget finds the element |
| `Retry.TypeInInput` | src/managers/playwright/base.py:371-389 | `type_in_input` looks the input up with the retry defaults, then fills it, as `TypeInInputSpec` says |
| `Retry.TypeInInputSuppressesOptionalErrors` | src/managers/playwright/base.py:381-389 | an optional call never raises; a required call raises iff the text was not filled in; the text is filled in iff some of the 3 lookups finds the input and the fill succeeds |
| `Text.ContainsIffOccurs` | src/managers/playwright/base.py:402 | the substring scan holds iff the value occurs in the string at some position |
| `Pages.MatchIsSubstring` | src/managers/playwright/base.py:397-402 | a tab matches iff the value occurs in its URL (type url) or title (type title); the empty value matches every tab |
| `Pages.MatchedPages` | src/managers/playwright/base.py:336-340 | the filtered list holds exactly the tabs that match, and is no longer than the tab list |
| `Pages.MatchedPagesAppend` | src/managers/playwright/base.py:336-340 | filtering keeps tab order: it distributes over concatenation |
| `Pages.FirstHitIsFirstMatch` | src/managers/playwright/base.py:340-351 | the filtered list is empty iff no tab matches, and its first element is the first matching tab in tab order |
| `Pages.MatchedPagesDistinct` | src/managers/playwright/base.py:336-340 | filtering distinct tabs yields distinct tabs |
| `Pages.ClosingClosesPrefix` | src/managers/playwright/base.py:314-325 | tabs are closed in list order; all are closed iff each can be, otherwise it raises "Error while closing unused pages: Error while closing page: …" after closing exactly the tabs before the first failure; one sleep per close attempt |
| `Pages.FindPageOutcome` | src/managers/playwright/base.py:327-355 | no matching tab gives "Searching page failed: 0 pages were found"; it succeeds iff some tab matches and either there is one hit or every hit can be closed; it returns the first matching tab in tab order; one hit closes nothing |
| `Pages.FindPageClosesReturnedTab` | src/managers/playwright/base.py:347-351 | as written, a successful search with more than one hit has closed every hit, the returned tab included |
| `Pages.FindPageClosesReturnedTabExample` | src/managers/playwright/base.py:347-351 | two tabs with URLs "a1" and "a2", value "a": the first tab is returned and has been closed |
| `Pages.ClosingExtrasKeepsReturnedTab` | src/managers/playwright/base.py:347-351 | with the correction, a successful search returns the first hit, leaves it open and has closed every other hit |
| `Pages.PopupPrefersOpenTab` | src/managers/playwright/base.py:56-59 | when an open tab has exactly the URL, the first such tab is returned without waiting, whatever new tab the browser would open |
| `Pages.PopupWaitsOnlyWithoutMatch` | src/managers/playwright/base.py:61-70 | it waits iff no open tab has the URL, raises iff it waited and no tab appeared, and otherwise returns an open tab or the new one |
| `Pages.PlaywrightManager.constructor` | src/managers/playwright/base.py:24-30 | the manager starts on the given context with nothing closed and nothing in front |
| `Pages.PlaywrightManager.GetAllPages` | src/managers/playwright/base.py:32-47 | returns the open tabs in tab order; an empty context yields [] rather than an error |
| `Pages.PlaywrightManager.ClosePage` | src/managers/playwright/base.py:298-312 | sleeps for `delay` unless it is None or 0, then closes the tab, or raises "Error while closing page: …" and closes nothing |
| `Pages.PlaywrightManager.CloseUnusedPages` | src/managers/playwright/base.py:314-325 | the `for` loop closes and sleeps exactly as `ClosingSpec` says and returns its error |
| `Pages.PlaywrightManager.FindPageByValue` | src/managers/playwright/base.py:327-355 | returns or raises, closes tabs and sleeps exactly as `FindPageSpec` says |
| `Pages.PlaywrightManager.OpenExtensionPopup` | src/managers/playwright/base.py:49-73 | returns or raises as `PopupSpec` says; a tab the browser opens joins the context; the returned tab is brought to the front |

## Left out

- `open_page`, `get_element_attribute` and `clear_input` are not part of this model: they are single browser calls with error wrapping, outside the retry and page-lookup core.
- Every browser call (locators, clicks, selector waits, bounding boxes, mouse moves, hover, `fill`, `close`, `wait_for_event`, `bring_to_front`) is an oracle answer, not a computation.
- Logging, including `show_attempt_log`, is not modelled.
- Per-attempt timeouts (`delay_to_wait_element`, the random 1300–2100 ms timeout of `get_element_with_retry`, `wait_time`) and `click_count` only reach the browser, so they are not part of the model.
- Sleeps are recorded as requests (`Fixed(seconds)` or `Uniform(low, high)`); the random draw and the actual waiting are not modelled.
- Retry.ClickByCords: the inner random pause, the hover and the 300 ms click delay inside an attempt are folded into that attempt's oracle answer.
- Retry.ClickPointInsideBox: coordinates are exact reals, not floating point.
- `asyncio.gather` is modelled as a sequential, order-preserving map.
- A `page.title()` read that raises is not modelled: titles are fields of the tab record.
- Closing a tab is logged, but the browser's removal of closed tabs from the context's list is not modelled.
- Pages.PlaywrightManager.OpenExtensionPopup: the error is modelled as the message the code composes. The code catches the built-in `TimeoutError`; whether the library's timeout exception is of that class depends on the library, which is not part of this model. Either way the call raises.
- Failures of `bring_to_front`, and any `type` argument other than 'url' or 'title', are not modelled.

## Findings

| source | as written | input that shows it | evidently intended | confidence | as-written member | corrected member |
|---|---|---|---|---|---|---|
| src/managers/playwright/base.py:347-351 | with more than one matching tab, every match, including the one then returned, is passed to `close_unused_pages` | two open tabs with URLs "a1" and "a2", value "a", type url: both tabs are closed and the first, now closed, is returned | close only the matches after the first, and return the first, still open | high; not executed | `Pages.FindPageClosesReturnedTab` | `Pages.ClosingExtrasKeepsReturnedTab` |
