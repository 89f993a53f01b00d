/** The retry layer of the browser manager (`PlaywrightManager` in
    src/managers/playwright/base.py): `click`, `click_by_cords`, `get_element`,
    `get_element_with_retry` and `type_in_input`.

    The browser is an oracle. Each retry loop is given the browser's answers to
    its successive attempts, and the model states exactly how many attempts the
    loop makes, which sleeps it requests, what it returns and when it raises. */
module Retry {
  import opened Wrappers
  import opened Timing

  // ------------------------------------------------------------------
  // The attempt counter shared by every retry loop
  // ------------------------------------------------------------------

  /** The browser's answer to attempt `i` (counted from 0): `outcomes[i]` when
      the list has one; an attempt past the end of the list fails. */
  function Answer(outcomes: seq<bool>, i: nat): bool
  {
    i < |outcomes| && outcomes[i]
  }

  /** How often `while attempts < max_attempts` runs when nothing stops it early. */
  function Budget(maxAttempts: int): nat
  {
    if maxAttempts <= 0 then 0 else maxAttempts
  }

  function Min(a: nat, b: nat): nat
  {
    if a <= b then a else b
  }

  /** The first attempt in [i, n) the browser answers with success, or `n`. */
  function FirstSuccessFrom(outcomes: seq<bool>, i: nat, n: nat): (k: nat)
    requires i <= n
    ensures i <= k <= n
    ensures forall j :: i <= j < k ==> !Answer(outcomes, j)
    ensures k < n ==> Answer(outcomes, k)
    decreases n - i
  {
    if i == n then n
    else if Answer(outcomes, i) then i
    else FirstSuccessFrom(outcomes, i + 1, n)
  }

  /** The attempts a retry loop made, and whether one of them succeeded. */
  datatype Tally = Tally(attempts: nat, succeeded: bool)

  /** The loop shared by the retry methods: attempt, count, stop at the first
      success or when the budget is spent. */
  function RetryTally(outcomes: seq<bool>, maxAttempts: int): (t: Tally)
    ensures t.attempts <= Budget(maxAttempts)
    ensures t.succeeded <==> 0 < t.attempts && Answer(outcomes, t.attempts - 1)
    ensures forall j :: 0 <= j < t.attempts - 1 ==> !Answer(outcomes, j)
    ensures !t.succeeded ==> t.attempts == Budget(maxAttempts)
  {
    var n := Budget(maxAttempts);
    var k := FirstSuccessFrom(outcomes, 0, n);
    if k < n then Tally(k + 1, true) else Tally(n, false)
  }

  /** When the first success is attempt `k` (counted from 1), the loop makes
      exactly min(k, max_attempts) attempts, and succeeds iff k is within budget. */
  lemma AttemptsUntilFirstSuccess(outcomes: seq<bool>, maxAttempts: int, k: nat)
    requires 1 <= k && Answer(outcomes, k - 1)
    requires forall j :: 0 <= j < k - 1 ==> !Answer(outcomes, j)
    ensures RetryTally(outcomes, maxAttempts).attempts == Min(k, Budget(maxAttempts))
    ensures RetryTally(outcomes, maxAttempts).succeeded <==> k <= Budget(maxAttempts)
  {
  }

  /** When every attempt fails, the loop spends its whole budget (zero attempts
      when max_attempts <= 0) and does not succeed. */
  lemma AttemptsWhenEveryAttemptFails(outcomes: seq<bool>, maxAttempts: int)
    requires forall j :: 0 <= j < Budget(maxAttempts) ==> !Answer(outcomes, j)
    ensures RetryTally(outcomes, maxAttempts) == Tally(Budget(maxAttempts), false)
  {
  }

  /** A success always ends the loop: no attempt follows a successful one. */
  lemma NoAttemptAfterSuccess(outcomes: seq<bool>, maxAttempts: int, j: nat)
    requires j < RetryTally(outcomes, maxAttempts).attempts && Answer(outcomes, j)
    ensures j == RetryTally(outcomes, maxAttempts).attempts - 1
    ensures RetryTally(outcomes, maxAttempts).succeeded
  {
  }

  /** The loop succeeds iff some attempt within the budget succeeds. */
  lemma SucceedsIffSomeAttemptSucceeds(outcomes: seq<bool>, maxAttempts: int)
    ensures RetryTally(outcomes, maxAttempts).succeeded
        <==> exists j :: 0 <= j < Budget(maxAttempts) && Answer(outcomes, j)
  {
    var t := RetryTally(outcomes, maxAttempts);
    if t.succeeded {
      assert Answer(outcomes, t.attempts - 1);
    }
  }

  // ------------------------------------------------------------------
  // click
  // ------------------------------------------------------------------

  /** The options of `click` that reach its control logic. */
  datatype ClickOptions = ClickOptions(
    maxAttempts: int,
    waitBeforeAction: real,
    delayBetweenAttempts: real,
    isRequired: bool)

  /** The defaults `click` takes for options the caller leaves out. */
  const DefaultClickOptions := ClickOptions(5, 0.0, 1.0, true)

  /** What a click call did: attempts made, sleeps requested in order, whether
      the element was clicked, and the message raised, if any. */
  datatype ClickRun = ClickRun(attempts: nat, sleeps: seq<Sleep>, clicked: bool, error: Option<string>)

  function ClickFailure(locator: string): string
  {
    "No element was clicked with locator: " + locator
  }

  /** `click`: one sleep before the loop, then one per attempt. */
  function ClickSpec(locator: string, opts: ClickOptions, outcomes: seq<bool>): ClickRun
  {
    var t := RetryTally(outcomes, opts.maxAttempts);
    ClickRun(
      t.attempts,
      [Fixed(opts.waitBeforeAction)] + Repeat(Fixed(opts.delayBetweenAttempts), t.attempts),
      t.succeeded,
      if !t.succeeded && opts.isRequired then Some(ClickFailure(locator)) else None)
  }

  /** `click`, attempt by attempt; `outcomes[i]` says whether the browser's
      click on attempt i succeeded or raised. */
  method Click(locator: string, opts: ClickOptions, outcomes: seq<bool>) returns (r: ClickRun)
    ensures r == ClickSpec(locator, opts, outcomes)
  {
    var sleeps := [Fixed(opts.waitBeforeAction)];
    var isSuccessClick := false;
    var attempts: nat := 0;
    while attempts < opts.maxAttempts
      invariant attempts <= Budget(opts.maxAttempts)
      invariant !isSuccessClick
      invariant forall j :: 0 <= j < attempts ==> !Answer(outcomes, j)
      invariant sleeps == [Fixed(opts.waitBeforeAction)] + Repeat(Fixed(opts.delayBetweenAttempts), attempts)
    {
      // try: the browser clicks or raises
      if Answer(outcomes, attempts) {
        isSuccessClick := true;
      }
      // finally: count the attempt and sleep, after a success too
      attempts := attempts + 1;
      sleeps := sleeps + [Fixed(opts.delayBetweenAttempts)];
      if isSuccessClick {
        break;
      }
    }
    var error := if !isSuccessClick && opts.isRequired then Some(ClickFailure(locator)) else None;
    r := ClickRun(attempts, sleeps, isSuccessClick, error);
  }

  /** `click` raises iff no attempt within the budget succeeded and the call is
      required; with max_attempts <= 0 it makes no attempt at all. */
  lemma ClickRaisesIff(locator: string, opts: ClickOptions, outcomes: seq<bool>)
    ensures ClickSpec(locator, opts, outcomes).error.Some?
        <==> opts.isRequired && forall j :: 0 <= j < Budget(opts.maxAttempts) ==> !Answer(outcomes, j)
    ensures ClickSpec(locator, opts, outcomes).error.Some? ==>
              ClickSpec(locator, opts, outcomes).error.value == ClickFailure(locator)
    ensures opts.maxAttempts <= 0 ==> ClickSpec(locator, opts, outcomes).attempts == 0
  {
    SucceedsIffSomeAttemptSucceeds(outcomes, opts.maxAttempts);
  }

  /** The `finally` block runs once per attempt: after the wait before the action,
      `click` sleeps exactly once per attempt, the successful one included. */
  lemma ClickSleepsOncePerAttempt(locator: string, opts: ClickOptions, outcomes: seq<bool>)
    ensures var r := ClickSpec(locator, opts, outcomes);
      |r.sleeps| == r.attempts + 1 && r.sleeps[0] == Fixed(opts.waitBeforeAction) &&
      forall i :: 1 <= i < |r.sleeps| ==> r.sleeps[i] == Fixed(opts.delayBetweenAttempts)
  {
  }

  /** With the defaults, a click whose browser always fails makes five attempts
      and raises; one that succeeds on attempt 3 makes three and does not. */
  lemma ClickDefaults(locator: string)
    ensures ClickSpec(locator, DefaultClickOptions, []).attempts == 5
    ensures ClickSpec(locator, DefaultClickOptions, []).error == Some(ClickFailure(locator))
    ensures ClickSpec(locator, DefaultClickOptions, [false, false, true]).attempts == 3
    ensures ClickSpec(locator, DefaultClickOptions, [false, false, true]).error == None
  {
    AttemptsWhenEveryAttemptFails([], 5);
    AttemptsUntilFirstSuccess([false, false, true], 5, 3);
  }

  // ------------------------------------------------------------------
  // click_by_cords
  // ------------------------------------------------------------------

  /** The options of `click_by_cords` that reach its control logic. */
  datatype ClickByCordsOptions = ClickByCordsOptions(
    maxAttempts: int,
    delayBetweenAttempts: real,
    isRequired: bool,
    offsetX: real,
    offsetY: real)

  const DefaultClickByCordsOptions := ClickByCordsOptions(5, 1.0, true, 0.0, 0.0)

  /** `click_by_cords`: the same loop as `click`, without a wait before it. */
  function ClickByCordsSpec(locator: string, opts: ClickByCordsOptions, outcomes: seq<bool>): ClickRun
  {
    var t := RetryTally(outcomes, opts.maxAttempts);
    ClickRun(
      t.attempts,
      Repeat(Fixed(opts.delayBetweenAttempts), t.attempts),
      t.succeeded,
      if !t.succeeded && opts.isRequired then Some(ClickFailure(locator)) else None)
  }

  /** `click_by_cords`, attempt by attempt; `outcomes[i]` says whether the
      visibility wait, hover and mouse click of attempt i all went through. */
  method ClickByCords(locator: string, opts: ClickByCordsOptions, outcomes: seq<bool>) returns (r: ClickRun)
    ensures r == ClickByCordsSpec(locator, opts, outcomes)
  {
    var sleeps: seq<Sleep> := [];
    var isSuccessClick := false;
    var attempts: nat := 0;
    while attempts < opts.maxAttempts
      invariant attempts <= Budget(opts.maxAttempts)
      invariant !isSuccessClick
      invariant forall j :: 0 <= j < attempts ==> !Answer(outcomes, j)
      invariant sleeps == Repeat(Fixed(opts.delayBetweenAttempts), attempts)
    {
      if Answer(outcomes, attempts) {
        isSuccessClick := true;
      }
      attempts := attempts + 1;
      sleeps := sleeps + [Fixed(opts.delayBetweenAttempts)];
      if isSuccessClick {
        break;
      }
    }
    var error := if !isSuccessClick && opts.isRequired then Some(ClickFailure(locator)) else None;
    r := ClickRun(attempts, sleeps, isSuccessClick, error);
  }

  /** `click_by_cords` raises iff no attempt within the budget succeeded and the
      call is required, exactly as `click` does on the same answers. */
  lemma ClickByCordsRaisesIff(locator: string, opts: ClickByCordsOptions, outcomes: seq<bool>)
    ensures ClickByCordsSpec(locator, opts, outcomes).error.Some?
        <==> opts.isRequired && forall j :: 0 <= j < Budget(opts.maxAttempts) ==> !Answer(outcomes, j)
    ensures var c := ClickSpec(locator, ClickOptions(opts.maxAttempts, 0.0, opts.delayBetweenAttempts, opts.isRequired), outcomes);
      var d := ClickByCordsSpec(locator, opts, outcomes);
      d.attempts == c.attempts && d.clicked == c.clicked && d.error == c.error && c.sleeps == [Fixed(0.0)] + d.sleeps
  {
    SucceedsIffSomeAttemptSucceeds(outcomes, opts.maxAttempts);
  }

  /** An element's bounding box as the browser reports it. */
  datatype Box = Box(x: real, y: real, width: real, height: real)

  /** The point `click_by_cords` moves the mouse to: the box corner plus its
      size divided by the offset, or by 2 when the offset is 0; an element
      without a box is treated as the empty box at the origin. */
  function ClickPoint(box: Option<Box>, offsetX: real, offsetY: real): (real, real)
  {
    var b := if box.Some? then box.value else Box(0.0, 0.0, 0.0, 0.0);
    (b.x + b.width / (if offsetX == 0.0 then 2.0 else offsetX),
     b.y + b.height / (if offsetY == 0.0 then 2.0 else offsetY))
  }

  /** The offsets are divisors, not distances: with no offset the point is the
      centre of the box, and any offset of at least 1 keeps it inside the box. */
  lemma ClickPointInsideBox(b: Box, offsetX: real, offsetY: real)
    requires 0.0 <= b.width && 0.0 <= b.height
    requires offsetX == 0.0 || 1.0 <= offsetX
    requires offsetY == 0.0 || 1.0 <= offsetY
    ensures var (px, py) := ClickPoint(Some(b), offsetX, offsetY);
      b.x <= px <= b.x + b.width && b.y <= py <= b.y + b.height
    ensures ClickPoint(Some(b), 0.0, 0.0) == (b.x + b.width / 2.0, b.y + b.height / 2.0)
  {
    ShareOfSize(b.width, if offsetX == 0.0 then 2.0 else offsetX);
    ShareOfSize(b.height, if offsetY == 0.0 then 2.0 else offsetY);
  }

  lemma ShareOfSize(size: real, divisor: real)
    requires 0.0 <= size && 1.0 <= divisor
    ensures 0.0 <= size / divisor <= size
  {
    var q := size / divisor;
    assert q * divisor == size;
    assert size <= size * divisor;
  }

  // ------------------------------------------------------------------
  // get_element and get_element_with_retry
  // ------------------------------------------------------------------

  /** A handle to an element the browser found. */
  datatype Element = Element(handle: nat)

  /** What the browser's selector wait yields on attempt `i`: the element, or
      nothing (it returned None, raised, or no answer is listed). */
  function Found(answers: seq<Option<Element>>, i: nat): Option<Element>
  {
    if i < |answers| then answers[i] else None
  }

  /** Which attempts found an element. */
  function Successes(answers: seq<Option<Element>>): (s: seq<bool>)
    ensures |s| == |answers|
    ensures forall i :: 0 <= i < |answers| ==> s[i] == answers[i].Some?
  {
    seq(|answers|, i requires 0 <= i < |answers| => answers[i].Some?)
  }

  lemma AnswerIsFound(answers: seq<Option<Element>>, i: nat)
    ensures Answer(Successes(answers), i) <==> Found(answers, i).Some?
  {
  }

  /** The options of `get_element` that reach its control logic. */
  datatype LookupOptions = LookupOptions(maxAttempts: int, delayBetweenAttempts: real, isRequired: bool)

  const DefaultLookupOptions := LookupOptions(3, 0.3, true)

  /** What a lookup did: attempts, sleeps, the element returned, the message raised. */
  datatype LookupRun = LookupRun(attempts: nat, sleeps: seq<Sleep>, element: Option<Element>, error: Option<string>)

  function LookupFailure(locator: string): string
  {
    "No element was found by locator: " + locator
  }

  /** The element of the last attempt when the loop succeeded, else nothing. */
  function LastFound(answers: seq<Option<Element>>, t: Tally): (e: Option<Element>)
    requires t.succeeded <==> 0 < t.attempts && Answer(Successes(answers), t.attempts - 1)
    ensures e.Some? <==> t.succeeded
  {
    if t.succeeded then Found(answers, t.attempts - 1) else None
  }

  /** `get_element`: one sleep per attempt; without an element it raises when
      required and returns None otherwise. */
  function GetElementSpec(locator: string, opts: LookupOptions, answers: seq<Option<Element>>): LookupRun
  {
    var t := RetryTally(Successes(answers), opts.maxAttempts);
    LookupRun(
      t.attempts,
      Repeat(Fixed(opts.delayBetweenAttempts), t.attempts),
      LastFound(answers, t),
      if !t.succeeded && opts.isRequired then Some(LookupFailure(locator)) else None)
  }

  /** `get_element`, attempt by attempt. */
  method GetElement(locator: string, opts: LookupOptions, answers: seq<Option<Element>>) returns (r: LookupRun)
    ensures r == GetElementSpec(locator, opts, answers)
  {
    var sleeps: seq<Sleep> := [];
    var attempts: nat := 0;
    var element: Option<Element> := None;
    while attempts < opts.maxAttempts && element.None?
      invariant attempts <= Budget(opts.maxAttempts)
      invariant element.None?
      invariant forall j :: 0 <= j < attempts ==> Found(answers, j).None?
      invariant sleeps == Repeat(Fixed(opts.delayBetweenAttempts), attempts)
    {
      // try: the selector wait yields an element or nothing
      element := Found(answers, attempts);
      // finally: runs before the `return` inside the try
      attempts := attempts + 1;
      sleeps := sleeps + [Fixed(opts.delayBetweenAttempts)];
      if element.Some? {
        AnswerIsFound(answers, attempts - 1);
        return LookupRun(attempts, sleeps, element, None);
      }
    }
    var error := if element.None? && opts.isRequired then Some(LookupFailure(locator)) else None;
    r := LookupRun(attempts, sleeps, element, error);
  }

  /** `get_element` returns the first element found within the budget, after
      exactly as many attempts, and does not raise. */
  lemma GetElementReturnsFirstFound(locator: string, opts: LookupOptions, answers: seq<Option<Element>>, k: nat)
    requires k < Budget(opts.maxAttempts) && Found(answers, k).Some?
    requires forall j :: 0 <= j < k ==> Found(answers, j).None?
    ensures GetElementSpec(locator, opts, answers).element == Found(answers, k)
    ensures GetElementSpec(locator, opts, answers).attempts == k + 1
    ensures GetElementSpec(locator, opts, answers).error == None
  {
    forall j | 0 <= j < k ensures !Answer(Successes(answers), j) {
      AnswerIsFound(answers, j);
    }
    AnswerIsFound(answers, k);
    AttemptsUntilFirstSuccess(Successes(answers), opts.maxAttempts, k + 1);
  }

  /** When nothing is found within the budget, `get_element` spends every
      attempt and returns None; it raises iff the call is required. */
  lemma GetElementWhenNothingFound(locator: string, opts: LookupOptions, answers: seq<Option<Element>>)
    requires forall j :: 0 <= j < Budget(opts.maxAttempts) ==> Found(answers, j).None?
    ensures GetElementSpec(locator, opts, answers).element == None
    ensures GetElementSpec(locator, opts, answers).attempts == Budget(opts.maxAttempts)
    ensures GetElementSpec(locator, opts, answers).error ==
              if opts.isRequired then Some(LookupFailure(locator)) else None
  {
    forall j | 0 <= j < Budget(opts.maxAttempts) ensures !Answer(Successes(answers), j) {
      AnswerIsFound(answers, j);
    }
    AttemptsWhenEveryAttemptFails(Successes(answers), opts.maxAttempts);
  }

  /** `get_element_with_retry`: the same lookup with no optional mode, a
      default budget of 3 and a sleep drawn from `delay` after every attempt. */
  function GetElementWithRetrySpec(locator: string, maxAttempts: int, delay: (real, real), answers: seq<Option<Element>>): (r: LookupRun)
    ensures r.error.Some? <==> r.element.None?
  {
    var t := RetryTally(Successes(answers), maxAttempts);
    LookupRun(
      t.attempts,
      Repeat(Uniform(delay.0, delay.1), t.attempts),
      LastFound(answers, t),
      if !t.succeeded then Some(LookupFailure(locator)) else None)
  }

  const DefaultRetryAttempts := 3
  const DefaultRetryDelay := (0.3, 0.5)

  /** `get_element_with_retry`, attempt by attempt. */
  method GetElementWithRetry(locator: string, maxAttempts: int, delay: (real, real), answers: seq<Option<Element>>) returns (r: LookupRun)
    ensures r == GetElementWithRetrySpec(locator, maxAttempts, delay, answers)
  {
    var sleeps: seq<Sleep> := [];
    var attempts: nat := 0;
    var element: Option<Element> := None;
    while attempts < maxAttempts && element.None?
      invariant attempts <= Budget(maxAttempts)
      invariant element.None?
      invariant forall j :: 0 <= j < attempts ==> Found(answers, j).None?
      invariant sleeps == Repeat(Uniform(delay.0, delay.1), attempts)
    {
      element := Found(answers, attempts);
      attempts := attempts + 1;
      sleeps := sleeps + [Uniform(delay.0, delay.1)];
      if element.Some? {
        AnswerIsFound(answers, attempts - 1);
        return LookupRun(attempts, sleeps, element, None);
      }
    }
    var error := if element.None? then Some(LookupFailure(locator)) else None;
    r := LookupRun(attempts, sleeps, element, error);
  }

  /** `get_element_with_retry` finds what a required `get_element` with the same
      budget finds, and raises whenever that one does: it has no optional mode. */
  lemma WithRetryIsRequiredLookup(locator: string, maxAttempts: int, delay: (real, real), delayBetweenAttempts: real, answers: seq<Option<Element>>)
    ensures var w := GetElementWithRetrySpec(locator, maxAttempts, delay, answers);
      var g := GetElementSpec(locator, LookupOptions(maxAttempts, delayBetweenAttempts, true), answers);
      w.attempts == g.attempts && w.element == g.element && w.error == g.error
    ensures var w := GetElementWithRetrySpec(locator, maxAttempts, delay, answers);
      w.error.Some? <==> forall j :: 0 <= j < Budget(maxAttempts) ==> Found(answers, j).None?
  {
    var w := GetElementWithRetrySpec(locator, maxAttempts, delay, answers);
    if w.error.None? {
      AnswerIsFound(answers, w.attempts - 1);
    } else {
      forall j | 0 <= j < Budget(maxAttempts) ensures Found(answers, j).None? {
        AnswerIsFound(answers, j);
      }
    }
  }

  // ------------------------------------------------------------------
  // type_in_input
  // ------------------------------------------------------------------

  /** What `type_in_input` did: the lookup, the element and text it filled in,
      and the message raised, if any. */
  datatype TypeRun = TypeRun(lookup: LookupRun, filled: Option<(Element, string)>, error: Option<string>)

  function TypeFailure(cause: string): string
  {
    "Error while typing in input: " + cause
  }

  /** `type_in_input`: look the input up with `get_element_with_retry`'s
      defaults, then fill it; `fillError` is the browser's message when the
      fill raises. Any failure raises only when the call is required. */
  function TypeInInputSpec(locator: string, text: string, isRequired: bool, answers: seq<Option<Element>>, fillError: Option<string>): TypeRun
  {
    var lookup := GetElementWithRetrySpec(locator, DefaultRetryAttempts, DefaultRetryDelay, answers);
    if lookup.error.Some? then
      TypeRun(lookup, None, if isRequired then Some(TypeFailure(lookup.error.value)) else None)
    else if fillError.Some? then
      TypeRun(lookup, None, if isRequired then Some(TypeFailure(fillError.value)) else None)
    else
      TypeRun(lookup, Some((lookup.element.value, text)), None)
  }

  /** `type_in_input`. */
  method TypeInInput(locator: string, text: string, isRequired: bool, answers: seq<Option<Element>>, fillError: Option<string>) returns (r: TypeRun)
    ensures r == TypeInInputSpec(locator, text, isRequired, answers, fillError)
  {
    var lookup := GetElementWithRetry(locator, DefaultRetryAttempts, DefaultRetryDelay, answers);
    var cause: Option<string> := None;
    if lookup.error.Some? {
      cause := lookup.error;
    } else if fillError.Some? {
      cause := fillError;
    }
    if cause.Some? {
      // except: re-raise only when required
      var error := if isRequired then Some(TypeFailure(cause.value)) else None;
      return TypeRun(lookup, None, error);
    }
    r := TypeRun(lookup, Some((lookup.element.value, text)), None);
  }

  /** A call that is not required never raises; a required call raises iff the
      text was not filled in; the text is filled in iff some attempt of the
      lookup finds the input and the fill goes through. */
  lemma TypeInInputSuppressesOptionalErrors(locator: string, text: string, isRequired: bool, answers: seq<Option<Element>>, fillError: Option<string>)
    ensures var r := TypeInInputSpec(locator, text, isRequired, answers, fillError);
      (!isRequired ==> r.error == None) &&
      (isRequired ==> (r.error.Some? <==> r.filled.None?))
    ensures var r := TypeInInputSpec(locator, text, isRequired, answers, fillError);
      r.filled.Some? <==>
        fillError.None? && exists j :: 0 <= j < DefaultRetryAttempts && Found(answers, j).Some?
    ensures var r := TypeInInputSpec(locator, text, isRequired, answers, fillError);
      r.filled.Some? ==> r.filled.value.1 == text && Some(r.filled.value.0) == r.lookup.element
  {
    var w := GetElementWithRetrySpec(locator, DefaultRetryAttempts, DefaultRetryDelay, answers);
    WithRetryIsRequiredLookup(locator, DefaultRetryAttempts, DefaultRetryDelay, 0.0, answers);
    if w.error.Some? {
      assert forall j :: 0 <= j < DefaultRetryAttempts ==> Found(answers, j).None?;
    }
  }
}
