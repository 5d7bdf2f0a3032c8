/**
 * The polling loops of veo3-common.js (shared with generateBaseImage of
 * veo3-character-video.js): the wait for an enabled Create button, the
 * image-generation poll with its navigation-error counter, the prompt and
 * Create-button search of inputPromptAndCreate, waitForVideoGeneration, and
 * the three waits of extendSceneInternal.
 *
 * Every loop is driven by an observation trace indexed by poll number; each
 * loop's clock advances only by its own sleeps.
 */
module Veo3Generation {
  import opened Wrappers
  import opened Text
  import opened Page
  import Veo3Project

  /** The failure phrase the service shows: "could not generate". */
  const CouldNotGenerate := "生成できませんでした"

  /** The text shows the service's failure, in Japanese or English. */
  predicate ShowsGenerationFailure(t: string)
  {
    Contains(t, CouldNotGenerate) || Contains(t, "Could not generate")
  }

  /** The message V8 gives a TypeError when a method is called on null. */
  function NullRead(methodName: string): string
  {
    "Cannot read properties of null (reading '" + methodName + "')"
  }

  // ---------------------------------------------------------------
  // The Create button wait of generateImage / generateBaseImage
  // ---------------------------------------------------------------

  /** findElement over the Create button selectors. */
  function FindButton(p: Page, sels: seq<string>): Option<Element>
  {
    match FirstVisible(p, sels)
    case None => None
    case Some(h) => Some(h.el)
  }

  /**
   * Whether the loop stops waiting for this button. As written
   * (`strict == false`) the test is `!disabled`, so a `disabled=""`
   * attribute, the usual form of a boolean attribute, reads as enabled; the
   * intended test (`strict`) is `disabled === null`, as inputPromptAndCreate
   * writes it.
   */
  predicate Ready(e: Element, strict: bool)
  {
    if strict then Attr(e, "disabled").None?
    else Attr(e, "disabled").None? || Attr(e, "disabled") == Some("")
  }

  /** The wait from check i on, holding the button found last. Ok((n, e)): e is clicked after n waits. */
  function CreateWaitFrom(pages: nat -> Page, sels: seq<string>, strict: bool, i: nat, cur: Option<Element>): Result<(nat, Element)>
    requires i <= 10
    decreases 10 - i
  {
    if cur.None? then Err(NullRead(if i == 10 then "evaluate" else "getAttribute"))
    else if i == 10 || Ready(cur.value, strict) then Ok((i, cur.value))
    else CreateWaitFrom(pages, sels, strict, i + 1, FindButton(pages(i + 1), sels))
  }

  /** Specification of the wait: `pages(i)` is the page when the button is looked up for the i-th time. */
  function CreateWait(pages: nat -> Page, sels: seq<string>, strict: bool): Result<(nat, Element)>
  {
    match FindButton(pages(0), sels)
    case None => Err("Create button not found")
    case Some(e) => CreateWaitFrom(pages, sels, strict, 0, Some(e))
  }

  /** Up to ten checks of the button's `disabled` attribute, looking the button up again after each wait. */
  method WaitCreateButton(pages: nat -> Page, sels: seq<string>, strict: bool) returns (r: Result<(nat, Element)>)
    ensures r == CreateWait(pages, sels, strict)
  {
    var createBtn := FindButton(pages(0), sels);
    if createBtn.None? {
      return Err("Create button not found");
    }
    var i := 0;
    while i < 10
      invariant 0 <= i <= 10
      invariant CreateWait(pages, sels, strict) == CreateWaitFrom(pages, sels, strict, i, createBtn)
    {
      if createBtn.None? {
        return Err(NullRead("getAttribute"));
      }
      if Ready(createBtn.value, strict) {
        return Ok((i, createBtn.value));
      }
      createBtn := FindButton(pages(i + 1), sels);
      i := i + 1;
    }
    if createBtn.None? {
      return Err(NullRead("evaluate"));
    }
    return Ok((10, createBtn.value));
  }

  /** A click comes after n checks, on the button found by the n-th lookup; the earlier buttons were all still waiting. */
  lemma {:induction false} CreateWaitFromSound(pages: nat -> Page, sels: seq<string>, strict: bool, i: nat, cur: Option<Element>)
    requires i <= 10 && (i > 0 ==> cur == FindButton(pages(i), sels))
    ensures var r := CreateWaitFrom(pages, sels, strict, i, cur);
      r.Ok? ==>
        (i <= r.value.0 <= 10 && (r.value.0 > i ==> FindButton(pages(r.value.0), sels) == Some(r.value.1)) &&
         (r.value.0 == i ==> cur == Some(r.value.1)) &&
         (r.value.0 < 10 ==> Ready(r.value.1, strict)) &&
         forall j :: i < j < r.value.0 ==> FindButton(pages(j), sels).Some? && !Ready(FindButton(pages(j), sels).value, strict))
    decreases 10 - i
  {
    if cur.Some? && i < 10 && !Ready(cur.value, strict) {
      var next := FindButton(pages(i + 1), sels);
      assert CreateWaitFrom(pages, sels, strict, i, cur) == CreateWaitFrom(pages, sels, strict, i + 1, next);
      CreateWaitFromSound(pages, sels, strict, i + 1, next);
    }
  }

  /** With the intended test, a button clicked before the tenth check carries no `disabled` attribute. */
  lemma StrictWaitClicksEnabled(pages: nat -> Page, sels: seq<string>)
    ensures var r := CreateWait(pages, sels, true);
      r.Ok? && r.value.0 < 10 ==> Attr(r.value.1, "disabled").None?
  {
    var first := FindButton(pages(0), sels);
    if first.Some? {
      CreateWaitFromSound(pages, sels, true, 0, first);
    }
  }

  /**
   * As written, a button rendered `disabled=""` is clicked at the first
   * check, without waiting; the intended test keeps waiting for it.
   */
  lemma DisabledEmptyCountsAsEnabled(pages: nat -> Page, sels: seq<string>, e: Element)
    requires FindButton(pages(0), sels) == Some(e) && Attr(e, "disabled") == Some("")
    ensures CreateWait(pages, sels, false) == Ok((0, e))
    ensures CreateWait(pages, sels, true) != Ok((0, e))
  {
  }

  // ---------------------------------------------------------------
  // The image-generation poll of generateImage / generateBaseImage
  // ---------------------------------------------------------------

  /** An evaluate error caused by the page navigating away. */
  predicate IsNavigationError(msg: string)
  {
    Contains(msg, "Execution context was destroyed") || Contains(msg, "navigation")
  }

  const ImageFailedMessage := "Image generation failed: " + CouldNotGenerate

  /** One poll: the page's text (or the evaluate error) and the completion check (or the error it threw). */
  datatype ImagePoll = ImagePoll(text: Result<string>, check: Result<bool>)

  /** What one poll decides. */
  datatype Step = Continue | Done | Fail(msg: string) | Navigated

  /**
   * The decision of one poll: a failure text throws; a navigation error
   * skips the rest of the poll; another evaluate error carrying the failure
   * phrase is rethrown; otherwise the completion check decides, its own
   * errors being ignored.
   */
  function PollStep(o: ImagePoll): (s: Step)
    ensures s.Fail? ==> Contains(s.msg, CouldNotGenerate)
  {
    var checked := if o.check == Ok(true) then Done else Continue;
    match o.text
    case Ok(t) =>
      if ShowsGenerationFailure(t) then
        ContainsMiddle("Image generation failed: ", CouldNotGenerate, "");
        assert "Image generation failed: " + CouldNotGenerate + "" == ImageFailedMessage;
        Fail(ImageFailedMessage)
      else checked
    case Err(m) =>
      if IsNavigationError(m) then Navigated
      else if Contains(m, CouldNotGenerate) then Fail(m)
      else checked
  }

  /** A poll that ends the loop. */
  predicate Final(s: Step)
  {
    s.Done? || s.Fail?
  }

  /** The navigation-error counter and the number of 5-second pauses after polls 0..n-1, each poll decided by `decide`. */
  function Streak(polls: nat -> ImagePoll, decide: ImagePoll -> Step, n: nat): (nat, nat)
  {
    if n == 0 then (0, 0) else Tally(Streak(polls, decide, n - 1), decide(polls(n - 1)), polls(n - 1))
  }

  /** How one poll updates the counter and the pauses: the third navigation error in a row pauses and resets it, a page text resets it. */
  function Tally(s: (nat, nat), step: Step, o: ImagePoll): (nat, nat)
  {
    if step == Navigated then (if s.0 + 1 >= 3 then (0, s.1 + 1) else (s.0 + 1, s.1))
    else if o.text.Ok? then (0, s.1)
    else s
  }

  /**
   * The generation wait: at most 120 polls. Ok(k): poll k saw the finished
   * image. Also returns how many stabilising pauses the
   * consecutive-navigation-error counter caused.
   */
  method WaitForImage(polls: nat -> ImagePoll) returns (r: Result<nat>, pauses: nat)
    ensures r.Ok? ==> r.value < 120 && PollStep(polls(r.value)) == Done
    ensures r.Ok? ==> forall j :: 0 <= j < r.value ==> !Final(PollStep(polls(j)))
    ensures r.Ok? ==> pauses == Streak(polls, PollStep, r.value).1
    ensures r.Err? ==>
      (exists k :: 0 <= k < 120 && PollStep(polls(k)) == Fail(r.msg) && forall j :: 0 <= j < k ==> !Final(PollStep(polls(j)))) ||
      (r.msg == "Image generation timed out" && forall j :: 0 <= j < 120 ==> !Final(PollStep(polls(j))) && pauses == Streak(polls, PollStep, 120).1)
  {
    r, pauses := PollImage(polls, PollStep);
  }

  /** The loop of the generation wait, for any decision of one poll. */
  method PollImage(polls: nat -> ImagePoll, decide: ImagePoll -> Step) returns (r: Result<nat>, pauses: nat)
    ensures r.Ok? ==> r.value < 120 && decide(polls(r.value)) == Done
    ensures r.Ok? ==> forall j :: 0 <= j < r.value ==> !Final(decide(polls(j)))
    ensures r.Ok? ==> pauses == Streak(polls, decide, r.value).1
    ensures r.Err? ==>
      (exists k :: 0 <= k < 120 && decide(polls(k)) == Fail(r.msg) && forall j :: 0 <= j < k ==> !Final(decide(polls(j)))) ||
      (r.msg == "Image generation timed out" && forall j :: 0 <= j < 120 ==> !Final(decide(polls(j))) && pauses == Streak(polls, decide, 120).1)
  {
    var consecutiveErrors := 0;
    pauses := 0;
    var i := 0;
    while i < 120
      invariant 0 <= i <= 120
      invariant forall j :: 0 <= j < i ==> !Final(decide(polls(j)))
      invariant (consecutiveErrors, pauses) == Streak(polls, decide, i)
    {
      var o := polls(i);
      var step := decide(o);
      if step == Navigated {
        consecutiveErrors := consecutiveErrors + 1;
        if consecutiveErrors >= 3 {
          pauses := pauses + 1;
          consecutiveErrors := 0;
        }
        i := i + 1;
        continue;
      }
      if o.text.Ok? {
        consecutiveErrors := 0;
      }
      if step.Fail? {
        return Err(step.msg), pauses;
      }
      if step == Done {
        return Ok(i), pauses;
      }
      i := i + 1;
    }
    return Err("Image generation timed out"), pauses;
  }

  /** The counter never reaches three, and each pause took three navigation errors. */
  lemma {:induction false} StreakBounds(polls: nat -> ImagePoll, n: nat)
    ensures Streak(polls, PollStep, n).0 < 3
    ensures 3 * Streak(polls, PollStep, n).1 + Streak(polls, PollStep, n).0 <= n
  {
    if n > 0 {
      StreakBounds(polls, n - 1);
    }
  }

  /** Every failure the generation wait throws is one extendScene would retry. */
  lemma ImageFailureRetryable(o: ImagePoll)
    requires PollStep(o).Fail?
    ensures Veo3Project.Retryable(PollStep(o).msg)
  {
  }

  /** The completion check of generateImage: some image source looks generated, or the download button shows. */
  predicate ImageDone(srcs: seq<Option<string>>, downloadVisible: bool)
  {
    (exists i :: 0 <= i < |srcs| && GeneratedSource(srcs[i])) || downloadVisible
  }

  /** The completion check of generateBaseImage: the Add To Prompt button shows, or an image looks generated and the download button shows. */
  predicate BaseImageDone(addToPromptVisible: bool, srcs: seq<Option<string>>, downloadVisible: bool)
  {
    addToPromptVisible || ((exists i :: 0 <= i < |srcs| && GeneratedSource(srcs[i])) && downloadVisible)
  }

  /** An `img` source that counts as a generated image. */
  predicate GeneratedSource(src: Option<string>)
  {
    src.Some? && src.value != "" &&
    (StartsWith(src.value, "data:image") || Contains(src.value, "generated") || Contains(src.value, "blob:"))
  }

  /** The base-image check is the stricter one, unless the Add To Prompt button shows. */
  lemma BaseImageDoneImpliesImageDone(addToPromptVisible: bool, srcs: seq<Option<string>>, downloadVisible: bool)
    requires BaseImageDone(addToPromptVisible, srcs, downloadVisible) && !addToPromptVisible
    ensures ImageDone(srcs, downloadVisible)
  {
  }

  // ---------------------------------------------------------------
  // inputPromptAndCreate
  // ---------------------------------------------------------------

  /** The five prompt-input selectors are tried five times each. */
  const PromptSelectorCount := 5

  /**
   * The prompt-input search: `found(a, s)` says whether waiting for the s-th
   * selector on attempt a produced a visible element. Returns the first
   * (attempt, selector) pair in that order.
   */
  method FindPromptInput(found: (nat, nat) -> bool) returns (r: Result<(nat, nat)>)
    ensures r.Ok? ==> r.value.0 < 5 && r.value.1 < PromptSelectorCount && found(r.value.0, r.value.1)
    ensures r.Ok? ==> forall a, s :: 0 <= a < 5 && 0 <= s < PromptSelectorCount && (a < r.value.0 || (a == r.value.0 && s < r.value.1)) ==> !found(a, s)
    ensures r.Err? ==> r.msg == "RETRY:Prompt input not found after 5 attempts"
    ensures r.Err? ==> forall a, s :: 0 <= a < 5 && 0 <= s < PromptSelectorCount ==> !found(a, s)
  {
    var a := 0;
    while a < 5
      invariant 0 <= a <= 5
      invariant forall a', s :: 0 <= a' < a && 0 <= s < PromptSelectorCount ==> !found(a', s)
    {
      var s := 0;
      while s < PromptSelectorCount
        invariant 0 <= s <= PromptSelectorCount
        invariant forall s' :: 0 <= s' < s ==> !found(a, s')
      {
        if found(a, s) {
          return Ok((a, s));
        }
        s := s + 1;
      }
      a := a + 1;
    }
    return Err("RETRY:Prompt input not found after 5 attempts");
  }

  /**
   * The fallback Create-button search, run when findElement found none: each
   * selector's `page.$` result replaces the previous one, and the loop stops
   * at a visible one. The lookup kept is therefore the first visible one or,
   * failing that, the last selector's (possibly hidden) element. A throwing
   * lookup is not caught here.
   */
  function FallbackFrom(p: Page, sels: seq<string>, k: nat, cur: Option<Element>): (r: Result<Element>)
    requires k <= |sels|
    decreases |sels| - k
  {
    if k == |sels| then (if cur.Some? then Ok(cur.value) else Err("Create button not found"))
    else match Query(p, sels[k])
      case Throws(m) => Err(m)
      case Absent => FallbackFrom(p, sels, k + 1, None)
      case Found(e) => if e.visible then Ok(e) else FallbackFrom(p, sels, k + 1, Some(e))
  }

  /** The Create button inputPromptAndCreate clicks: findElement's, or the fallback search's. */
  method FindCreateButton(p: Page, primary: seq<string>, fallback: seq<string>) returns (r: Result<Element>)
    ensures FindButton(p, primary).Some? ==> r == Ok(FindButton(p, primary).value)
    ensures FindButton(p, primary).None? ==> r == FallbackFrom(p, fallback, 0, None)
  {
    var createBtn := FindButton(p, primary);
    if createBtn.Some? {
      return Ok(createBtn.value);
    }
    var k := 0;
    while k < |fallback|
      invariant 0 <= k <= |fallback|
      invariant FallbackFrom(p, fallback, 0, None) == FallbackFrom(p, fallback, k, createBtn)
    {
      var found := Query(p, fallback[k]);
      if found.Throws? {
        return Err(found.msg);
      }
      createBtn := if found.Found? then Some(found.el) else None;
      if found.Found? && found.el.visible {
        return Ok(found.el);
      }
      k := k + 1;
    }
    if createBtn.None? {
      return Err("Create button not found");
    }
    return Ok(createBtn.value);
  }

  /** With no throwing lookup, the fallback keeps the first visible button, or else exactly what the last selector matched. */
  lemma {:induction false} FallbackChoice(p: Page, sels: seq<string>, k: nat, cur: Option<Element>)
    requires k <= |sels|
    requires forall j :: k <= j < |sels| ==> !Query(p, sels[j]).Throws?
    ensures var r := FallbackFrom(p, sels, k, cur);
      (exists j :: k <= j < |sels| && IsVisible(p, sels[j])) ==> r.Ok? && r.value.visible
    ensures k < |sels| && (forall j :: k <= j < |sels| ==> !IsVisible(p, sels[j])) ==>
      FallbackFrom(p, sels, k, cur) ==
        (if Query(p, sels[|sels| - 1]).Found? then Ok(Query(p, sels[|sels| - 1]).el) else Err("Create button not found"))
    decreases |sels| - k
  {
    if k < |sels| {
      var q := Query(p, sels[k]);
      if !(q.Found? && q.el.visible) {
        FallbackChoice(p, sels, k + 1, if q.Found? then Some(q.el) else None);
      }
    }
  }

  /** The disabled wait before the click: up to 20 checks of `disabled === null` on the same button; it clicks either way. */
  method WaitEnabled(disabledAt: nat -> Option<string>) returns (waits: nat)
    ensures waits <= 20
    ensures waits < 20 ==> disabledAt(waits).None?
    ensures forall j :: 0 <= j < waits ==> disabledAt(j).Some?
  {
    waits := 0;
    while waits < 20
      invariant waits <= 20
      invariant forall j :: 0 <= j < waits ==> disabledAt(j).Some?
    {
      if disabledAt(waits).None? {
        return;
      }
      waits := waits + 1;
    }
  }

  // ---------------------------------------------------------------
  // waitForVideoGeneration
  // ---------------------------------------------------------------

  /** One poll of the video wait: whether "Add to Scene" shows, and the text of a visible error dialog. */
  datatype VideoPoll = VideoPoll(addToScene: bool, errorText: Option<string>)

  const VideoPollMs := 10000

  /** The poll fails: no success yet and the dialog shows the failure phrase. */
  predicate VideoFailed(o: VideoPoll)
  {
    !o.addToScene && o.errorText.Some? && ShowsGenerationFailure(o.errorText.value)
  }

  /**
   * waitForVideoGeneration: while the elapsed time is under the timeout,
   * sleep 10 s and poll; success is checked before the error dialog. Ok(k):
   * poll k succeeded, after k + 1 sleeps.
   */
  method WaitForVideoGeneration(polls: nat -> VideoPoll, waitTimeout: int) returns (r: Result<nat>)
    ensures r.Ok? ==> VideoPollMs * r.value < waitTimeout && polls(r.value).addToScene
    ensures r.Ok? ==> forall j :: 0 <= j < r.value ==> !polls(j).addToScene && !VideoFailed(polls(j))
    ensures r.Err? ==>
      (r.msg == "RETRY:Video generation failed: " + CouldNotGenerate &&
       exists k: nat :: VideoPollMs * k < waitTimeout && VideoFailed(polls(k)) &&
         forall j :: 0 <= j < k ==> !polls(j).addToScene && !VideoFailed(polls(j))) ||
      (r.msg == "Video generation timed out" &&
       forall j: nat :: VideoPollMs * j < waitTimeout ==> !polls(j).addToScene && !VideoFailed(polls(j)))
  {
    var k: nat := 0;
    var elapsed := 0;
    while elapsed < waitTimeout
      invariant elapsed == VideoPollMs * k
      invariant forall j :: 0 <= j < k ==> !polls(j).addToScene && !VideoFailed(polls(j))
      decreases waitTimeout - elapsed
    {
      var o := polls(k);
      if o.addToScene {
        return Ok(k);
      }
      if o.errorText.Some? && ShowsGenerationFailure(o.errorText.value) {
        return Err("RETRY:Video generation failed: " + CouldNotGenerate);
      }
      elapsed := elapsed + VideoPollMs;
      k := k + 1;
    }
    forall j: nat | VideoPollMs * j < waitTimeout
      ensures !polls(j).addToScene && !VideoFailed(polls(j))
    {
      assert j < k;
    }
    return Err("Video generation timed out");
  }

  // ---------------------------------------------------------------
  // extendSceneInternal
  // ---------------------------------------------------------------

  /** The milliseconds slept after n failed menu attempts: 2000, 4000, 6000, ... */
  function MenuBackoff(n: nat): nat
  {
    if n == 0 then 0 else MenuBackoff(n - 1) + 2000 * n
  }

  /**
   * The extend-menu selection: `menu(a)` says whether the Extend option
   * showed on attempt a (1..3). Returns whether one did, and the time
   * slept between failed attempts.
   */
  method SelectExtendOption(menu: nat -> bool) returns (ok: bool, waitedMs: nat, attempts: nat)
    ensures ok <==> menu(1) || menu(2) || menu(3)
    ensures 1 <= attempts <= 3
    ensures ok ==> menu(attempts) && forall a :: 1 <= a < attempts ==> !menu(a)
    ensures !ok ==> attempts == 3
    ensures waitedMs == MenuBackoff(if ok then attempts - 1 else 3)
  {
    waitedMs := 0;
    var attempt := 1;
    while attempt <= 3
      invariant 1 <= attempt <= 4
      invariant forall a :: 1 <= a < attempt ==> !menu(a)
      invariant waitedMs == MenuBackoff(attempt - 1)
    {
      if menu(attempt) {
        return true, waitedMs, attempt;
      }
      waitedMs := waitedMs + 2000 * attempt;
      attempt := attempt + 1;
    }
    return false, waitedMs, 3;
  }

  /** The backoff grows triangularly: n failures cost 1000·n·(n+1) ms, 12 s for all three. */
  lemma {:induction false} MenuBackoffClosedForm(n: nat)
    ensures MenuBackoff(n) == 1000 * n * (n + 1)
  {
    if n > 0 {
      MenuBackoffClosedForm(n - 1);
    }
  }

  /**
   * The wait for the add-clip button to disappear: up to 30 polls, 2 s each,
   * stopping at the first poll where it is gone. Returns the polls made.
   */
  method WaitButtonGone(shown: nat -> bool) returns (polls: nat)
    ensures 1 <= polls <= 30
    ensures forall j :: 0 <= j < polls - 1 ==> shown(j)
    ensures polls < 30 ==> !shown(polls - 1)
  {
    var i := 0;
    while i < 30
      invariant 0 <= i <= 30
      invariant forall j :: 0 <= j < i ==> shown(j)
    {
      if !shown(i) {
        return i + 1;
      }
      i := i + 1;
    }
    return 30;
  }

  /** One poll of the extension wait: the clip count, whether the add-clip button shows, the text of a visible error dialog. */
  datatype ExtendPoll = ExtendPoll(clips: nat, buttonVisible: bool, errorText: Option<string>)

  const ExtendPollMs := 5000

  /** The extension finished: a clip was added and the add-clip button is back. */
  predicate Extended(o: ExtendPoll, initial: nat)
  {
    o.clips > initial && o.buttonVisible
  }

  /** The extension failed: no clip added yet and the dialog shows the failure phrase. */
  predicate ExtendFailed(o: ExtendPoll, initial: nat)
  {
    o.clips <= initial && o.errorText.Some? && ShowsGenerationFailure(o.errorText.value)
  }

  /**
   * The extension wait: `startMs` is the time already spent since the
   * clock started (the button-disappear polls). Poll k is made when
   * startMs + 5000·k is under the timeout.
   */
  method WaitExtension(polls: nat -> ExtendPoll, initial: nat, startMs: nat, waitTimeout: int) returns (r: Result<nat>)
    ensures r.Ok? ==> startMs + ExtendPollMs * r.value < waitTimeout && Extended(polls(r.value), initial)
    ensures r.Ok? ==> forall j :: 0 <= j < r.value ==> !Extended(polls(j), initial) && !ExtendFailed(polls(j), initial)
    ensures r.Err? ==>
      (r.msg == "RETRY:Scene extension failed: " + CouldNotGenerate &&
       exists k: nat :: startMs + ExtendPollMs * k < waitTimeout && ExtendFailed(polls(k), initial) &&
         forall j :: 0 <= j < k ==> !Extended(polls(j), initial) && !ExtendFailed(polls(j), initial)) ||
      (r.msg == "RETRY:Scene extension timeout" &&
       forall j: nat :: startMs + ExtendPollMs * j < waitTimeout ==> !Extended(polls(j), initial) && !ExtendFailed(polls(j), initial))
  {
    var k: nat := 0;
    var elapsed := startMs;
    while elapsed < waitTimeout
      invariant elapsed == startMs + ExtendPollMs * k
      invariant forall j :: 0 <= j < k ==> !Extended(polls(j), initial) && !ExtendFailed(polls(j), initial)
      decreases waitTimeout - elapsed
    {
      var o := polls(k);
      if o.clips > initial && o.buttonVisible {
        return Ok(k);
      }
      if o.clips <= initial && o.errorText.Some? && ShowsGenerationFailure(o.errorText.value) {
        return Err("RETRY:Scene extension failed: " + CouldNotGenerate);
      }
      elapsed := elapsed + ExtendPollMs;
      k := k + 1;
    }
    forall j: nat | startMs + ExtendPollMs * j < waitTimeout
      ensures !Extended(polls(j), initial) && !ExtendFailed(polls(j), initial)
    {
      assert j < k;
    }
    return Err("RETRY:Scene extension timeout");
  }

  /** A poll where a clip was added but the button is still hidden is never a failure, whatever its dialog says. */
  lemma ClipAddedSkipsErrorCheck(o: ExtendPoll, initial: nat)
    requires o.clips > initial && !o.buttonVisible
    ensures !Extended(o, initial) && !ExtendFailed(o, initial)
  {
  }

  /**
   * extendSceneInternal: select the Extend option, enter the prompt and
   * click Create (`create`: the error inputPromptAndCreate threw, if any),
   * wait for the add-clip button to go, then wait for the new clip.
   * Ok(k): the clip was seen at poll k.
   */
  method ExtendSceneInternal(menu: nat -> bool, create: Option<string>, shown: nat -> bool,
                             polls: nat -> ExtendPoll, initial: nat, waitTimeout: int) returns (r: Result<nat>)
    ensures !(menu(1) || menu(2) || menu(3)) ==> r == Err("Failed to select extend option after 3 attempts")
    ensures (menu(1) || menu(2) || menu(3)) && create.Some? ==> r == Err(create.value)
    ensures r.Ok? ==> Extended(polls(r.value), initial) && forall j :: 0 <= j < r.value ==> !ExtendFailed(polls(j), initial)
    ensures (menu(1) || menu(2) || menu(3)) && create.None? && r.Err? ==> Veo3Project.Retryable(r.msg)
  {
    var ok, _, _ := SelectExtendOption(menu);
    if !ok {
      return Err("Failed to select extend option after 3 attempts");
    }
    if create.Some? {
      return Err(create.value);
    }
    var gonePolls := WaitButtonGone(shown);
    r := WaitExtension(polls, initial, 2000 * gonePolls, waitTimeout);
    if r.Err? {
      assert OccursAt(r.msg, "RETRY:", 0);
    }
  }
}
