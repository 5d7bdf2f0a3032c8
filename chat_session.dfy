/**
 * The session logic of the two chat drivers (gemini-auto.js, gpt-auto.js):
 * error classification, the two polling loops, navigation retry, the
 * logged-in checks, and the per-prompt loop that turns answers and errors
 * into the `result_p<index>` object printed at the end.
 *
 * The browser is abstract: a poll's outcome and every page interaction's
 * outcome are inputs, indexed by poll or by (prompt position, attempt).
 */
module ChatSession {
  import opened Wrappers
  import opened Text
  import opened Json
  import opened ChatInput
  import P = Page

  // ---------------------------------------------------------------
  // isTargetClosedError
  // ---------------------------------------------------------------

  /** The message says the page, context or browser went away. */
  predicate IsTargetClosedError(msg: string)
  {
    Contains(msg, "Target page, context or browser has been closed") ||
    Contains(msg, "Target closed") ||
    Contains(msg, "has been closed") ||
    Contains(msg, "Browser has been closed") ||
    Contains(msg, "Browser disconnected")
  }

  /** Two of the five patterns are covered by `has been closed`, so three substrings decide it. */
  lemma TargetClosedThreePatterns(msg: string)
    ensures IsTargetClosedError(msg) <==>
      Contains(msg, "Target closed") || Contains(msg, "has been closed") || Contains(msg, "Browser disconnected")
  {
    var long := "Target page, context or browser has been closed";
    var browser := "Browser has been closed";
    var tail := "has been closed";
    assert OccursAt(long, tail, 32);
    assert OccursAt(browser, tail, 8);
    if Contains(msg, long) {
      ContainsTrans(msg, long, tail);
    }
    if Contains(msg, browser) {
      ContainsTrans(msg, browser, tail);
    }
  }

  // ---------------------------------------------------------------
  // waitForCondition
  // ---------------------------------------------------------------

  /** What one call of the polled function did: a truthy value, a falsy value, or a throw. */
  datatype Poll = Truthy | Falsy | Raised

  function TimeoutMessage(what: string, timeoutMs: int): string
  {
    "Timeout waiting for " + what + " (" + IntString(timeoutMs) + "ms)"
  }

  lemma MulMono(a: nat, j: nat, k: nat)
    requires j >= k
    ensures a * j >= a * k
  {
  }

  /**
   * waitForCondition: `fn(k)` is the k-th call's outcome, made at elapsed
   * time interval*k. It returns (the index of the successful call) on the
   * first truthy outcome, and throws the timeout message once the elapsed
   * time exceeds the timeout. Throws of `fn` count as falsy.
   */
  method WaitForCondition(fn: nat -> Poll, timeoutMs: int, intervalMs: nat, what: string) returns (r: Result<nat>)
    requires intervalMs > 0
    ensures r.Ok? ==> fn(r.value) == Truthy && intervalMs * r.value <= timeoutMs
    ensures r.Ok? ==> forall j :: 0 <= j < r.value ==> fn(j) != Truthy
    ensures r.Err? ==> r.msg == TimeoutMessage(what, timeoutMs)
    ensures r.Err? ==> forall j: nat :: intervalMs * j <= timeoutMs ==> fn(j) != Truthy
  {
    var k: nat := 0;
    var elapsed := 0;
    while true
      invariant elapsed == intervalMs * k
      invariant forall j :: 0 <= j < k ==> fn(j) != Truthy
      decreases if elapsed <= timeoutMs then timeoutMs - elapsed + 1 else 0
    {
      if elapsed > timeoutMs {
        forall j: nat | intervalMs * j <= timeoutMs
          ensures fn(j) != Truthy
        {
          if j >= k {
            MulMono(intervalMs, j, k);
          }
        }
        return Err(TimeoutMessage(what, timeoutMs));
      }
      if fn(k) == Truthy {
        return Ok(k);
      }
      elapsed := elapsed + intervalMs;
      k := k + 1;
    }
  }

  // ---------------------------------------------------------------
  // waitForAnswerStable
  // ---------------------------------------------------------------

  /** One poll: how many answer blocks exist, the last one's text ('' if unreadable), and whether a stop button shows. */
  datatype AnswerPoll = AnswerPoll(count: nat, text: string, generating: bool)

  const AnswerPollMs := 500

  /**
   * The tracked state after polls 0..k-1: the last text seen and the poll at
   * which it last changed. Polls with no answer block leave it alone.
   */
  function Track(obs: nat -> AnswerPoll, k: nat): (r: (Option<string>, nat))
    ensures r.1 <= k
  {
    if k == 0 then (None, 0)
    else
      var (lastText, lastChange) := Track(obs, k - 1);
      var o := obs(k - 1);
      if o.count == 0 then (lastText, lastChange)
      else if lastText.None? || o.text != lastText.value then (Some(o.text), k - 1)
      else (lastText, lastChange)
  }

  /** At poll k the answer counts as settled: a block exists, nothing is generating, and the text has not changed for the window. */
  predicate Settled(obs: nat -> AnswerPoll, windowMs: int, k: nat)
  {
    obs(k).count > 0 && !obs(k).generating && AnswerPollMs * k - AnswerPollMs * Track(obs, k + 1).1 >= windowMs
  }

  function StabilizeTimeoutMessage(timeoutMs: int): string
  {
    "Timeout waiting for answer to stabilize (" + IntString(timeoutMs) + "ms)"
  }

  /**
   * waitForAnswerStable: polls every 500 ms; returns the text of the first
   * settled poll, or throws once the elapsed time exceeds the timeout.
   */
  method WaitForAnswerStable(obs: nat -> AnswerPoll, timeoutMs: int, windowMs: int) returns (r: Result<string>, poll: nat)
    ensures r.Ok? ==> Settled(obs, windowMs, poll) && r.value == obs(poll).text && AnswerPollMs * poll <= timeoutMs
    ensures r.Ok? ==> forall j :: 0 <= j < poll ==> !Settled(obs, windowMs, j)
    ensures r.Err? ==> r.msg == StabilizeTimeoutMessage(timeoutMs)
    ensures r.Err? ==> forall j: nat :: AnswerPollMs * j <= timeoutMs ==> !Settled(obs, windowMs, j)
  {
    var k: nat := 0;
    var elapsed := 0;
    var lastText: Option<string> := None;
    var lastChange: nat := 0;
    while true
      invariant elapsed == AnswerPollMs * k
      invariant (lastText, lastChange) == Track(obs, k)
      invariant forall j :: 0 <= j < k ==> !Settled(obs, windowMs, j)
      decreases if elapsed <= timeoutMs then timeoutMs - elapsed + 1 else 0
    {
      if elapsed > timeoutMs {
        forall j: nat | AnswerPollMs * j <= timeoutMs
          ensures !Settled(obs, windowMs, j)
        {
          assert j < k;
        }
        return Err(StabilizeTimeoutMessage(timeoutMs)), 0;
      }
      var o := obs(k);
      if o.count > 0 {
        if lastText.None? || o.text != lastText.value {
          lastText := Some(o.text);
          lastChange := k;
        }
        if !o.generating && elapsed - AnswerPollMs * lastChange >= windowMs {
          return Ok(lastText.value), k;
        }
      }
      elapsed := elapsed + AnswerPollMs;
      k := k + 1;
    }
  }

  /** What the tracked state means: the last text seen, first seen at the recorded poll and unchanged since. */
  lemma {:induction false} TrackMeaning(obs: nat -> AnswerPoll, k: nat)
    ensures var (lastText, lastChange) := Track(obs, k);
      (lastText.None? <==> forall j :: 0 <= j < k ==> obs(j).count == 0) &&
      (lastText.Some? ==>
         (lastChange < k && obs(lastChange).count > 0 && obs(lastChange).text == lastText.value &&
          forall j :: lastChange <= j < k && obs(j).count > 0 ==> obs(j).text == lastText.value))
  {
    if k > 0 {
      TrackMeaning(obs, k - 1);
    }
  }

  /**
   * The returned answer is genuinely stable: every poll that saw an answer
   * block during the last `windowMs` milliseconds saw exactly this text.
   */
  lemma SettledMeansUnchanged(obs: nat -> AnswerPoll, windowMs: int, k: nat)
    requires Settled(obs, windowMs, k)
    ensures var since := Track(obs, k + 1).1;
      AnswerPollMs * (k - since) >= windowMs &&
      forall j :: since <= j <= k && obs(j).count > 0 ==> obs(j).text == obs(k).text
  {
    TrackMeaning(obs, k + 1);
    var (lastText, _) := Track(obs, k + 1);
    assert lastText == Some(obs(k).text);
  }

  // ---------------------------------------------------------------
  // gotoWithRetry
  // ---------------------------------------------------------------

  /** The outcome of gotoWithRetry: arrived on an attempt, rethrew a foreign error, or ran out of attempts. */
  datatype GotoOutcome = Arrived(attempt: nat) | Rethrown(attempt: nat, msg: string) | Exhausted(msg: string)

  /** Attempt `i` failed with a target-closed error. */
  predicate ClosedAt(attempts: nat -> Option<string>, i: nat)
  {
    attempts(i).Some? && IsTargetClosedError(attempts(i).value)
  }

  /** The error thrown once every attempt failed: it names the last attempt's error, or null when no attempt was made. */
  function GotoFailedMessage(attempts: nat -> Option<string>, tries: int): string
  {
    "goto failed after retries: " + (if tries >= 1 && attempts(tries).Some? then attempts(tries).value else "null")
  }

  /** How many attempts failed with a target-closed error (each is followed by a reconnect in CDP mode). */
  function ClosedFailures(o: GotoOutcome, tries: int): nat
  {
    match o
    case Arrived(i) => if i > 0 then i - 1 else 0
    case Rethrown(i, _) => if i > 0 then i - 1 else 0
    case Exhausted(_) => if tries > 0 then tries else 0
  }

  /**
   * The TypeError `page.goto` throws once `page` is null. After a
   * target-closed attempt the loop sets `page = null`, and only CDP mode
   * makes a new page (ensureLiveCDPPage returns at once without a CDP URL).
   */
  const NullGotoMessage := "Cannot read properties " + "of null (reading 'goto')"

  /** The outcome attempt i meets: in launch mode every attempt after the first finds the page null. */
  function Seen(attempts: nat -> Option<string>, cdp: bool): nat -> Option<string>
  {
    (i: nat) => if !cdp && i > 1 then Some(NullGotoMessage) else attempts(i)
  }

  /** The retry loop from attempt i on, over the outcomes the attempts meet. */
  function GotoFrom(seen: nat -> Option<string>, tries: int, i: nat): GotoOutcome
    requires i >= 1
    decreases tries - i
  {
    if i > tries then Exhausted(GotoFailedMessage(seen, tries))
    else if seen(i).None? then Arrived(i)
    else if !IsTargetClosedError(seen(i).value) then Rethrown(i, seen(i).value)
    else GotoFrom(seen, tries, i + 1)
  }

  /** A string lacking a pattern's first character does not contain the pattern. */
  lemma MissingFirstChar(s: string, p: string)
    requires |p| > 0 && p[0] !in s
    ensures !Contains(s, p)
  {
  }

  /** The null-page TypeError is not a target-closed error, so the loop rethrows it. */
  lemma NullGotoNotClosed()
    ensures !IsTargetClosedError(NullGotoMessage)
  {
    TargetClosedThreePatterns(NullGotoMessage);
    MissingFirstChar(NullGotoMessage, "Target closed");
    MissingFirstChar(NullGotoMessage, "has been closed");
    MissingFirstChar(NullGotoMessage, "Browser disconnected");
  }

  /** As written, launch mode: a target-closed first attempt is followed by the null-page TypeError, which is rethrown. */
  lemma LaunchRetryRethrows(attempts: nat -> Option<string>, tries: int)
    requires tries >= 2 && ClosedAt(attempts, 1)
    ensures GotoFrom(Seen(attempts, false), tries, 1) == Rethrown(2, NullGotoMessage)
  {
    NullGotoNotClosed();
    assert Seen(attempts, false)(1) == attempts(1);
    assert Seen(attempts, false)(2) == Some(NullGotoMessage);
  }

  /** As written, launch mode: the navigation can only arrive on the first attempt, and runs out of attempts only when there is at most one. */
  lemma LaunchArrivesFirstOnly(attempts: nat -> Option<string>, tries: int)
    ensures var r := GotoFrom(Seen(attempts, false), tries, 1);
      (r.Arrived? ==> r.attempt == 1) && (r.Exhausted? ==> tries <= 1)
  {
    if tries >= 2 && ClosedAt(attempts, 1) {
      LaunchRetryRethrows(attempts, tries);
    }
  }

  /** Corrected: when every retry gets a fresh page, attempt k arrives whenever the attempts before it all closed. */
  lemma {:induction false} RecreatingRetryArrives(attempts: nat -> Option<string>, tries: int, i: nat, k: nat)
    requires 1 <= i <= k <= tries && attempts(k).None?
    requires forall j :: i <= j < k ==> ClosedAt(attempts, j)
    ensures GotoFrom(attempts, tries, i) == Arrived(k)
    decreases k - i
  {
    if i < k {
      assert ClosedAt(attempts, i);
      RecreatingRetryArrives(attempts, tries, i + 1, k);
    }
  }

  /** One closed attempt and then a page that loads: the script rethrows the TypeError on attempt 2, while a fresh page would have arrived. */
  lemma SampleLaunchRetry()
    ensures var attempts := (j: nat) => if j == 1 then Some("Target closed") else None;
      GotoFrom(Seen(attempts, false), 3, 1) == Rethrown(2, NullGotoMessage) &&
      GotoFrom(attempts, 3, 1) == Arrived(2)
  {
    var attempts := (j: nat) => if j == 1 then Some("Target closed") else None;
    assert OccursAt("Target closed", "Target closed", 0);
    assert ClosedAt(attempts, 1);
    LaunchRetryRethrows(attempts, 3);
    RecreatingRetryArrives(attempts, 3, 1, 2);
  }

  /**
   * gotoWithRetry: `attempts(i)` is what navigation attempt i does on a live
   * page (None: navigation succeeded; Some(m): it threw m). A
   * non-target-closed error is rethrown at once. A target-closed one drops the
   * page, reconnects in CDP mode and tries again, up to `tries` attempts; in
   * launch mode the next attempt meets the null page.
   */
  method GotoWithRetry(attempts: nat -> Option<string>, tries: int, cdp: bool) returns (r: GotoOutcome, reconnects: nat)
    ensures r == GotoFrom(Seen(attempts, cdp), tries, 1)
    ensures r.Arrived? ==> 1 <= r.attempt <= tries && attempts(r.attempt).None?
    ensures r.Rethrown? ==> 1 <= r.attempt <= tries && Seen(attempts, cdp)(r.attempt) == Some(r.msg) && !IsTargetClosedError(r.msg)
    ensures r.Arrived? || r.Rethrown? ==> forall j :: 1 <= j < r.attempt ==> ClosedAt(attempts, j)
    ensures r.Exhausted? ==> forall j :: 1 <= j <= tries ==> ClosedAt(attempts, j)
    ensures r.Exhausted? ==> r.msg == GotoFailedMessage(attempts, tries)
    ensures !cdp && r.Arrived? ==> r.attempt == 1
    ensures !cdp && tries >= 2 && ClosedAt(attempts, 1) ==> r == Rethrown(2, NullGotoMessage)
    ensures reconnects == (if cdp then ClosedFailures(r, tries) else 0)
  {
    ghost var seen := Seen(attempts, cdp);
    NullGotoNotClosed();
    if !cdp {
      LaunchArrivesFirstOnly(attempts, tries);
      if tries >= 2 && ClosedAt(attempts, 1) {
        LaunchRetryRethrows(attempts, tries);
      }
    }
    var lastErr: Option<string> := None;
    reconnects := 0;
    var i: nat := 1;
    while i <= tries
      invariant 1 <= i && (tries >= 1 ==> i <= tries + 1) && (tries < 1 ==> i == 1)
      invariant GotoFrom(seen, tries, i) == GotoFrom(seen, tries, 1)
      invariant forall j :: 1 <= j < i ==> ClosedAt(attempts, j)
      invariant !cdp ==> i <= 2
      invariant lastErr == (if i > 1 then attempts(i - 1) else None)
      invariant reconnects == (if cdp then i - 1 else 0)
      decreases tries - i
    {
      var outcome := if !cdp && i > 1 then Some(NullGotoMessage) else attempts(i);
      assert outcome == seen(i);
      if outcome.None? {
        return Arrived(i), reconnects;
      }
      lastErr := outcome;
      if !IsTargetClosedError(outcome.value) {
        return Rethrown(i, outcome.value), reconnects;
      }
      if cdp {
        reconnects := reconnects + 1;
      }
      i := i + 1;
    }
    r := Exhausted("goto failed after retries: " + (if lastErr.Some? then lastErr.value else "null"));
  }

  // ---------------------------------------------------------------
  // checkLoggedIn
  // ---------------------------------------------------------------

  /** gemini-auto.js: logged in unless the URL points at a Google sign-in page. */
  predicate GeminiLoggedIn(url: string)
  {
    !Contains(url, "accounts.google.com") && !Contains(url, "signin")
  }

  /** gpt-auto.js: the URL is not a login page and `#prompt-textarea` exists (visible or not); a throwing lookup propagates. */
  function GptLoggedIn(url: string, textarea: P.Lookup): (r: Result<bool>)
    ensures r.Err? <==> textarea.Throws?
    ensures r == Ok(true) <==>
      !Contains(url, "auth0") && !Contains(url, "login") && !Contains(url, "auth/") && textarea.Found?
  {
    var isLoginPage := Contains(url, "auth0") || Contains(url, "login") || Contains(url, "auth/");
    match textarea
    case Throws(m) => Err(m)
    case Absent => Ok(false)
    case Found(_) => Ok(!isLoginPage)
  }

  /**
   * openGeminiAndValidate / openChatGPTAndValidate: navigate (three tries),
   * then check the login. Returns the error thrown, or None on success.
   */
  function OpenAndValidate(g: GotoOutcome, loggedIn: Result<bool>): (r: Option<string>)
    ensures r.None? <==> g.Arrived? && loggedIn == Ok(true)
    ensures g.Rethrown? ==> r == Some(g.msg)
    ensures g.Exhausted? ==> r == Some(g.msg)
    ensures g.Arrived? && loggedIn == Ok(false) ==> r == Some("Not logged in")
    ensures g.Arrived? && loggedIn.Err? ==> r == Some(loggedIn.msg)
  {
    match g
    case Rethrown(_, m) => Some(m)
    case Exhausted(m) => Some(m)
    case Arrived(_) =>
      match loggedIn
      case Err(m) => Some(m)
      case Ok(ok) => if ok then None else Some("Not logged in")
  }

  /** openGeminiAndValidate: it succeeds exactly when the navigation arrived on a page that is not a Google sign-in page. */
  lemma GeminiOpenOutcomes(g: GotoOutcome, url: string)
    ensures OpenAndValidate(g, Ok(GeminiLoggedIn(url))).None? <==>
      g.Arrived? && !Contains(url, "accounts.google.com") && !Contains(url, "signin")
    ensures g.Arrived? ==>
      (OpenAndValidate(g, Ok(GeminiLoggedIn(url))) == Some("Not logged in") <==>
       Contains(url, "accounts.google.com") || Contains(url, "signin"))
  {
  }

  // ---------------------------------------------------------------
  // sendPromptAndGetAnswer and the per-prompt loop
  // ---------------------------------------------------------------

  /** The results key of a prompt: `result_p${idx}` with the normalised index. */
  function ResultKey(p: Prompt): string
  {
    "result_p" + (if p.index == JNull then "?" else JsString(p.index))
  }

  const SkippedValue := "(Skipped: empty prompt)"
  const NoResponseValue := "(No response)"

  function ErrorValue(msg: string): string
  {
    "(Error: " + msg + ")"
  }

  /**
   * sendPromptAndGetAnswer: an empty (after trim) prompt is skipped without
   * touching the page; otherwise `page` is the outcome of sending it and
   * waiting for the stable answer, and an empty answer becomes '(No response)'.
   */
  function SendPrompt(p: Prompt, page: Result<string>): (r: Result<string>)
    ensures Trim(p.text) == "" ==> r == Ok(SkippedValue)
    ensures Trim(p.text) != "" && page.Err? ==> r == page
    ensures Trim(p.text) != "" && page == Ok("") ==> r == Ok(NoResponseValue)
    ensures Trim(p.text) != "" && page.Ok? && page.value != "" ==> r == page
    ensures r.Ok? ==> r.value != ""
  {
    if Trim(p.text) == "" then Ok(SkippedValue)
    else match page
      case Err(m) => Err(m)
      case Ok(answer) => Ok(if answer == "" then NoResponseValue else answer)
  }

  /**
   * The value recorded for one prompt, and the number of attempts made.
   * `first` and `second` are the page outcomes of attempts 1 and 2, `reopen`
   * the outcome of reconnecting and reopening the site after a target-closed
   * error (None: success, Some(m): it threw m).
   */
  function PromptRun(p: Prompt, first: Result<string>, second: Result<string>, cdp: bool, reopen: Option<string>): (string, nat)
  {
    match SendPrompt(p, first)
    case Ok(v) => (v, 1)
    case Err(m1) =>
      if !IsTargetClosedError(m1) || !cdp then (ErrorValue(m1), 1)
      else if reopen.Some? then (ErrorValue(reopen.value), 1)
      else match SendPrompt(p, second)
        case Ok(v) => (v, 2)
        case Err(m2) => (ErrorValue(m2), 2)
  }

  /** Retry policy: a second attempt happens only after a target-closed error in CDP mode with a successful reopen; there is never a third. */
  lemma PromptRunRetriesOnce(p: Prompt, first: Result<string>, second: Result<string>, cdp: bool, reopen: Option<string>)
    ensures var (_, n) := PromptRun(p, first, second, cdp, reopen);
      1 <= n <= 2 &&
      (n == 2 <==> Trim(p.text) != "" && first.Err? && IsTargetClosedError(first.msg) && cdp && reopen.None?)
    ensures Trim(p.text) != "" && first.Err? && !IsTargetClosedError(first.msg) ==>
      PromptRun(p, first, second, cdp, reopen).0 == ErrorValue(first.msg)
    ensures Trim(p.text) == "" ==> PromptRun(p, first, second, cdp, reopen).0 == SkippedValue
  {
  }

  /** `results[key] = value` on a JavaScript object: an existing key keeps its place, a new key goes last. */
  function Put(results: seq<(string, string)>, key: string, value: string): seq<(string, string)>
  {
    if results == [] then [(key, value)]
    else if results[0].0 == key then [(key, value)] + results[1..]
    else [results[0]] + Put(results[1..], key, value)
  }

  /** Assigning a key adds exactly that key to the object's keys. */
  lemma {:induction false} PutKeys(results: seq<(string, string)>, key: string, value: string)
    ensures Keys(Put(results, key, value)) == Keys(results) + {key}
    decreases |results|
  {
    if results == [] {
      KeysCons((key, value), []);
      assert [(key, value)] + [] == [(key, value)];
    } else {
      assert results == [results[0]] + results[1..];
      KeysCons(results[0], results[1..]);
      if results[0].0 == key {
        KeysCons((key, value), results[1..]);
      } else {
        PutKeys(results[1..], key, value);
        KeysCons(results[0], Put(results[1..], key, value));
      }
    }
  }

  /** The keys of a results object. */
  function Keys(results: seq<(string, string)>): set<string>
  {
    set i | 0 <= i < |results| :: results[i].0
  }

  lemma KeysCons(h: (string, string), t: seq<(string, string)>)
    ensures Keys([h] + t) == {h.0} + Keys(t)
  {
    var s := [h] + t;
    forall x | x in Keys(s)
      ensures x in {h.0} + Keys(t)
    {
      var i :| 0 <= i < |s| && s[i].0 == x;
      if i > 0 {
        assert t[i - 1] == s[i];
      }
    }
    forall x | x in Keys(t)
      ensures x in Keys(s)
    {
      var i :| 0 <= i < |t| && t[i].0 == x;
      assert s[i + 1] == t[i];
    }
    assert s[0] == h;
  }

  /** No key appears twice, as in a JavaScript object. */
  predicate DistinctKeys(results: seq<(string, string)>)
  {
    forall i, j :: 0 <= i < j < |results| ==> results[i].0 != results[j].0
  }

  /** The value stored under a key. */
  function ValueOf(results: seq<(string, string)>, key: string): Option<string>
  {
    if results == [] then None
    else if results[0].0 == key then Some(results[0].1)
    else ValueOf(results[1..], key)
  }

  /**
   * The value and the attempt count of every prompt, by position: `send(i, a)`
   * is attempt a's page outcome for prompt i, `reopen(i)` the outcome of
   * reconnecting after prompt i's target-closed error.
   */
  function Outcomes(ps: seq<Prompt>, send: (nat, nat) -> Result<string>, cdp: bool, reopen: nat -> Option<string>): nat -> (string, nat)
  {
    (i: nat) => if i < |ps| then PromptRun(ps[i], send(i, 1), send(i, 2), cdp, reopen(i)) else ("", 0)
  }

  /** The results object and the attempt counts after the prompts of `ps`, prompt i ending as `out(i)`. */
  function Run(ps: seq<Prompt>, out: nat -> (string, nat)): (r: (seq<(string, string)>, seq<nat>))
    ensures |r.1| == |ps|
  {
    if ps == [] then ([], [])
    else
      var n := |ps| - 1;
      var (results, attempts) := Run(ps[..n], out);
      (Put(results, ResultKey(ps[n]), out(n).0), attempts + [out(n).1])
  }

  /**
   * One prompt of run()'s loop: attempt 1, and attempt 2 only after a
   * target-closed error in CDP mode once the reconnect and reopen succeeded.
   * Returns the value recorded for the prompt and the attempts made.
   */
  method RunPrompt(p: Prompt, first: Result<string>, second: Result<string>, cdp: bool, reopen: Option<string>)
    returns (value: string, attempt: nat)
    ensures (value, attempt) == PromptRun(p, first, second, cdp, reopen)
  {
    attempt := 0;
    while true
      invariant attempt <= 1
      invariant attempt == 1 ==> SendPrompt(p, first).Err? && IsTargetClosedError(SendPrompt(p, first).msg) && cdp && reopen.None?
      decreases 2 - attempt
    {
      attempt := attempt + 1;
      var outcome := SendPrompt(p, if attempt == 1 then first else second);
      if outcome.Ok? {
        return outcome.value, attempt;
      }
      var msg := outcome.msg;
      if attempt >= 2 || !IsTargetClosedError(msg) {
        return ErrorValue(msg), attempt;
      }
      if cdp {
        if reopen.Some? {
          return ErrorValue(reopen.value), attempt;
        }
      } else {
        return ErrorValue(msg), attempt;
      }
    }
  }

  /** gemini-auto.js switches the mode before a prompt when the prompt's mode is truthy and `--noModeSwitch` is absent. */
  predicate SwitchesMode(p: Prompt, noModeSwitch: bool)
  {
    !noModeSwitch && p.mode.Some? && p.mode.value != ""
  }

  /** The mode switch before prompt i runs and throws: `modeSwitch(i)` is what ensureMode throws there, if anything. */
  predicate SwitchFails(ps: seq<Prompt>, noModeSwitch: bool, modeSwitch: nat -> Option<string>, i: nat)
    requires i < |ps|
  {
    SwitchesMode(ps[i], noModeSwitch) && modeSwitch(i).Some?
  }

  /** The first prompt from i on whose mode switch throws; |ps| when none does. */
  function FirstSwitchFailure(ps: seq<Prompt>, noModeSwitch: bool, modeSwitch: nat -> Option<string>, i: nat): (f: nat)
    requires i <= |ps|
    ensures i <= f <= |ps|
    ensures forall j :: i <= j < f ==> !SwitchFails(ps, noModeSwitch, modeSwitch, j)
    ensures f < |ps| ==> SwitchFails(ps, noModeSwitch, modeSwitch, f)
    decreases |ps| - i
  {
    if i == |ps| then i
    else if SwitchFails(ps, noModeSwitch, modeSwitch, i) then i
    else FirstSwitchFailure(ps, noModeSwitch, modeSwitch, i + 1)
  }

  /**
   * The per-prompt loop of run(): before each prompt the mode switch runs when
   * SwitchesMode says so, and its exception leaves the loop (`fatal`); each
   * prompt's value is assigned into the results object. The results are those
   * of the prompts before the first failing switch.
   */
  method RunPrompts(ps: seq<Prompt>, noModeSwitch: bool, modeSwitch: nat -> Option<string>,
                    send: (nat, nat) -> Result<string>, cdp: bool, reopen: nat -> Option<string>)
    returns (results: seq<(string, string)>, attempts: seq<nat>, fatal: Option<string>)
    ensures var f := FirstSwitchFailure(ps, noModeSwitch, modeSwitch, 0);
      (results, attempts) == Run(ps[..f], Outcomes(ps, send, cdp, reopen)) &&
      fatal == (if f < |ps| then Some(modeSwitch(f).value) else None)
  {
    ghost var out := Outcomes(ps, send, cdp, reopen);
    results := [];
    attempts := [];
    for i := 0 to |ps|
      invariant FirstSwitchFailure(ps, noModeSwitch, modeSwitch, 0) == FirstSwitchFailure(ps, noModeSwitch, modeSwitch, i)
      invariant (results, attempts) == Run(ps[..i], out)
    {
      if SwitchesMode(ps[i], noModeSwitch) && modeSwitch(i).Some? {
        return results, attempts, modeSwitch(i);
      }
      var value, attempt := RunPrompt(ps[i], send(i, 1), send(i, 2), cdp, reopen(i));
      assert (value, attempt) == out(i);
      RunStep(ps, out, i);
      results := Put(results, ResultKey(ps[i]), value);
      attempts := attempts + [attempt];
    }
    return results, attempts, None;
  }

  /** What run() writes to stdout: the results object, or `{error}` from the fatal catch. */
  datatype Printed = Results(results: seq<(string, string)>) | Fatal(error: string)

  /**
   * run() from opening the site on. `opening` is what openGeminiAndValidate /
   * openChatGPTAndValidate throws, if anything (OpenAndValidate), `targetMode`
   * the `--mode` value and `targetSwitch` what the initial ensureMode throws.
   * Every exception outside the per-prompt retry reaches the fatal catch,
   * which prints only the message. gpt-auto.js has no mode switch: its run is
   * this one with no target mode and prompts without a mode.
   */
  method RunSession(ps: seq<Prompt>, opening: Option<string>, targetMode: Option<string>, noModeSwitch: bool,
                    targetSwitch: Option<string>, modeSwitch: nat -> Option<string>,
                    send: (nat, nat) -> Result<string>, cdp: bool, reopen: nat -> Option<string>)
    returns (r: Printed)
    ensures opening.Some? ==> r == Fatal(opening.value)
    ensures opening.None? && TargetSwitchFails(targetMode, noModeSwitch, targetSwitch) ==> r == Fatal(targetSwitch.value)
    ensures opening.None? && !TargetSwitchFails(targetMode, noModeSwitch, targetSwitch) ==>
      var f := FirstSwitchFailure(ps, noModeSwitch, modeSwitch, 0);
      r == (if f < |ps| then Fatal(modeSwitch(f).value) else Results(Run(ps, Outcomes(ps, send, cdp, reopen)).0))
  {
    if opening.Some? {
      return Fatal(opening.value);
    }
    if !noModeSwitch && targetMode.Some? && targetMode.value != "" && targetSwitch.Some? {
      return Fatal(targetSwitch.value);
    }
    var results, attempts, fatal := RunPrompts(ps, noModeSwitch, modeSwitch, send, cdp, reopen);
    if fatal.Some? {
      return Fatal(fatal.value);
    }
    assert ps[..|ps|] == ps;
    return Results(results);
  }

  /** The initial switch to `--mode` runs (the mode is truthy and switching is on) and throws. */
  predicate TargetSwitchFails(targetMode: Option<string>, noModeSwitch: bool, targetSwitch: Option<string>)
  {
    !noModeSwitch && targetMode.Some? && targetMode.value != "" && targetSwitch.Some?
  }

  /**
   * The session prints results exactly when opening succeeded and no mode
   * switch that ran threw; the printed object then has the prompts' keys,
   * each once, and every prompt took one or two attempts. Otherwise only the
   * first exception's message is printed and every result is dropped.
   */
  lemma RunSessionOutput(ps: seq<Prompt>, opening: Option<string>, targetMode: Option<string>, noModeSwitch: bool,
                         targetSwitch: Option<string>, modeSwitch: nat -> Option<string>,
                         send: (nat, nat) -> Result<string>, cdp: bool, reopen: nat -> Option<string>,
                         r: Printed)
    requires opening.Some? ==> r == Fatal(opening.value)
    requires opening.None? && TargetSwitchFails(targetMode, noModeSwitch, targetSwitch) ==> r == Fatal(targetSwitch.value)
    requires opening.None? && !TargetSwitchFails(targetMode, noModeSwitch, targetSwitch) ==>
      var f := FirstSwitchFailure(ps, noModeSwitch, modeSwitch, 0);
      r == (if f < |ps| then Fatal(modeSwitch(f).value) else Results(Run(ps, Outcomes(ps, send, cdp, reopen)).0))
    ensures r.Results? <==>
      opening.None? && !TargetSwitchFails(targetMode, noModeSwitch, targetSwitch) &&
      forall i :: 0 <= i < |ps| ==> !SwitchFails(ps, noModeSwitch, modeSwitch, i)
    ensures r.Results? ==> DistinctKeys(r.results) && Keys(r.results) == PromptKeys(ps)
    ensures r.Fatal? && opening.None? && !TargetSwitchFails(targetMode, noModeSwitch, targetSwitch) ==>
      exists i :: 0 <= i < |ps| && SwitchFails(ps, noModeSwitch, modeSwitch, i) && r.error == modeSwitch(i).value &&
        forall j :: 0 <= j < i ==> !SwitchFails(ps, noModeSwitch, modeSwitch, j)
  {
    var f := FirstSwitchFailure(ps, noModeSwitch, modeSwitch, 0);
    if opening.None? && !TargetSwitchFails(targetMode, noModeSwitch, targetSwitch) {
      if f == |ps| {
        RunKeys(ps, Outcomes(ps, send, cdp, reopen));
      } else {
        assert SwitchFails(ps, noModeSwitch, modeSwitch, f);
      }
    }
  }

  /** Running one more prompt assigns its outcome into the results so far. */
  lemma RunStep(ps: seq<Prompt>, out: nat -> (string, nat), i: nat)
    requires i < |ps|
    ensures Run(ps[..i + 1], out) == (Put(Run(ps[..i], out).0, ResultKey(ps[i]), out(i).0), Run(ps[..i], out).1 + [out(i).1])
  {
    assert ps[..i + 1][..i] == ps[..i];
  }

  /** Prompt i's attempt count is the one its own run decided. */
  lemma {:induction false} RunAttempts(ps: seq<Prompt>, out: nat -> (string, nat))
    ensures forall i :: 0 <= i < |ps| ==> Run(ps, out).1[i] == out(i).1
  {
    if ps != [] {
      RunAttempts(ps[..|ps| - 1], out);
    }
  }

  /** Assigning keeps the keys distinct, and the assigned key now holds the new value while the others keep theirs. */
  lemma PutFacts(results: seq<(string, string)>, key: string, value: string)
    requires DistinctKeys(results)
    ensures DistinctKeys(Put(results, key, value))
    ensures ValueOf(Put(results, key, value), key) == Some(value)
    ensures forall k :: k != key ==> ValueOf(Put(results, key, value), k) == ValueOf(results, k)
  {
    PutDistinct(results, key, value);
    PutValues(results, key, value);
  }

  /** Assigning keeps the keys distinct. */
  lemma {:induction false} PutDistinct(results: seq<(string, string)>, key: string, value: string)
    requires DistinctKeys(results)
    ensures DistinctKeys(Put(results, key, value))
    decreases |results|
  {
    if results != [] && results[0].0 != key {
      var tail := results[1..];
      PutDistinct(tail, key, value);
      PutKeys(tail, key, value);
      var rest := Put(tail, key, value);
      assert Put(results, key, value) == [results[0]] + rest;
      forall j | 0 <= j < |rest|
        ensures rest[j].0 != results[0].0
      {
        assert rest[j].0 in Keys(rest);
        if rest[j].0 != key {
          var m :| 0 <= m < |tail| && tail[m].0 == rest[j].0;
          assert results[m + 1].0 == rest[j].0;
        }
      }
    }
  }

  /** After assigning, the key holds the new value and every other key its old one. */
  lemma {:induction false} PutValues(results: seq<(string, string)>, key: string, value: string)
    ensures ValueOf(Put(results, key, value), key) == Some(value)
    ensures forall k :: k != key ==> ValueOf(Put(results, key, value), k) == ValueOf(results, k)
    decreases |results|
  {
    if results != [] && results[0].0 != key {
      PutValues(results[1..], key, value);
    }
  }


  /** The keys of a prompt list. */
  function PromptKeys(ps: seq<Prompt>): set<string>
  {
    Image(ps, ResultKey)
  }

  /** The set of values `f` takes on the elements of `ps`. */
  function Image(ps: seq<Prompt>, f: Prompt -> string): set<string>
  {
    set i | 0 <= i < |ps| :: f(ps[i])
  }

  /** The image of a non-empty sequence is the image of all but its last element, plus the last one's. */
  lemma ImageSnoc(ps: seq<Prompt>, f: Prompt -> string)
    requires ps != []
    ensures Image(ps, f) == Image(ps[..|ps| - 1], f) + {f(ps[|ps| - 1])}
  {
    var init := ps[..|ps| - 1];
    forall x | x in Image(ps, f)
      ensures x in Image(init, f) + {f(ps[|ps| - 1])}
    {
      var i :| 0 <= i < |ps| && f(ps[i]) == x;
      if i < |init| {
        assert init[i] == ps[i];
      }
    }
    forall x | x in Image(init, f)
      ensures x in Image(ps, f)
    {
      var i :| 0 <= i < |init| && f(init[i]) == x;
      assert ps[i] == init[i];
    }
  }

  /** The printed object has one entry per distinct key, and exactly the prompts' keys. */
  lemma {:induction false} RunKeys(ps: seq<Prompt>, out: nat -> (string, nat))
    ensures DistinctKeys(Run(ps, out).0)
    ensures Keys(Run(ps, out).0) == PromptKeys(ps)
  {
    if ps != [] {
      var n := |ps| - 1;
      var before := Run(ps[..n], out).0;
      assert Run(ps, out).0 == Put(before, ResultKey(ps[n]), out(n).0);
      RunKeys(ps[..n], out);
      PutDistinct(before, ResultKey(ps[n]), out(n).0);
      PutKeys(before, ResultKey(ps[n]), out(n).0);
      ImageSnoc(ps, ResultKey);
    }
  }


  /** In the printed object each key holds the value of the last prompt carrying it. */
  lemma {:induction false} RunLastWins(ps: seq<Prompt>, out: nat -> (string, nat), i: nat)
    requires i < |ps|
    requires forall j :: i < j < |ps| ==> ResultKey(ps[j]) != ResultKey(ps[i])
    ensures ValueOf(Run(ps, out).0, ResultKey(ps[i])) == Some(out(i).0)
  {
    var n := |ps| - 1;
    var init := ps[..n];
    var before := Run(init, out).0;
    assert Run(ps, out).0 == Put(before, ResultKey(ps[n]), out(n).0);
    PutValues(before, ResultKey(ps[n]), out(n).0);
    if i < n {
      assert init[i] == ps[i];
      forall j | i < j < |init|
        ensures ResultKey(init[j]) != ResultKey(init[i])
      {
        assert init[j] == ps[j];
      }
      RunLastWins(init, out, i);
    }
  }

  /** What run() prints for the prompts: each prompt's attempts are 1 or 2, and its key holds its own outcome unless a later prompt reuses the key. */
  lemma RunPromptsOutput(ps: seq<Prompt>, send: (nat, nat) -> Result<string>, cdp: bool, reopen: nat -> Option<string>)
    ensures var (results, attempts) := Run(ps, Outcomes(ps, send, cdp, reopen));
      DistinctKeys(results) && Keys(results) == PromptKeys(ps) &&
      forall i :: 0 <= i < |ps| ==> 1 <= attempts[i] <= 2
  {
    var out := Outcomes(ps, send, cdp, reopen);
    RunKeys(ps, out);
    RunAttempts(ps, out);
    forall i | 0 <= i < |ps|
      ensures 1 <= Run(ps, out).1[i] <= 2
    {
      PromptRunRetriesOnce(ps[i], send(i, 1), send(i, 2), cdp, reopen(i));
    }
  }
}
