/**
 * flow-video-auto.js: the page it opens, when it counts as signed out, when
 * it looks for the New Project button, and the generation poll whose
 * outcome decides the report: a video, a generation error, or a timeout,
 * which is reported as an unsuccessful but normal end.
 */
module FlowAuto {
  import opened Wrappers
  import opened Text
  import FlowShorts

  const DefaultFlowUrl := "https://labs.google/fx/tools/flow"

  /** `config.projectUrl || default`: a missing or empty project URL opens Flow's start page. */
  function FlowUrl(projectUrl: Option<string>): string
  {
    if projectUrl.Some? && projectUrl.value != "" then projectUrl.value else DefaultFlowUrl
  }

  /** `!config.projectUrl`: only on the start page is a new project created. */
  predicate SeeksNewProject(projectUrl: Option<string>)
  {
    projectUrl.None? || projectUrl.value == ""
  }

  /** The New Project button is looked for exactly when the start page was opened in place of a given project. */
  lemma NewProjectOnlyWithoutProject(projectUrl: Option<string>)
    ensures SeeksNewProject(projectUrl) <==> !(projectUrl.Some? && FlowUrl(projectUrl) == projectUrl.value && projectUrl.value != "")
    ensures SeeksNewProject(projectUrl) ==> FlowUrl(projectUrl) == DefaultFlowUrl
  {
  }

  /** The page after loading is a sign-in page: its URL mentions accounts.google.com or signin. */
  predicate NotLoggedIn(url: string)
  {
    Contains(url, "accounts.google.com") || Contains(url, "signin")
  }

  /** Every URL the shorts script treats as signed out is signed out here too, and so is any URL mentioning signin. */
  lemma SignInCheckWider(url: string)
    ensures FlowShorts.NotLoggedIn(url) ==> NotLoggedIn(url)
    ensures Contains(url, "signin") ==> NotLoggedIn(url)
    ensures NotLoggedIn(url) ==> exists i :: 0 <= i <= |url| && (OccursAt(url, "accounts.google.com", i) || OccursAt(url, "signin", i))
  {
  }

  /** The poll shows a generation error: its text mentions "error" in any ASCII case, or エラー. */
  predicate HasError(o: FlowShorts.VideoPoll)
  {
    o.errorText.Some? && o.errorText.value != "" &&
    (Contains(LowerAscii(o.errorText.value), "error") || Contains(o.errorText.value, "エラー"))
  }

  /** Every error that stops the shorts script stops this one; an English "Error" stops only this one. */
  lemma ErrorCheckWider(o: FlowShorts.VideoPoll)
    ensures FlowShorts.HasError(o) ==> HasError(o)
    ensures var e := FlowShorts.VideoPoll(None, Some("Error"));
      HasError(e) && !FlowShorts.HasError(e)
  {
    if FlowShorts.HasError(o) {
      assert o.errorText.value != "" by {
        var i :| 0 <= i <= |o.errorText.value| - 3 && OccursAt(o.errorText.value, "エラー", i);
      }
    }
    var t := "Error";
    assert LowerAscii(t) == "error";
    assert OccursAt(LowerAscii(t), "error", 0);
    forall i | 0 <= i <= |t| - 3
      ensures !OccursAt(t, "エラー", i)
    {
      assert t[i..i + 3][0] == t[i] != 'エ';
    }
  }

  /** How the generation poll ended. */
  datatype PollOutcome = Seen(url: string, elapsedMs: nat) | Failed(text: string) | TimedOut(elapsedMs: nat)

  const PollMs := 10000

  /**
   * The generation poll: poll k is made after 10 s·(k+1), as long as 10 s·k
   * is under the timeout. A video wins over an error shown in the same poll.
   */
  method WaitForVideo(polls: nat -> FlowShorts.VideoPoll, waitTimeout: int) returns (r: PollOutcome)
    ensures r.Seen? ==>
      exists k: nat :: PollMs * k < waitTimeout && FlowShorts.HasVideo(polls(k)) &&
        (forall j :: 0 <= j < k ==> !FlowShorts.HasVideo(polls(j)) && !HasError(polls(j))) &&
        r.url == polls(k).src.value && r.elapsedMs == PollMs * (k + 1)
    ensures r.Failed? ==>
      exists k: nat :: PollMs * k < waitTimeout && !FlowShorts.HasVideo(polls(k)) && HasError(polls(k)) &&
        (forall j :: 0 <= j < k ==> !FlowShorts.HasVideo(polls(j)) && !HasError(polls(j))) &&
        r.text == polls(k).errorText.value
    ensures r.TimedOut? ==>
      (forall j: nat :: PollMs * j < waitTimeout ==> !FlowShorts.HasVideo(polls(j)) && !HasError(polls(j))) &&
      r.elapsedMs % PollMs == 0 && r.elapsedMs >= waitTimeout && (r.elapsedMs == 0 || r.elapsedMs - PollMs < waitTimeout)
  {
    var k: nat := 0;
    var elapsed: nat := 0;
    while elapsed < waitTimeout
      invariant elapsed == PollMs * k
      invariant k == 0 || elapsed - PollMs < waitTimeout
      invariant forall j :: 0 <= j < k ==> !FlowShorts.HasVideo(polls(j)) && !HasError(polls(j))
      decreases waitTimeout - elapsed
    {
      elapsed := elapsed + PollMs;
      var o := polls(k);
      if o.src.Some? && (StartsWith(o.src.value, "http") || StartsWith(o.src.value, "blob:")) {
        return Seen(o.src.value, elapsed);
      }
      if o.errorText.Some? && o.errorText.value != "" &&
         (Contains(LowerAscii(o.errorText.value), "error") || Contains(o.errorText.value, "エラー")) {
        return Failed(o.errorText.value);
      }
      k := k + 1;
    }
    forall j: nat | PollMs * j < waitTimeout
      ensures !FlowShorts.HasVideo(polls(j)) && !HasError(polls(j))
    {
      assert j < k;
    }
    return TimedOut(elapsed);
  }

  /** What run prints: the result object of a finished run, or the error of a stopped one. */
  datatype Report = Finished(success: bool, videoUrl: Option<string>, projectUrl: string, generationTime: string) | Stopped(error: string)

  /** A finished run exits 0, whether or not a video was found; a stopped one exits 1. */
  function ExitCode(r: Report): nat
  {
    if r.Finished? then 0 else 1
  }

  /**
   * run after the input check. `url` is the page after loading, `promptFound`
   * and `createFound` the outcomes of the prompt and Create button lookups
   * (with their fallbacks), `polls` what the generation poll sees and
   * `finalUrl` the page's URL when the poll ends.
   */
  method Run(url: string, promptFound: bool, createFound: bool, polls: nat -> FlowShorts.VideoPoll, waitTimeout: int, finalUrl: string)
    returns (r: Report)
    ensures NotLoggedIn(url) ==> r == Stopped("Not logged in to Google")
    ensures !NotLoggedIn(url) && !promptFound ==> r == Stopped("Could not find prompt input")
    ensures !NotLoggedIn(url) && promptFound && !createFound ==> r == Stopped("Could not find Create/Generate button")
    ensures r.Finished? ==> !NotLoggedIn(url) && promptFound && createFound && r.projectUrl == finalUrl
    ensures r.Finished? ==> (r.success <==> r.videoUrl.Some?)
    ensures r.Finished? && r.success ==>
      exists k: nat :: PollMs * k < waitTimeout && FlowShorts.HasVideo(polls(k)) && r.videoUrl == polls(k).src &&
        r.generationTime == NatString(RoundSeconds(PollMs * (k + 1))) + "s"
    ensures r.Finished? && !r.success ==>
      forall j: nat :: PollMs * j < waitTimeout ==> !FlowShorts.HasVideo(polls(j)) && !HasError(polls(j))
    ensures r.Stopped? && !NotLoggedIn(url) && promptFound && createFound ==>
      exists k: nat :: PollMs * k < waitTimeout && HasError(polls(k)) && !FlowShorts.HasVideo(polls(k)) &&
        r.error == "Generation error: " + polls(k).errorText.value
    ensures (!NotLoggedIn(url) && promptFound && createFound &&
             forall j: nat :: PollMs * j < waitTimeout ==> !FlowShorts.HasVideo(polls(j)) && !HasError(polls(j))) ==>
      r.Finished? && !r.success && r.videoUrl.None? && ExitCode(r) == 0
  {
    if NotLoggedIn(url) {
      return Stopped("Not logged in to Google");
    }
    if !promptFound {
      return Stopped("Could not find prompt input");
    }
    if !createFound {
      return Stopped("Could not find Create/Generate button");
    }
    var outcome := WaitForVideo(polls, waitTimeout);
    match outcome {
      case Seen(u, ms) =>
        r := Finished(true, Some(u), finalUrl, NatString(RoundSeconds(ms)) + "s");
      case Failed(t) =>
        r := Stopped("Generation error: " + t);
      case TimedOut(ms) =>
        r := Finished(false, None, finalUrl, NatString(RoundSeconds(ms)) + "s");
    }
  }

  /**
   * A timeout is not an error: a run that passed the sign-in and lookup
   * checks and whose polls all showed neither a video nor an error reports
   * `success: false` without a video and exits 0. The requires are Run's
   * ensures that decide this case.
   */
  lemma TimeoutExitsNormally(url: string, promptFound: bool, createFound: bool, polls: nat -> FlowShorts.VideoPoll,
                             waitTimeout: int, r: Report)
    requires r.Finished? ==> (r.success <==> r.videoUrl.Some?)
    requires r.Finished? && r.success ==>
      exists k: nat :: PollMs * k < waitTimeout && FlowShorts.HasVideo(polls(k)) && r.videoUrl == polls(k).src
    requires r.Stopped? && !NotLoggedIn(url) && promptFound && createFound ==>
      exists k: nat :: PollMs * k < waitTimeout && HasError(polls(k)) && !FlowShorts.HasVideo(polls(k))
    ensures (!NotLoggedIn(url) && promptFound && createFound &&
             forall j: nat :: PollMs * j < waitTimeout ==> !FlowShorts.HasVideo(polls(j)) && !HasError(polls(j))) ==>
      r.Finished? && !r.success && r.videoUrl.None? && ExitCode(r) == 0
  {
  }
}
