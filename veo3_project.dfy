/**
 * The decisions of veo3-common.js that do not poll: the default
 * configuration, the `/scenes/...` URL truncation, opening the project
 * (startNewProject), the image-settings choices (configureImageSettings),
 * selecting Images mode, and the retry policy of extendScene.
 */
module Veo3Project {
  import opened Wrappers
  import opened Text

  // ---------------------------------------------------------------
  // Configuration
  // ---------------------------------------------------------------

  /** The fields of DEFAULT_CONFIG_BASE that the modelled logic reads. */
  datatype Config = Config(
    prompt: string, outputPath: string, waitTimeout: int, cdpUrl: string,
    projectUrl: Option<string>, aspectRatio: string, download: bool, keepAudio: bool,
    maxRetries: int, retryDelay: int)

  const DefaultConfigBase := Config("", "/tmp/veo3_output.mp4", 600000, "http://192.168.65.254:9222",
    None, "landscape", true, true, 3, 10000)

  /** The page startNewProject opens when no project is configured. */
  const FlowHome := "https://labs.google/fx/tools/flow"

  // ---------------------------------------------------------------
  // `url.replace(/\/scenes\/.*$/, '')`
  // ---------------------------------------------------------------

  const Scenes := "/scenes/"

  /** No line terminator at or after position `i`: `.*$` (no `m`, no `s` flag) can run to the end from there. */
  predicate NoTerminatorFrom(s: string, i: nat)
  {
    forall j :: i <= j < |s| ==> !IsLineTerminator(s[j])
  }

  /** The regular expression matches at `i`: `/scenes/` starts there and the rest of the string is one line. */
  predicate ScenesMatchAt(s: string, i: nat)
  {
    OccursAt(s, Scenes, i) && NoTerminatorFrom(s, i + |Scenes|)
  }

  /** The leftmost match at or after `k`. */
  function ScenesMatchFrom(s: string, k: nat): (r: Option<nat>)
    requires k <= |s|
    ensures r.Some? ==> k <= r.value && ScenesMatchAt(s, r.value)
    ensures r.Some? ==> forall j :: k <= j < r.value ==> !ScenesMatchAt(s, j)
    ensures r.None? ==> forall j :: k <= j ==> !ScenesMatchAt(s, j)
    decreases |s| - k
  {
    if ScenesMatchAt(s, k) then Some(k)
    else if k == |s| then None
    else ScenesMatchFrom(s, k + 1)
  }

  /** `url.replace(/\/scenes\/.*$/, '')`: everything from the leftmost match on is removed. */
  function StripScenes(s: string): string
  {
    match ScenesMatchFrom(s, 0)
    case None => s
    case Some(i) => s[..i]
  }

  /** For a one-line URL the truncation cuts at the first `/scenes/`, and what remains has none. */
  lemma StripScenesOfUrl(s: string)
    requires NoTerminatorFrom(s, 0)
    ensures Contains(s, Scenes) ==> StripScenes(s) == s[..IndexOf(s, Scenes).value]
    ensures !Contains(s, Scenes) ==> StripScenes(s) == s
    ensures !Contains(StripScenes(s), Scenes)
  {
    var m := ScenesMatchFrom(s, 0);
    var ix := IndexOf(s, Scenes);
    if ix.Some? {
      assert ScenesMatchAt(s, ix.value);
      assert m.Some? && m.value == ix.value;
      var t := s[..ix.value];
      if Contains(t, Scenes) {
        var j :| 0 <= j <= |t| - |Scenes| && OccursAt(t, Scenes, j);
        assert s[j..j + |Scenes|] == t[j..j + |Scenes|];
        assert OccursAt(s, Scenes, j);
        assert false;
      }
    }
  }

  /** Where the regular expression matches, the whole rest of the string is one line. */
  lemma MatchRestIsOneLine(s: string, i: nat)
    requires ScenesMatchAt(s, i)
    ensures NoTerminatorFrom(s, i)
  {
    forall y | i <= y < |s|
      ensures !IsLineTerminator(s[y])
    {
      if y < i + |Scenes| {
        assert s[y] == s[i..i + |Scenes|][y - i];
      }
    }
  }

  /** Truncating twice is truncating once, for every string. */
  lemma StripScenesIdempotent(s: string)
    ensures StripScenes(StripScenes(s)) == StripScenes(s)
  {
    var m := ScenesMatchFrom(s, 0);
    if m.Some? {
      var i := m.value;
      var t := s[..i];
      MatchRestIsOneLine(s, i);
      forall j: nat | OccursAt(t, Scenes, j)
        ensures !ScenesMatchAt(t, j)
      {
        assert s[j..j + |Scenes|] == t[j..j + |Scenes|];
        assert OccursAt(s, Scenes, j);
        assert !ScenesMatchAt(s, j);
        var x :| j + |Scenes| <= x < |s| && IsLineTerminator(s[x]);
        assert x < i;
        assert t[x] == s[x];
      }
      assert ScenesMatchFrom(t, 0).None?;
    }
  }

  /** startNewProject guards the rewrite with `includes('/scenes/')`; the guard changes nothing. */
  lemma ScenesGuardRedundant(s: string)
    ensures (if Contains(s, Scenes) then StripScenes(s) else s) == StripScenes(s)
  {
    var m := ScenesMatchFrom(s, 0);
    if m.Some? {
      assert OccursAt(s, Scenes, m.value);
    }
  }

  // ---------------------------------------------------------------
  // startNewProject
  // ---------------------------------------------------------------

  /** `config.projectUrl || default`: an empty string counts as absent. */
  function ProjectTarget(projectUrl: Option<string>): string
  {
    if projectUrl.Some? && projectUrl.value != "" then projectUrl.value else FlowHome
  }

  /** Where startNewProject navigates, and whether it then looks for the New Project button. */
  datatype ProjectOpen = ProjectOpen(first: string, second: Option<string>, seeksNewProject: bool)

  /**
   * startNewProject: `landed` is `page.url()` after the first navigation.
   * A Google sign-in page is 'Not logged in'; a SceneBuilder page is left
   * for its project page; the New Project button is sought only when no
   * project was configured.
   */
  function StartNewProject(projectUrl: Option<string>, landed: string): (r: Result<ProjectOpen>)
    ensures r.Err? <==> Contains(landed, "accounts.google.com")
    ensures r.Err? ==> r.msg == "Not logged in"
    ensures r.Ok? ==> r.value.first == StripScenes(ProjectTarget(projectUrl))
    ensures r.Ok? ==> (r.value.second.Some? <==> Contains(landed, Scenes))
    ensures r.Ok? && r.value.second.Some? ==> r.value.second.value == StripScenes(landed)
    ensures r.Ok? ==> (r.value.seeksNewProject <==> projectUrl.None? || projectUrl.value == "")
  {
    var target := ProjectTarget(projectUrl);
    var first := if Contains(target, Scenes) then StripScenes(target) else target;
    ScenesGuardRedundant(target);
    if Contains(landed, "accounts.google.com") then Err("Not logged in")
    else
      var second := if Contains(landed, Scenes) then Some(StripScenes(landed)) else None;
      Ok(ProjectOpen(first, second, projectUrl.None? || projectUrl.value == ""))
  }

  /** For one-line URLs no page startNewProject navigates to is a SceneBuilder page. */
  lemma StartNewProjectAvoidsScenes(projectUrl: Option<string>, landed: string)
    requires NoTerminatorFrom(ProjectTarget(projectUrl), 0) && NoTerminatorFrom(landed, 0)
    requires StartNewProject(projectUrl, landed).Ok?
    ensures var o := StartNewProject(projectUrl, landed).value;
      !Contains(o.first, Scenes) && (o.second.Some? ==> !Contains(o.second.value, Scenes))
  {
    StripScenesOfUrl(ProjectTarget(projectUrl));
    StripScenesOfUrl(landed);
  }

  // ---------------------------------------------------------------
  // selectImagesMode
  // ---------------------------------------------------------------

  /** What selectImagesMode did: whether it clicked the Images button (its state was not 'on'). */
  datatype ImagesMode = ImagesMode(attempt: nat, clicked: bool)

  /**
   * selectImagesMode: refuses SceneBuilder pages, then looks the Images
   * button up to 5 times; `found(i)` is the i-th lookup's `data-state`
   * attribute (None: no button, Some(None): a button without the attribute).
   */
  method SelectImagesMode(url: string, found: nat -> Option<Option<string>>) returns (r: Result<ImagesMode>)
    ensures Contains(url, Scenes) ==> r == Err("Cannot switch to Images mode while in SceneBuilder. Current URL: " + url)
    ensures !Contains(url, Scenes) && (forall i :: 0 <= i < 5 ==> found(i).None?) ==>
      r == Err("Images button not found after 5 attempts. Page may not be in the correct state.")
    ensures r.Ok? ==>
      (!Contains(url, Scenes) && r.value.attempt < 5 && found(r.value.attempt).Some? &&
       (forall i :: 0 <= i < r.value.attempt ==> found(i).None?) &&
       (r.value.clicked <==> found(r.value.attempt).value != Some("on")))
    ensures r.Err? && !Contains(url, Scenes) ==> forall i :: 0 <= i < 5 ==> found(i).None?
  {
    if Contains(url, Scenes) {
      return Err("Cannot switch to Images mode while in SceneBuilder. Current URL: " + url);
    }
    var i := 0;
    while i < 5
      invariant 0 <= i <= 5
      invariant forall j :: 0 <= j < i ==> found(j).None?
    {
      if found(i).Some? {
        return Ok(ImagesMode(i, found(i).value != Some("on")));
      }
      i := i + 1;
    }
    return Err("Images button not found after 5 attempts. Page may not be in the correct state.");
  }

  // ---------------------------------------------------------------
  // configureImageSettings
  // ---------------------------------------------------------------

  /** Which aspect-ratio option to pick once the menu is open. */
  datatype AspectOption = LandscapeOption | PortraitOption

  /** The aspect-ratio button shows 横向き (landscape). */
  predicate ShowsLandscape(buttonText: string)
  {
    Contains(buttonText, "横向き")
  }

  /** needsChange: the requested orientation differs from the one on the button. Other values never change it. */
  predicate NeedsAspectChange(requested: string, buttonText: string)
  {
    (requested == "landscape" && !ShowsLandscape(buttonText)) ||
    (requested == "portrait" && ShowsLandscape(buttonText))
  }

  /** The output count the button shows: 1 when its text has a '1' and no '2', otherwise 2. */
  function CurrentCount(buttonText: string): (c: nat)
    ensures c == 1 || c == 2
    ensures c == 1 <==> Contains(buttonText, "1") && !Contains(buttonText, "2")
  {
    if Contains(buttonText, "1") && !Contains(buttonText, "2") then 1 else 2
  }

  /** The clicks configureImageSettings makes on its menus. */
  datatype SettingsPlan = SettingsPlan(aspect: Option<AspectOption>, count: Option<bool>)

  /**
   * configureImageSettings: `aspectText` / `countText` are the buttons'
   * texts (None: button absent); `requestedCount` 0 stands for an unset
   * option. `count == Some(true)` picks the one-image option, `Some(false)`
   * the two-image one.
   */
  function ImageSettingsPlan(requestedAspect: string, aspectText: Option<string>, requestedCount: int, countText: Option<string>): (r: SettingsPlan)
    ensures r.aspect.Some? <==> requestedAspect != "" && aspectText.Some? && NeedsAspectChange(requestedAspect, aspectText.value)
    ensures r.aspect.Some? ==> (r.aspect.value == LandscapeOption <==> requestedAspect == "landscape")
    ensures r.count.Some? <==> requestedCount != 0 && countText.Some? && CurrentCount(countText.value) != requestedCount
    ensures r.count.Some? ==> (r.count.value <==> requestedCount == 1)
  {
    var aspect :=
      if requestedAspect != "" && aspectText.Some? && NeedsAspectChange(requestedAspect, aspectText.value)
      then Some(if requestedAspect == "landscape" then LandscapeOption else PortraitOption)
      else None;
    var count :=
      if requestedCount != 0 && countText.Some? && CurrentCount(countText.value) != requestedCount
      then Some(requestedCount == 1)
      else None;
    SettingsPlan(aspect, count)
  }

  /** For the two supported orientations a change is needed exactly when the button shows the other one. */
  lemma AspectChangeIffMismatch(requested: string, buttonText: string)
    requires requested == "landscape" || requested == "portrait"
    ensures NeedsAspectChange(requested, buttonText) <==> ((requested == "landscape") != ShowsLandscape(buttonText))
  {
  }

  /** A button already showing the requested setting is left alone; the choice converges after one change. */
  lemma SettingsStable(requestedAspect: string, requestedCount: int)
    requires requestedAspect == "landscape" || requestedAspect == "portrait"
    requires requestedCount == 1 || requestedCount == 2
    ensures var aspectShown := if requestedAspect == "landscape" then "横向き" else "縦向き";
      var countShown := if requestedCount == 1 then "1" else "2";
      ImageSettingsPlan(requestedAspect, Some(aspectShown), requestedCount, Some(countShown)) == SettingsPlan(None, None)
  {
    assert OccursAt("横向き", "横向き", 0);
    assert OccursAt("1", "1", 0);
    assert OccursAt("2", "2", 0);
    assert !Contains("縦向き", "横向き") by {
      assert |"縦向き"| == |"横向き"|;
      assert "縦向き"[0] != "横向き"[0];
    }
    assert !Contains("1", "2");
  }

  // ---------------------------------------------------------------
  // extendScene
  // ---------------------------------------------------------------

  /** A failure worth another attempt: tagged `RETRY:`, or the service's could-not-generate message. */
  predicate Retryable(msg: string)
  {
    Contains(msg, "RETRY:") || Contains(msg, "生成できませんでした") || Contains(msg, "Could not generate")
  }

  /** `config.maxRetries || 3` */
  function MaxAttempts(configured: int): int
  {
    if configured == 0 then 3 else configured
  }

  /** The outcome of extendScene: extended on an attempt, failed with the rethrown message, or never tried (it throws null). */
  datatype ExtendOutcome = Extended(attempt: nat) | Failed(attempt: nat, msg: string) | NotAttempted

  /** The page reloaded before attempt a > 1: the configured project, else the current URL, truncated at `/scenes/`. */
  function ReloadUrl(projectUrl: Option<string>, currentUrl: string): string
  {
    StripScenes(if projectUrl.Some? && projectUrl.value != "" then projectUrl.value else currentUrl)
  }

  /**
   * extendScene: `attempt(a)` is attempt a's outcome (None: the scene was
   * extended; Some(m): it threw m), `urlAt(a)` the page URL when attempt a
   * starts. Returns the outcome and the URLs reloaded before attempts 2, 3, ...
   */
  method ExtendScene(attempt: nat -> Option<string>, configuredRetries: int, projectUrl: Option<string>, urlAt: nat -> string)
    returns (r: ExtendOutcome, reloads: seq<string>)
    ensures var max := MaxAttempts(configuredRetries);
      (r.NotAttempted? <==> max < 1) &&
      (r.Extended? ==> 1 <= r.attempt <= max && attempt(r.attempt).None?) &&
      (r.Failed? ==>
         (1 <= r.attempt <= max && attempt(r.attempt).Some? &&
          r.msg == ReplaceFirst(attempt(r.attempt).value, "RETRY:", "") &&
          (!Retryable(attempt(r.attempt).value) || r.attempt == max)))
    ensures r.Extended? || r.Failed? ==>
      (forall j :: 1 <= j < r.attempt ==> attempt(j).Some? && Retryable(attempt(j).value)) &&
      |reloads| == r.attempt - 1 &&
      (forall j :: 0 <= j < |reloads| ==> reloads[j] == ReloadUrl(projectUrl, urlAt(j + 2)))
    ensures r.NotAttempted? ==> reloads == []
  {
    var max := MaxAttempts(configuredRetries);
    reloads := [];
    var a: nat := 1;
    while a <= max
      invariant 1 <= a && (max >= 1 ==> a <= max)
      invariant forall j :: 1 <= j < a ==> attempt(j).Some? && Retryable(attempt(j).value)
      invariant |reloads| == if a == 1 then 0 else a - 2
      invariant forall j :: 0 <= j < |reloads| ==> reloads[j] == ReloadUrl(projectUrl, urlAt(j + 2))
      decreases max - a
    {
      if a > 1 {
        reloads := reloads + [ReloadUrl(projectUrl, urlAt(a))];
      }
      var outcome := attempt(a);
      if outcome.None? {
        return Extended(a), reloads;
      }
      var msg := outcome.value;
      if Retryable(msg) && a < max {
        a := a + 1;
      } else {
        return Failed(a, ReplaceFirst(msg, "RETRY:", "")), reloads;
      }
    }
    return NotAttempted, [];
  }

  /** A `RETRY:`-tagged message loses exactly its tag when extendScene gives up on it. */
  lemma RethrowDropsTag(m: string)
    ensures ReplaceFirst("RETRY:" + m, "RETRY:", "") == m
  {
    ReplaceFirstOfPrefix("RETRY:", m);
  }

  /** The messages the model's own loops throw with the tag are all retryable. */
  lemma TaggedMessagesRetryable(m: string)
    ensures Retryable("RETRY:" + m)
  {
    StartsWithContains("RETRY:" + m, "RETRY:");
  }
}
