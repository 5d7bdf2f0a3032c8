/**
 * veo3-shorts-simple.js: the poll and timeout rules of generateVideo and
 * extendScene, the sequence of videos main generates, and how main finds
 * the exported file: a snapshot of the download folders taken before the
 * export, and a bounded scan for a new, large enough `.mp4`.
 */
module Veo3Shorts {
  import opened Wrappers
  import opened Text
  import opened Json

  datatype ShortsConfig = ShortsConfig(
    prompt: string, imagePath: string, outputPath: string, mode: string,
    videoCount: int, waitTimeout: int, cdpUrl: string)

  const DefaultShortsConfig := ShortsConfig("", "/tmp/output_kaeuta.png", "/tmp/veo3_shorts_kaeuta.mp4",
    "frame", 2, 600000, "http://host.docker.internal:9222")

  // ---------------------------------------------------------------
  // generateVideo
  // ---------------------------------------------------------------

  const VideoPollMs := 10000

  /** The wait for the scene builder after Add to Scene: up to 30 two-second polls, stopping at the first ready one. */
  function BuilderWaitFrom(ready: nat -> bool, i: nat): (ms: nat)
    requires i <= 30
    ensures ms == 2000 * (30 - i) || exists j :: i <= j < 30 && ready(j) && ms == 2000 * (j + 1 - i)
    decreases 30 - i
  {
    if i == 30 then 0
    else if ready(i) then 2000
    else 2000 + BuilderWaitFrom(ready, i + 1)
  }

  /** A poll of generateVideo's wait that neither threw nor showed the Add to Scene button. */
  predicate QuietPoll(pollError: nat -> Option<string>, addToScene: nat -> bool, j: nat)
  {
    pollError(j).None? && !addToScene(j)
  }

  /**
   * generateVideo. `prelude` is the exception, if any, thrown before the Create
   * button lookup (the frame-mode selection, the prompt input wait and
   * fill); `click` the one thrown by the enable wait or the click on the
   * found button. The clock then starts: poll k comes after 10 s·(k+1) while
   * 10 s·k is under the timeout, and `pollError(k)` is what its page calls
   * throw. `sceneError` is the exception of the Add to Scene click or of a
   * builder poll the wait reaches. Returns `Math.round` of the elapsed
   * milliseconds in seconds; the poll running out is not an error. `found`
   * is the poll that saw the button.
   */
  method GenerateVideo(prelude: Option<string>, createFound: bool, click: Option<string>,
                       pollError: nat -> Option<string>, addToScene: nat -> bool,
                       sceneError: Option<string>, builderReady: nat -> bool, waitTimeout: int)
    returns (r: Result<nat>, found: Option<nat>)
    ensures prelude.Some? ==> r == Err(prelude.value) && found.None?
    ensures prelude.None? && !createFound ==> r == Err("Create button not found") && found.None?
    ensures prelude.None? && createFound && click.Some? ==> r == Err(click.value) && found.None?
    ensures found.Some? ==>
      prelude.None? && createFound && click.None? &&
      VideoPollMs * found.value < waitTimeout && pollError(found.value).None? && addToScene(found.value) &&
      (forall j :: 0 <= j < found.value ==> QuietPoll(pollError, addToScene, j)) &&
      r == (if sceneError.Some? then Err(sceneError.value)
            else Ok(RoundSeconds(VideoPollMs * (found.value + 1) + 3000 + BuilderWaitFrom(builderReady, 0))))
    ensures prelude.None? && createFound && click.None? && found.None? && r.Err? ==>
      exists k: nat :: VideoPollMs * k < waitTimeout && pollError(k) == Some(r.msg) &&
        forall j :: 0 <= j < k ==> QuietPoll(pollError, addToScene, j)
    ensures prelude.None? && createFound && click.None? && found.None? && r.Ok? ==>
      (forall j: nat :: VideoPollMs * j < waitTimeout ==> QuietPoll(pollError, addToScene, j)) &&
      exists n: nat :: VideoPollMs * n >= waitTimeout && (n == 0 || VideoPollMs * (n - 1) < waitTimeout) &&
        r.value == RoundSeconds(VideoPollMs * n)
  {
    if prelude.Some? {
      return Err(prelude.value), None;
    }
    if !createFound {
      return Err("Create button not found"), None;
    }
    if click.Some? {
      return Err(click.value), None;
    }
    var k: nat := 0;
    var elapsed: nat := 0;
    while elapsed < waitTimeout
      invariant elapsed == VideoPollMs * k
      invariant k > 0 ==> elapsed - VideoPollMs < waitTimeout
      invariant forall j :: 0 <= j < k ==> QuietPoll(pollError, addToScene, j)
      decreases waitTimeout - elapsed
    {
      elapsed := elapsed + VideoPollMs;
      if pollError(k).Some? {
        assert VideoPollMs * k < waitTimeout && pollError(k) == Some(pollError(k).value);
        return Err(pollError(k).value), None;
      }
      if addToScene(k) {
        if sceneError.Some? {
          return Err(sceneError.value), Some(k);
        }
        var waited := 0;
        var i := 0;
        while i < 30
          invariant i <= 30
          invariant waited + BuilderWaitFrom(builderReady, i) == BuilderWaitFrom(builderReady, 0)
        {
          waited := waited + 2000;
          if builderReady(i) {
            break;
          }
          i := i + 1;
        }
        return Ok(RoundSeconds(elapsed + 3000 + waited)), Some(k);
      }
      k := k + 1;
    }
    forall j: nat | VideoPollMs * j < waitTimeout
      ensures QuietPoll(pollError, addToScene, j)
    {
      assert j < k;
    }
    assert VideoPollMs * k >= waitTimeout && (k == 0 || VideoPollMs * (k - 1) < waitTimeout);
    return Ok(RoundSeconds(elapsed)), None;
  }

  // ---------------------------------------------------------------
  // extendScene
  // ---------------------------------------------------------------

  /** The wait for the add-clip button to disappear: up to 30 two-second polls, stopping at the first where it is gone. */
  function DisappearWaitFrom(gone: nat -> bool, i: nat): nat
    requires i <= 30
    decreases 30 - i
  {
    if i == 30 then 0
    else if gone(i) then 2000
    else 2000 + DisappearWaitFrom(gone, i + 1)
  }

  function ExtendTimeoutMessage(index: nat): string
  {
    "Scene " + NatString(index) + " extension timeout"
  }

  /**
   * extendScene from the choreography on: an error thrown while opening the
   * extend menu, filling the prompt or finding the Create button (`prelude`)
   * propagates; then the clock starts, the disappear wait runs, and the add
   * clip button is polled every ten seconds while the elapsed time is under
   * the timeout. Returns `Math.round` of the elapsed milliseconds in
   * seconds, or the timeout error.
   */
  method ExtendScene(index: nat, prelude: Option<string>, gone: nat -> bool, shown: nat -> bool, waitTimeout: int)
    returns (r: Result<nat>)
    ensures prelude.Some? ==> r == Err(prelude.value)
    ensures prelude.None? && r.Ok? ==>
      var start := DisappearWaitFrom(gone, 0);
      exists k: nat :: start + VideoPollMs * k < waitTimeout && shown(k) &&
        (forall j :: 0 <= j < k ==> !shown(j)) && r.value == RoundSeconds(start + VideoPollMs * (k + 1))
    ensures prelude.None? && r.Err? ==>
      r.msg == ExtendTimeoutMessage(index) &&
      forall j: nat :: DisappearWaitFrom(gone, 0) + VideoPollMs * j < waitTimeout ==> !shown(j)
  {
    if prelude.Some? {
      return Err(prelude.value);
    }
    var start := 0;
    var i := 0;
    while i < 30
      invariant i <= 30
      invariant start + DisappearWaitFrom(gone, i) == DisappearWaitFrom(gone, 0)
    {
      start := start + 2000;
      if gone(i) {
        break;
      }
      i := i + 1;
    }
    var k: nat := 0;
    var elapsed := start;
    while elapsed < waitTimeout
      invariant elapsed == start + VideoPollMs * k
      invariant forall j :: 0 <= j < k ==> !shown(j)
      decreases waitTimeout - elapsed
    {
      if shown(k) {
        return Ok(RoundSeconds(elapsed + VideoPollMs));
      }
      elapsed := elapsed + VideoPollMs;
      k := k + 1;
    }
    forall j: nat | start + VideoPollMs * j < waitTimeout
      ensures !shown(j)
    {
      assert j < k;
    }
    return Err(ExtendTimeoutMessage(index));
  }

  /** The timeout message names the scene that timed out. */
  lemma ExtendTimeoutNamesScene(index: nat)
    ensures StartsWith(ExtendTimeoutMessage(index), "Scene " + NatString(index))
    ensures EndsWith(ExtendTimeoutMessage(index), " extension timeout")
  {
    var m := ExtendTimeoutMessage(index);
    assert m == ("Scene " + NatString(index)) + " extension timeout";
  }

  // ---------------------------------------------------------------
  // main: the input check
  // ---------------------------------------------------------------

  /**
   * The errors main reports before it opens the browser, or the overrides it
   * merges into the defaults. A truthy prompt that is not a string makes the
   * `substring` call of the log line after the checks throw; that TypeError,
   * which ends the script uncaught, is the Err with its message.
   */
  function CheckShorts(arg: Option<string>, parse: string -> Result<Json>): Result<Json>
  {
    var overrides :=
      if arg.None? || arg.value == "" then Ok(JObj([]))
      else match parse(arg.value)
        case Err(_) => Err("Invalid JSON")
        case Ok(j) => Ok(j);
    match overrides
    case Err(m) => Err(m)
    case Ok(j) =>
      var prompt := match Member(j, "prompt") case Some(v) => v case None => JStr("");
      if !Truthy(prompt) then Err("Prompt required")
      else if !prompt.JStr? then Err("config.prompt.substring is not a function")
      else Ok(j)
  }

  /** An unparsable argument is reported without the parser's message; a falsy or missing prompt (the default is empty) is rejected. */
  lemma CheckShortsOutcomes(arg: Option<string>, parse: string -> Result<Json>)
    ensures CheckShorts(arg, parse) == Err("Invalid JSON") <==> arg.Some? && arg.value != "" && parse(arg.value).Err?
    ensures CheckShorts(arg, parse) == Err("Prompt required") <==>
      (arg.None? || arg.value == "" || parse(arg.value).Ok?) &&
      (arg.Some? && arg.value != "" ==> !TruthyMember(parse(arg.value).value, "prompt"))
    ensures CheckShorts(arg, parse) == Err("config.prompt.substring is not a function") <==>
      arg.Some? && arg.value != "" && parse(arg.value).Ok? &&
      TruthyMember(parse(arg.value).value, "prompt") && !Member(parse(arg.value).value, "prompt").value.JStr?
    ensures CheckShorts(arg, parse).Ok? <==>
      arg.Some? && arg.value != "" && parse(arg.value).Ok? &&
      Member(parse(arg.value).value, "prompt").Some? && Member(parse(arg.value).value, "prompt").value.JStr? &&
      Member(parse(arg.value).value, "prompt").value.s != ""
    ensures CheckShorts(arg, parse).Ok? ==> CheckShorts(arg, parse).value == parse(arg.value).value
  {
  }

  // ---------------------------------------------------------------
  // main: the video sequence
  // ---------------------------------------------------------------

  /** How many videos main makes: the first, then one extension for each index 2..videoCount. */
  function VideoTotal(videoCount: int): (n: nat)
    ensures n == 1 + (if videoCount - 1 > 0 then videoCount - 1 else 0)
  {
    if videoCount >= 2 then videoCount else 1
  }

  /** The first video index from i on whose step throws; n + 1 when none does. */
  function FirstError(steps: nat -> Result<nat>, n: nat, i: nat): (f: nat)
    requires 1 <= i <= n + 1
    ensures i <= f <= n + 1
    ensures forall j :: i <= j < f ==> steps(j).Ok?
    ensures f <= n ==> steps(f).Err?
    decreases n + 1 - i
  {
    if i == n + 1 then i
    else if steps(i).Err? then i
    else FirstError(steps, n, i + 1)
  }

  function Sum(xs: seq<nat>): nat
  {
    if xs == [] then 0 else Sum(xs[..|xs| - 1]) + xs[|xs| - 1]
  }

  /**
   * main's generation: `steps(i)` is the time of video i (generateVideo for
   * 1, extendScene for the rest) or the error it throws. Returns the times
   * pushed into `results`, `totalTime`, and the error that ended the run.
   */
  method RunVideos(videoCount: int, steps: nat -> Result<nat>) returns (results: seq<nat>, totalTime: nat, error: Option<string>)
    ensures var n := VideoTotal(videoCount);
      var f := FirstError(steps, n, 1);
      |results| == f - 1 &&
      (forall k :: 0 <= k < |results| ==> results[k] == steps(k + 1).value) &&
      error == (if f <= n then Some(steps(f).msg) else None)
    ensures error.None? ==> |results| == 1 + (if videoCount - 1 > 0 then videoCount - 1 else 0)
    ensures totalTime == Sum(results)
  {
    var n := VideoTotal(videoCount);
    results, totalTime, error := [], 0, None;
    var i := 1;
    while i <= n
      invariant 1 <= i <= n + 1
      invariant FirstError(steps, n, 1) == FirstError(steps, n, i)
      invariant |results| == i - 1 && forall k :: 0 <= k < |results| ==> results[k] == steps(k + 1).value
      invariant totalTime == Sum(results)
    {
      var s := steps(i);
      if s.Err? {
        error := Some(s.msg);
        return;
      }
      assert (results + [s.value])[..|results|] == results;
      results := results + [s.value];
      totalTime := totalTime + s.value;
      i := i + 1;
    }
  }

  // ---------------------------------------------------------------
  // main: the download folders before the export
  // ---------------------------------------------------------------

  const PossiblePaths := ["/mnt/downloads", "/home/node/Downloads", "/tmp", "/home/node", "/root/Downloads"]

  /** A directory read: Unlisted when readdirSync throws. */
  datatype DirRead = Unlisted | Names(names: seq<string>)

  /** `path.join(dir, name)` for a directory without a trailing slash and a plain file name. */
  function JoinPath(dir: string, name: string): string
  {
    dir + "/" + name
  }

  /** The full paths of a list of names in one directory. */
  function PathsOf(dir: string, names: seq<string>): set<string>
  {
    if names == [] then {} else PathsOf(dir, names[..|names| - 1]) + {JoinPath(dir, names[|names| - 1])}
  }

  /** Specification of `existingFiles`: every path listed in the first `d` folders that could be read. */
  function ExistingUpTo(before: nat -> DirRead, d: nat): set<string>
    requires d <= |PossiblePaths|
  {
    if d == 0 then {}
    else ExistingUpTo(before, d - 1) + (if before(d - 1).Names? then PathsOf(PossiblePaths[d - 1], before(d - 1).names) else {})
  }

  /** The snapshot loop: `before(d)` is what folder d holds before the export. */
  method Snapshot(before: nat -> DirRead) returns (existing: set<string>)
    ensures existing == ExistingUpTo(before, |PossiblePaths|)
  {
    existing := {};
    for d := 0 to |PossiblePaths|
      invariant existing == ExistingUpTo(before, d)
    {
      var listing := before(d);
      if listing.Names? {
        var names := listing.names;
        var base := existing;
        for j := 0 to |names|
          invariant existing == base + PathsOf(PossiblePaths[d], names[..j])
        {
          assert names[..j + 1][..j] == names[..j];
          existing := existing + {JoinPath(PossiblePaths[d], names[j])};
        }
        assert names[..|names|] == names;
      }
    }
  }

  /** A path is in a directory's set exactly when one of its names joins to it. */
  lemma {:induction false} PathsOfMembers(dir: string, names: seq<string>, p: string)
    ensures p in PathsOf(dir, names) <==> exists j :: 0 <= j < |names| && p == JoinPath(dir, names[j])
    decreases |names|
  {
    if names != [] {
      var init := names[..|names| - 1];
      PathsOfMembers(dir, init, p);
      assert forall j :: 0 <= j < |init| ==> init[j] == names[j];
    }
  }

  /** The snapshot holds exactly the paths some readable folder listed. */
  lemma {:induction false} ExistingMembers(before: nat -> DirRead, d: nat, p: string)
    requires d <= |PossiblePaths|
    ensures p in ExistingUpTo(before, d) <==>
      exists e :: 0 <= e < d && before(e).Names? && p in PathsOf(PossiblePaths[e], before(e).names)
    decreases d
  {
    if d > 0 {
      ExistingMembers(before, d - 1, p);
    }
  }

  // ---------------------------------------------------------------
  // main: the export dialog and the file wait
  // ---------------------------------------------------------------

  const ExportPolls := 60
  const FilePolls := 45
  const ExportTimeoutMessage := "Export dialog did not appear after 120 seconds"
  const FileTimeoutMessage := "Download failed - file not found after 90 seconds"

  /** The export wait: up to 60 two-second polls for the dialog's download link. */
  method WaitExportLink(visible: nat -> bool) returns (r: Result<nat>)
    ensures r.Ok? ==> r.value < ExportPolls && visible(r.value) && forall j :: 0 <= j < r.value ==> !visible(j)
    ensures r.Err? ==> r.msg == ExportTimeoutMessage && forall j :: 0 <= j < ExportPolls ==> !visible(j)
  {
    for i := 0 to ExportPolls
      invariant forall j :: 0 <= j < i ==> !visible(j)
    {
      if visible(i) {
        return Ok(i);
      }
    }
    return Err(ExportTimeoutMessage);
  }

  /** A file entry: its name and the size statSync reports (None when statSync throws). */
  datatype Entry = Entry(name: string, size: Option<int>)

  /** A directory during the file wait: Unreadable when readdirSync throws. */
  datatype DirState = Unreadable | Listing(entries: seq<Entry>)

  /** A name the file wait considers: an `.mp4` that is not a temporary or an own output, and was not there before. */
  predicate IsNewVideo(dir: string, name: string, existing: set<string>)
  {
    EndsWith(name, ".mp4") && !Contains(name, "temp") && !Contains(name, "veo3_") && JoinPath(dir, name) !in existing
  }

  /**
   * One directory, from entry j on: the first new video larger than 100000
   * bytes. A statSync that throws ends the directory (the whole directory
   * sits in one try block).
   */
  function DirFind(dir: string, es: seq<Entry>, existing: set<string>, j: nat): Option<string>
    requires j <= |es|
    decreases |es| - j
  {
    if j == |es| then None
    else if IsNewVideo(dir, es[j].name, existing) then
      if es[j].size.None? then None
      else if es[j].size.value > 100000 then Some(JoinPath(dir, es[j].name))
      else DirFind(dir, es, existing, j + 1)
    else DirFind(dir, es, existing, j + 1)
  }

  function DirResult(dir: string, s: DirState, existing: set<string>): Option<string>
  {
    if s.Unreadable? then None else DirFind(dir, s.entries, existing, 0)
  }

  /** Specification of the file wait, from poll i and folder d on, in loop order. */
  function FileWaitFrom(after: (nat, nat) -> DirState, existing: set<string>, i: nat, d: nat): Option<string>
    requires i <= FilePolls && d < |PossiblePaths|
    decreases FilePolls - i, |PossiblePaths| - d
  {
    if i == FilePolls then None
    else match DirResult(PossiblePaths[d], after(i, d), existing)
      case Some(p) => Some(p)
      case None => if d + 1 < |PossiblePaths| then FileWaitFrom(after, existing, i, d + 1) else FileWaitFrom(after, existing, i + 1, 0)
  }

  /** One directory, as the loop reads it. */
  method SearchDir(dir: string, s: DirState, existing: set<string>) returns (r: Option<string>)
    ensures r == DirResult(dir, s, existing)
  {
    if s.Unreadable? {
      return None;
    }
    var es := s.entries;
    for j := 0 to |es|
      invariant DirFind(dir, es, existing, 0) == DirFind(dir, es, existing, j)
    {
      if EndsWith(es[j].name, ".mp4") && !Contains(es[j].name, "temp") && !Contains(es[j].name, "veo3_") &&
         JoinPath(dir, es[j].name) !in existing {
        if es[j].size.None? {
          return None;
        }
        if es[j].size.value > 100000 {
          return Some(JoinPath(dir, es[j].name));
        }
      }
    }
    return None;
  }

  /**
   * The file wait: `after(i, d)` is folder d at poll i. The folders are
   * searched in their fixed order at each poll, and the first hit wins.
   */
  method WaitForFile(after: (nat, nat) -> DirState, existing: set<string>) returns (r: Result<string>)
    ensures r == (match FileWaitFrom(after, existing, 0, 0) case Some(p) => Ok(p) case None => Err(FileTimeoutMessage))
  {
    var i := 0;
    while i < FilePolls
      invariant i <= FilePolls
      invariant FileWaitFrom(after, existing, 0, 0) == FileWaitFrom(after, existing, i, 0)
    {
      var d := 0;
      while d < |PossiblePaths|
        invariant d <= |PossiblePaths|
        invariant d < |PossiblePaths| ==> FileWaitFrom(after, existing, 0, 0) == FileWaitFrom(after, existing, i, d)
        invariant d == |PossiblePaths| ==> FileWaitFrom(after, existing, 0, 0) == FileWaitFrom(after, existing, i + 1, 0)
      {
        var hit := SearchDir(PossiblePaths[d], after(i, d), existing);
        if hit.Some? {
          return Ok(hit.value);
        }
        d := d + 1;
      }
      i := i + 1;
    }
    return Err(FileTimeoutMessage);
  }

  /**
   * A directory's hit is a new `.mp4`, neither a temporary nor an own output,
   * larger than 100000 bytes; every earlier entry was not new, or too small.
   */
  lemma {:induction false} DirFindSound(dir: string, es: seq<Entry>, existing: set<string>, j: nat)
    requires j <= |es|
    requires DirFind(dir, es, existing, j).Some?
    ensures exists k :: (j <= k < |es| && DirFind(dir, es, existing, j).value == JoinPath(dir, es[k].name) &&
      IsNewVideo(dir, es[k].name, existing) && es[k].size.Some? && es[k].size.value > 100000 &&
      forall m :: j <= m < k ==> !IsNewVideo(dir, es[m].name, existing) || (es[m].size.Some? && es[m].size.value <= 100000))
    decreases |es| - j
  {
    if !IsNewVideo(dir, es[j].name, existing) || (es[j].size.Some? && es[j].size.value <= 100000) {
      DirFindSound(dir, es, existing, j + 1);
    }
  }

  /** The file wait only ever reports a new video: a path from the snapshot is never picked. */
  lemma {:induction false} FileWaitSound(after: (nat, nat) -> DirState, existing: set<string>, i: nat, d: nat)
    requires i <= FilePolls && d < |PossiblePaths|
    requires FileWaitFrom(after, existing, i, d).Some?
    ensures var p := FileWaitFrom(after, existing, i, d).value;
      p !in existing &&
      exists d1, name :: 0 <= d1 < |PossiblePaths| &&
        p == JoinPath(PossiblePaths[d1], name) && IsNewVideo(PossiblePaths[d1], name, existing)
    decreases FilePolls - i, |PossiblePaths| - d
  {
    var r := DirResult(PossiblePaths[d], after(i, d), existing);
    if r.Some? {
      DirFindSound(PossiblePaths[d], after(i, d).entries, existing, 0);
    } else if d + 1 < |PossiblePaths| {
      FileWaitSound(after, existing, i, d + 1);
    } else {
      FileWaitSound(after, existing, i + 1, 0);
    }
  }

  /**
   * main's download: snapshot, the download button, the export link, then
   * the file wait. Returns the file the script copies to its temporary path.
   */
  method DownloadShorts(before: nat -> DirRead, buttonVisible: bool, linkVisible: nat -> bool,
                        after: (nat, nat) -> DirState) returns (r: Result<string>)
    ensures !buttonVisible ==> r == Err("Download button not found or not visible")
    ensures buttonVisible && (forall j :: 0 <= j < ExportPolls ==> !linkVisible(j)) ==> r == Err(ExportTimeoutMessage)
    ensures buttonVisible && (exists j :: 0 <= j < ExportPolls && linkVisible(j)) ==>
      r == (match FileWaitFrom(after, ExistingUpTo(before, |PossiblePaths|), 0, 0)
            case Some(p) => Ok(p) case None => Err(FileTimeoutMessage))
    ensures r.Ok? ==> r.value !in ExistingUpTo(before, |PossiblePaths|)
  {
    var existing := Snapshot(before);
    if !buttonVisible {
      return Err("Download button not found or not visible");
    }
    var link := WaitExportLink(linkVisible);
    if link.Err? {
      return Err(link.msg);
    }
    r := WaitForFile(after, existing);
    if r.Ok? {
      FileWaitSound(after, existing, 0, 0);
    }
  }

  /** The remux: always without audio. */
  function ShortsFfmpegCommand(outputPath: string): (c: string)
    ensures Contains(c, " -an ")
  {
    var a := "ffmpeg -y -i \"/tmp/veo3_combined_temp.mp4\"";
    var b := "-c:v copy \"" + outputPath + "\"";
    ContainsMiddle(a, " -an ", b);
    a + " -an " + b
  }
}
