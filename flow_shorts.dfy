/**
 * flow-video-shorts.js: when generateSingleVideo accepts a video, fails or
 * times out, which videos get a local copy, the ffmpeg concat list with its
 * re-encoding fallback, and what run reports: the final path, the summary
 * and the partial result of a failed run.
 */
module FlowShorts {
  import opened Wrappers
  import opened Text
  import opened Json

  /** run's defaults. */
  datatype FlowConfig = FlowConfig(
    prompt: string, mode: string, imagePath: Option<string>, audioPath: Option<string>,
    videoCount: int, waitTimeout: int, outputDir: string, outputFilename: Option<string>, screenshotDir: string)

  const DefaultFlowConfig := FlowConfig("", "text", None, None, 2, 600000, "/tmp/videos", None, "/tmp")

  /** `path.join(dir, name)` for a directory without a trailing slash and a plain file name. */
  function JoinPath(dir: string, name: string): string
  {
    dir + "/" + name
  }

  // ---------------------------------------------------------------
  // generateSingleVideo
  // ---------------------------------------------------------------

  /** One poll: the `src` of the video element (None: no element or no src) and the error element's text (None: none, or unreadable). */
  datatype VideoPoll = VideoPoll(src: Option<string>, errorText: Option<string>)

  const PollMs := 10000

  /** The poll shows a finished video: its src is an http or blob URL. */
  predicate HasVideo(o: VideoPoll)
  {
    o.src.Some? && (StartsWith(o.src.value, "http") || StartsWith(o.src.value, "blob:"))
  }

  /** The poll shows a generation error: the error text mentions エラー. */
  predicate HasError(o: VideoPoll)
  {
    o.errorText.Some? && Contains(o.errorText.value, "エラー")
  }

  /** What generateSingleVideo returns. */
  datatype Generated = Generated(videoUrl: string, localPath: Option<string>, generationTime: nat)

  function TimeoutMessage(index: nat): string
  {
    "Video " + NatString(index) + " generation timeout"
  }

  /** The file a non-blob video is downloaded to. */
  function LocalFile(outputDir: string, index: nat, stamp: nat): string
  {
    JoinPath(outputDir, "flow-video-" + NatString(index) + "-" + NatString(stamp) + ".mp4")
  }

  /**
   * generateSingleVideo. `prelude` is the exception, if any, thrown before
   * the prompt input lookup: dismissing notifications, the image-to-video
   * mode clicks or the image upload. `promptFound` and
   * `createFound` are the outcomes of the lookups (with their fallbacks);
   * poll k is made while 10 s·k is under the timeout; a blob URL is kept as
   * it is, any other URL is downloaded (`download` is None when that
   * succeeds, or the error it throws) taking `downloadMs`.
   */
  method GenerateSingleVideo(index: nat, prelude: Option<string>, promptFound: bool, createFound: bool,
                             polls: nat -> VideoPoll, waitTimeout: int,
                             outputDir: string, stamp: nat, download: Option<string>, downloadMs: nat)
    returns (r: Result<Generated>)
    ensures prelude.Some? ==> r == Err(prelude.value)
    ensures prelude.None? && !promptFound ==> r == Err("Could not find prompt input")
    ensures prelude.None? && promptFound && !createFound ==> r == Err("Could not find Create button")
    ensures r.Ok? ==> prelude.None? && promptFound && createFound
    ensures r.Ok? ==>
      exists k: nat :: PollMs * k < waitTimeout && HasVideo(polls(k)) &&
        (forall j :: 0 <= j < k ==> !HasVideo(polls(j)) && !HasError(polls(j))) &&
        r.value.videoUrl == polls(k).src.value &&
        r.value.generationTime == RoundSeconds(PollMs * (k + 1) + (if r.value.localPath.Some? then downloadMs else 0))
    ensures r.Ok? ==> (r.value.localPath.None? <==> StartsWith(r.value.videoUrl, "blob:"))
    ensures r.Ok? && r.value.localPath.Some? ==> r.value.localPath.value == LocalFile(outputDir, index, stamp)
    ensures prelude.None? && promptFound && createFound && r.Err? ==>
      (exists k: nat :: PollMs * k < waitTimeout && !HasVideo(polls(k)) && HasError(polls(k)) &&
         (forall j :: 0 <= j < k ==> !HasVideo(polls(j)) && !HasError(polls(j))) &&
         r.msg == "Generation error: " + polls(k).errorText.value) ||
      (r.msg == TimeoutMessage(index) &&
       forall j: nat :: PollMs * j < waitTimeout ==> !HasVideo(polls(j)) && !HasError(polls(j))) ||
      (exists k: nat :: PollMs * k < waitTimeout && HasVideo(polls(k)) && !StartsWith(polls(k).src.value, "blob:") &&
         download == Some(r.msg))
  {
    if prelude.Some? {
      return Err(prelude.value);
    }
    if !promptFound {
      return Err("Could not find prompt input");
    }
    if !createFound {
      return Err("Could not find Create button");
    }
    var k: nat := 0;
    var elapsed := 0;
    var videoUrl: Option<string> := None;
    while elapsed < waitTimeout
      invariant elapsed == PollMs * k
      invariant forall j :: 0 <= j < k ==> !HasVideo(polls(j)) && !HasError(polls(j))
      decreases waitTimeout - elapsed
    {
      elapsed := elapsed + PollMs;
      var o := polls(k);
      if o.src.Some? && (StartsWith(o.src.value, "http") || StartsWith(o.src.value, "blob:")) {
        videoUrl := Some(o.src.value);
        break;
      }
      if o.errorText.Some? && Contains(o.errorText.value, "エラー") {
        return Err("Generation error: " + o.errorText.value);
      }
      k := k + 1;
    }
    if videoUrl.None? {
      forall j: nat | PollMs * j < waitTimeout
        ensures !HasVideo(polls(j)) && !HasError(polls(j))
      {
        assert j < k;
      }
      return Err(TimeoutMessage(index));
    }
    var url := videoUrl.value;
    var localPath: Option<string> := None;
    var spent := elapsed;
    if !StartsWith(url, "blob:") {
      localPath := Some(LocalFile(outputDir, index, stamp));
      if download.Some? {
        return Err(download.value);
      }
      spent := spent + downloadMs;
    }
    return Ok(Generated(url, localPath, RoundSeconds(spent)));
  }

  /**
   * Only エラー stops the poll: when no poll's error text mentions it (an
   * English "Error", say), a video that fails after both lookups failed by
   * the timeout or by its download, never by a generation error. The
   * requires is GenerateSingleVideo's ensures for that case.
   */
  lemma ErrorNeedsKatakana(index: nat, prelude: Option<string>, promptFound: bool, createFound: bool,
                           polls: nat -> VideoPoll, waitTimeout: int, download: Option<string>, r: Result<Generated>)
    requires prelude.None? && promptFound && createFound && r.Err? ==>
      (exists k: nat :: PollMs * k < waitTimeout && !HasVideo(polls(k)) && HasError(polls(k)) &&
         (forall j :: 0 <= j < k ==> !HasVideo(polls(j)) && !HasError(polls(j))) &&
         r.msg == "Generation error: " + polls(k).errorText.value) ||
      (r.msg == TimeoutMessage(index) &&
       forall j: nat :: PollMs * j < waitTimeout ==> !HasVideo(polls(j)) && !HasError(polls(j))) ||
      (exists k: nat :: PollMs * k < waitTimeout && HasVideo(polls(k)) && !StartsWith(polls(k).src.value, "blob:") &&
         download == Some(r.msg))
    ensures ((forall j: nat :: polls(j).errorText.None? || !Contains(polls(j).errorText.value, "エラー")) &&
             prelude.None? && promptFound && createFound && r.Err?) ==>
      r.msg == TimeoutMessage(index) || download == Some(r.msg)
  {
  }

  // ---------------------------------------------------------------
  // concatenateVideos
  // ---------------------------------------------------------------

  const ListFile := "/tmp/ffmpeg-concat-list.txt"

  /** One line of the concat demuxer's list. */
  function ListLine(p: string): string
  {
    "file '" + p + "'"
  }

  /** The list file: the two videos, one line each, in the order given. */
  function ConcatList(first: string, second: string): string
  {
    ListLine(first) + "\n" + ListLine(second)
  }

  predicate NoNewline(s: string)
  {
    forall i :: 0 <= i < |s| ==> s[i] != '\n'
  }

  /** For paths without newlines, the list has exactly two lines: the first video's, then the second's. */
  lemma ConcatListTwoLines(first: string, second: string)
    requires NoNewline(first) && NoNewline(second)
    ensures var l := ConcatList(first, second);
      var cut := |ListLine(first)|;
      cut < |l| && l[cut] == '\n' && l[..cut] == ListLine(first) && l[cut + 1..] == ListLine(second) &&
      forall i :: 0 <= i < |l| && i != cut ==> l[i] != '\n'
  {
    var l := ConcatList(first, second);
    var a := ListLine(first);
    var b := ListLine(second);
    assert l == a + "\n" + b;
    assert NoNewline(a) by {
      forall i | 0 <= i < |a|
        ensures a[i] != '\n'
      {
        if 6 <= i < 6 + |first| {
          assert a[i] == first[i - 6];
        }
      }
    }
    assert NoNewline(b) by {
      forall i | 0 <= i < |b|
        ensures b[i] != '\n'
      {
        if 6 <= i < 6 + |second| {
          assert b[i] == second[i - 6];
        }
      }
    }
    forall i | 0 <= i < |l| && i != |a|
      ensures l[i] != '\n'
    {
      if i < |a| {
        assert l[i] == a[i];
      } else {
        assert l[i] == b[i - |a| - 1];
      }
    }
    assert l[|a| + 1..] == b;
  }

  function CopyCommand(outputPath: string): string
  {
    "ffmpeg -y -f concat -safe 0 -i \"" + ListFile + "\" -c copy -an \"" + outputPath + "\""
  }

  function ReencodeCommand(outputPath: string): string
  {
    "ffmpeg -y -f concat -safe 0 -i \"" + ListFile + "\" -c:v libx264 -an \"" + outputPath + "\""
  }

  /**
   * concatenateVideos: `copy` and `reencode` are the outcomes of the two
   * ffmpeg runs (None: success, or the error execSync throws). The stream
   * copy is tried first and the re-encode only after it fails, once.
   */
  method ConcatenateVideos(outputPath: string, copy: Option<string>, reencode: Option<string>)
    returns (r: Result<string>, commands: seq<string>)
    ensures commands == if copy.None? then [CopyCommand(outputPath)] else [CopyCommand(outputPath), ReencodeCommand(outputPath)]
    ensures r.Ok? <==> copy.None? || reencode.None?
    ensures r.Ok? ==> r.value == outputPath
    ensures r.Err? ==> r.msg == reencode.value
  {
    commands := [CopyCommand(outputPath)];
    if copy.None? {
      return Ok(outputPath), commands;
    }
    commands := commands + [ReencodeCommand(outputPath)];
    if reencode.None? {
      return Ok(outputPath), commands;
    }
    return Err(reencode.value), commands;
  }

  // ---------------------------------------------------------------
  // run
  // ---------------------------------------------------------------

  /**
   * The errors run reports before it opens the browser, or the overrides it
   * merges into its defaults. A missing or empty argument keeps the
   * defaults; the prompt member (default "") must be truthy, and a truthy
   * prompt that is not a string makes the `substring` call that logs it throw.
   */
  function CheckFlowInput(arg: Option<string>, parse: string -> Result<Json>): Result<Json>
  {
    var overrides :=
      if arg.None? || arg.value == "" then Ok(JObj([]))
      else match parse(arg.value)
        case Err(_) => Err("Invalid JSON input")
        case Ok(j) => Ok(j);
    match overrides
    case Err(m) => Err(m)
    case Ok(j) =>
      var prompt := match Member(j, "prompt") case Some(v) => v case None => JStr("");
      if !Truthy(prompt) then Err("Prompt is required")
      else if !prompt.JStr? then Err("config.prompt.substring is not a function")
      else Ok(j)
  }

  /**
   * Parsing fails first; then a falsy or missing prompt is rejected; only a
   * non-empty string prompt goes on, and the overrides are then the parsed value.
   */
  lemma CheckFlowInputOutcomes(arg: Option<string>, parse: string -> Result<Json>)
    ensures CheckFlowInput(arg, parse) == Err("Invalid JSON input") <==> arg.Some? && arg.value != "" && parse(arg.value).Err?
    ensures arg.None? || arg.value == "" ==> CheckFlowInput(arg, parse) == Err("Prompt is required")
    ensures CheckFlowInput(arg, parse).Ok? <==>
      (arg.Some? && arg.value != "" && parse(arg.value).Ok? &&
       Member(parse(arg.value).value, "prompt").Some? && Member(parse(arg.value).value, "prompt").value.JStr? &&
       Member(parse(arg.value).value, "prompt").value.s != "")
    ensures CheckFlowInput(arg, parse).Ok? ==> CheckFlowInput(arg, parse).value == parse(arg.value).value
  {
    if arg.None? || arg.value == "" {
      assert Member(JObj([]), "prompt").None?;
    }
  }

  /** The page after loading Flow is a Google sign-in page. */
  predicate NotLoggedIn(url: string)
  {
    Contains(url, "accounts.google.com")
  }

  /**
   * run's generation loop, for i from 1 to videoCount: `steps(i)` is
   * generateSingleVideo for video i. Returns the videos pushed, and the
   * error that ended the loop, if any.
   */
  method GenerateAll(videoCount: int, steps: nat -> Result<Generated>) returns (videos: seq<Generated>, error: Option<string>)
    ensures |videos| <= (if videoCount > 0 then videoCount else 0)
    ensures forall k :: 0 <= k < |videos| ==> steps(k + 1) == Ok(videos[k])
    ensures error.None? ==> |videos| == (if videoCount > 0 then videoCount else 0)
    ensures error.Some? ==> steps(|videos| + 1).Err? && error.value == steps(|videos| + 1).msg
  {
    videos, error := [], None;
    var i := 1;
    while i <= videoCount
      invariant i >= 1 && |videos| == i - 1
      invariant |videos| <= (if videoCount > 0 then videoCount else 0)
      invariant forall k :: 0 <= k < |videos| ==> steps(k + 1) == Ok(videos[k])
      decreases videoCount - i
    {
      var r := steps(i);
      if r.Err? {
        error := Some(r.msg);
        return;
      }
      videos := videos + [r.value];
      i := i + 1;
    }
  }

  /** What the final path is made of. */
  datatype FinalChoice = Concatenated(first: string, second: string, withAudio: bool) | Single(path: string) | NoFinal

  /**
   * The final-path rule: the first two videos concatenated (with the audio
   * muxed in when the audio file exists) when there are at least two and
   * both have local copies, the only video's local copy when there is
   * exactly one, otherwise nothing.
   */
  function ChooseFinal(videos: seq<Generated>, audioExists: bool): FinalChoice
  {
    if |videos| >= 2 && videos[0].localPath.Some? && videos[1].localPath.Some? then
      Concatenated(videos[0].localPath.value, videos[1].localPath.value, audioExists)
    else if |videos| == 1 && videos[0].localPath.Some? then Single(videos[0].localPath.value)
    else NoFinal
  }

  /** Where the concatenation is written. */
  function ConcatOutput(outputDir: string, concatStamp: nat): string
  {
    JoinPath(outputDir, "flow-concat-" + NatString(concatStamp) + ".mp4")
  }

  /** Where the audio is muxed in: `outputFilename || flow-shorts-<stamp>.mp4`. */
  function AudioOutput(outputDir: string, outputFilename: Option<string>, finalStamp: nat): string
  {
    JoinPath(outputDir, if outputFilename.Some? && outputFilename.value != "" then outputFilename.value
                        else "flow-shorts-" + NatString(finalStamp) + ".mp4")
  }

  /** `finalVideoPath` once the ffmpeg steps succeed. */
  function FinalPath(videos: seq<Generated>, audioExists: bool, outputDir: string, outputFilename: Option<string>,
                     concatStamp: nat, finalStamp: nat): Option<string>
  {
    match ChooseFinal(videos, audioExists)
    case Concatenated(_, _, withAudio) =>
      Some(if withAudio then AudioOutput(outputDir, outputFilename, finalStamp) else ConcatOutput(outputDir, concatStamp))
    case Single(p) => Some(p)
    case NoFinal => None
  }

  /**
   * The final path exists exactly in the two cases the rule names; only the
   * first two videos are ever concatenated, whatever follows them; a single
   * video is passed through as it is, and one without a local copy gives none.
   */
  lemma ChooseFinalCases(videos: seq<Generated>, audioExists: bool, outputDir: string, outputFilename: Option<string>,
                         concatStamp: nat, finalStamp: nat)
    ensures FinalPath(videos, audioExists, outputDir, outputFilename, concatStamp, finalStamp).Some? <==>
      (|videos| >= 2 && videos[0].localPath.Some? && videos[1].localPath.Some?) ||
      (|videos| == 1 && videos[0].localPath.Some?)
    ensures ChooseFinal(videos, audioExists).Concatenated? ==>
      forall more: seq<Generated> :: ChooseFinal(videos + more, audioExists) == ChooseFinal(videos, audioExists)
    ensures ChooseFinal(videos, audioExists).Single? ==>
      FinalPath(videos, audioExists, outputDir, outputFilename, concatStamp, finalStamp) == videos[0].localPath
  {
    if ChooseFinal(videos, audioExists).Concatenated? {
      forall more: seq<Generated>
        ensures ChooseFinal(videos + more, audioExists) == ChooseFinal(videos, audioExists)
      {
        assert (videos + more)[0] == videos[0] && (videos + more)[1] == videos[1];
      }
    }
  }

  /** One entry of the summary's `videos`. */
  datatype Summary = Summary(index: nat, url: string, localPath: Option<string>, generationTime: string)

  /** `generatedVideos.map((v, i) => ...)`: one entry per video, in order, numbered from 1. */
  function Summaries(videos: seq<Generated>): (r: seq<Summary>)
    ensures |r| == |videos|
    ensures forall i :: 0 <= i < |videos| ==>
      r[i].index == i + 1 && r[i].url == videos[i].videoUrl && r[i].localPath == videos[i].localPath &&
      r[i].generationTime == NatString(videos[i].generationTime) + "s"
  {
    seq(|videos|, i requires 0 <= i < |videos| =>
      Summary(i + 1, videos[i].videoUrl, videos[i].localPath, NatString(videos[i].generationTime) + "s"))
  }

  /** `generatedVideos.reduce((sum, v) => sum + v.generationTime, 0)`, folding from the left. */
  function TotalTime(videos: seq<Generated>): nat
  {
    if videos == [] then 0 else TotalTime(videos[..|videos| - 1]) + videos[|videos| - 1].generationTime
  }

  /** The total splits over any division of the videos, so it is the sum of the per-video times whatever the order of addition. */
  lemma {:induction false} TotalTimeAppend(a: seq<Generated>, b: seq<Generated>)
    ensures TotalTime(a + b) == TotalTime(a) + TotalTime(b)
    decreases |b|
  {
    if b == [] {
      assert a + b == a;
    } else {
      var b' := b[..|b| - 1];
      assert (a + b)[..|a + b| - 1] == a + b';
      TotalTimeAppend(a, b');
    }
  }

  /** Each video contributes its own time: the total bounds every single time and is zero only when every time is. */
  lemma {:induction false} TotalTimeBounds(videos: seq<Generated>)
    ensures forall i :: 0 <= i < |videos| ==> videos[i].generationTime <= TotalTime(videos)
    ensures TotalTime(videos) == 0 <==> forall i :: 0 <= i < |videos| ==> videos[i].generationTime == 0
    decreases |videos|
  {
    if videos != [] {
      var init := videos[..|videos| - 1];
      TotalTimeBounds(init);
      assert forall i :: 0 <= i < |init| ==> init[i] == videos[i];
    }
  }

  /** What run prints. */
  datatype Report =
    | Success(videoCount: nat, videos: seq<Summary>, finalVideoPath: Option<string>, totalGenerationTime: string)
    | Failure(error: string, generatedVideos: nat, partialResults: seq<Generated>)

  /**
   * run's output once the input is accepted. `url` is the page after loading
   * Flow; `videos` and `error` are what the generation loop returned (not
   * looked at when the sign-in page shows); `concatFailure` and
   * `audioFailure` are what the concatenation and the audio muxing throw,
   * if they do, when they run.
   */
  function RunReport(url: string, videos: seq<Generated>, error: Option<string>, audioExists: bool, outputDir: string,
                     outputFilename: Option<string>, concatStamp: nat, finalStamp: nat,
                     concatFailure: Option<string>, audioFailure: Option<string>): Report
  {
    if NotLoggedIn(url) then Failure("Not logged in to Google", 0, [])
    else if error.Some? then Failure(error.value, |videos|, videos)
    else
      var choice := ChooseFinal(videos, audioExists);
      if choice.Concatenated? && concatFailure.Some? then Failure(concatFailure.value, |videos|, videos)
      else if choice.Concatenated? && choice.withAudio && audioFailure.Some? then Failure(audioFailure.value, |videos|, videos)
      else Success(|videos|, Summaries(videos), FinalPath(videos, audioExists, outputDir, outputFilename, concatStamp, finalStamp),
                   NatString(TotalTime(videos)) + "s")
  }

  /**
   * A run succeeds exactly when it is signed in, every video was generated
   * and the ffmpeg steps it needed succeeded; the summary then lists every
   * video with the total of their times. A failure after sign-in carries
   * every video generated before it; the ffmpeg steps fail a run only when
   * there were two local copies to join.
   */
  lemma RunReportMeaning(url: string, videos: seq<Generated>, error: Option<string>, audioExists: bool, outputDir: string,
                         outputFilename: Option<string>, concatStamp: nat, finalStamp: nat,
                         concatFailure: Option<string>, audioFailure: Option<string>)
    ensures var r := RunReport(url, videos, error, audioExists, outputDir, outputFilename, concatStamp, finalStamp, concatFailure, audioFailure);
      (r.Success? <==>
         !NotLoggedIn(url) && error.None? &&
         (ChooseFinal(videos, audioExists).Concatenated? ==> concatFailure.None? && (audioExists ==> audioFailure.None?))) &&
      (r.Success? ==>
         (r.videoCount == |videos| && |r.videos| == |videos| &&
          r.totalGenerationTime == NatString(TotalTime(videos)) + "s" &&
          r.finalVideoPath == FinalPath(videos, audioExists, outputDir, outputFilename, concatStamp, finalStamp))) &&
      (r.Failure? && !NotLoggedIn(url) ==> (r.generatedVideos == |videos| && r.partialResults == videos)) &&
      (error.Some? && !NotLoggedIn(url) ==> r == Failure(error.value, |videos|, videos))
    ensures !(|videos| >= 2 && videos[0].localPath.Some? && videos[1].localPath.Some?) ==>
      RunReport(url, videos, error, audioExists, outputDir, outputFilename, concatStamp, finalStamp, concatFailure, audioFailure) ==
      RunReport(url, videos, error, audioExists, outputDir, outputFilename, concatStamp, finalStamp, None, None)
  {
  }
}
