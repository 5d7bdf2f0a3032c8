/**
 * veo3-character-video.js: how downloadFinalVideo obtains the exported video
 * (four acquisition methods tried in order, then a file check), the selection
 * rule of its download-folder scan, and how main validates its configuration
 * and lays out the per-scene results.
 */
module Veo3Character {
  import opened Wrappers
  import opened Text
  import opened Json
  import Veo3Project

  /** The script's defaults: the shared base with its own output path and aspect ratio, plus the character-video settings. */
  datatype CharacterConfig = CharacterConfig(
    base: Veo3Project.Config, imagePrompt: string, movieTime: int, style: string,
    imageOutputCount: int, sceneDelay: int)

  const DefaultCharacterConfig := CharacterConfig(
    Veo3Project.DefaultConfigBase.(outputPath := "/tmp/veo3_character.mp4", aspectRatio := "portrait"),
    "", 15, "", 1, 3000)

  // ---------------------------------------------------------------
  // Temporary copy and the ffmpeg audio flag
  // ---------------------------------------------------------------

  /** `outputPath.replace('.mp4', '_temp.mp4')` */
  function TempPath(outputPath: string): string
  {
    ReplaceFirst(outputPath, ".mp4", "_temp.mp4")
  }

  /**
   * The temporary copy is the output path with its FIRST `.mp4` replaced, so
   * it is five characters longer and differs from the output; an output path
   * without `.mp4` is its own temporary path.
   */
  lemma TempPathShape(outputPath: string)
    ensures Contains(outputPath, ".mp4") ==>
      (var i := IndexOf(outputPath, ".mp4").value;
       TempPath(outputPath) == outputPath[..i] + "_temp.mp4" + outputPath[i + 4..] &&
       forall j :: 0 <= j < i ==> !OccursAt(outputPath, ".mp4", j))
    ensures Contains(outputPath, ".mp4") ==>
      |TempPath(outputPath)| == |outputPath| + 5 && TempPath(outputPath) != outputPath
    ensures !Contains(outputPath, ".mp4") ==> TempPath(outputPath) == outputPath
  {
  }

  /** The audio option handed to ffmpeg. */
  function AudioOption(keepAudio: bool): (r: string)
    ensures r == "-c:a copy" <==> keepAudio
    ensures r == "-an" <==> !keepAudio
  {
    if keepAudio then "-c:a copy" else "-an"
  }

  /** The remux command: the temporary copy in, the video stream copied, audio kept or dropped. */
  function FfmpegCommand(outputPath: string, keepAudio: bool): string
  {
    ("ffmpeg -y -i \"" + TempPath(outputPath) + "\" ") + AudioOption(keepAudio) + (" -c:v copy \"" + outputPath + "\"")
  }

  /** The command reads the temporary copy and writes the output path, quoting both. */
  lemma FfmpegCommandShape(outputPath: string, keepAudio: bool)
    ensures StartsWith(FfmpegCommand(outputPath, keepAudio), "ffmpeg -y -i \"" + TempPath(outputPath) + "\" ")
    ensures EndsWith(FfmpegCommand(outputPath, keepAudio), " -c:v copy \"" + outputPath + "\"")
    ensures Contains(FfmpegCommand(outputPath, keepAudio), AudioOption(keepAudio))
  {
    var a := "ffmpeg -y -i \"" + TempPath(outputPath) + "\" ";
    var c := " -c:v copy \"" + outputPath + "\"";
    Sandwich(a, AudioOption(keepAudio), c);
  }

  // ---------------------------------------------------------------
  // `/^data:([^;]+);base64,(.+)$/`
  // ---------------------------------------------------------------

  /** A media type the pattern's `[^;]+` accepts. */
  predicate MediaType(m: string)
  {
    m != "" && forall k :: 0 <= k < |m| ==> m[k] != ';'
  }

  /** A payload the pattern's `.+$` accepts: non-empty, one line. */
  predicate Payload(p: string)
  {
    p != "" && forall k :: 0 <= k < |p| ==> !IsLineTerminator(p[k])
  }

  /**
   * The match of the data-URL pattern: the media type (everything up to the
   * first `;`) and the base64 payload. `[^;]+` cannot cross a `;`, so the
   * only place `;base64,` can start is the first `;`.
   */
  function DataUrlMatch(s: string): Option<(string, string)>
  {
    if !StartsWith(s, "data:") then None
    else match IndexFrom(s, ";", 5)
      case None => None
      case Some(i) =>
        if i == 5 || !OccursAt(s, ";base64,", i) || i + 8 == |s| then None
        else if exists j :: i + 8 <= j < |s| && IsLineTerminator(s[j]) then None
        else Some((s[5..i], s[i + 8..]))
  }

  /** Every data URL built from an acceptable media type and payload matches, giving them back. */
  lemma DataUrlRoundTrip(m: string, p: string)
    requires MediaType(m) && Payload(p)
    ensures DataUrlMatch("data:" + m + ";base64," + p) == Some((m, p))
  {
    var s := "data:" + m + ";base64," + p;
    var i := 5 + |m|;
    assert s[..5] == "data:";
    assert s[i..i + 8] == ";base64,";
    assert s[i..i + 1] == ";";
    assert s[5..i] == m;
    assert s[i + 8..] == p;
    forall j | 5 <= j < i
      ensures !OccursAt(s, ";", j)
    {
      assert s[j] == m[j - 5];
    }
    assert OccursAt(s, ";", i);
    var r := IndexFrom(s, ";", 5);
    assert r.Some?;
    assert !(r.value < i);
    assert !(r.value > i);
    forall j | i + 8 <= j < |s|
      ensures !IsLineTerminator(s[j])
    {
      assert s[j] == p[j - i - 8];
    }
  }

  /** Whatever matches is exactly a data URL over an acceptable media type and payload. */
  lemma DataUrlMatchSound(s: string)
    requires DataUrlMatch(s).Some?
    ensures var (m, p) := DataUrlMatch(s).value;
      MediaType(m) && Payload(p) && s == "data:" + m + ";base64," + p
  {
    var i := IndexFrom(s, ";", 5).value;
    var (m, p) := DataUrlMatch(s).value;
    forall k | 0 <= k < |m|
      ensures m[k] != ';'
    {
      assert !OccursAt(s, ";", 5 + k);
      assert s[5 + k..5 + k + 1] == [m[k]];
    }
    forall k | 0 <= k < |p|
      ensures !IsLineTerminator(p[k])
    {
      assert p[k] == s[i + 8 + k];
    }
    assert s == s[..5] + s[5..i] + s[i..i + 8] + s[i + 8..];
  }

  // ---------------------------------------------------------------
  // The request listener
  // ---------------------------------------------------------------

  /** The URLs the request listener keeps: a Google storage host and a video-looking path. */
  predicate IsCapturable(url: string)
  {
    (Contains(url, "storage.googleapis.com") || Contains(url, "googleusercontent.com")) &&
    (Contains(url, ".mp4") || Contains(url, "video") || Contains(url, "download"))
  }

  /** Specification of the listener: the last capturable URL among the requests seen. */
  function LastCaptured(requests: seq<string>): Option<string>
  {
    if requests == [] then None
    else if IsCapturable(requests[|requests| - 1]) then Some(requests[|requests| - 1])
    else LastCaptured(requests[..|requests| - 1])
  }

  /** The listener's effect over the requests in the order they were issued: each capturable URL overwrites the last one. */
  method CaptureRequests(requests: seq<string>) returns (captured: Option<string>)
    ensures captured == LastCaptured(requests)
  {
    captured := None;
    for i := 0 to |requests|
      invariant captured == LastCaptured(requests[..i])
    {
      assert requests[..i + 1][..i] == requests[..i];
      if IsCapturable(requests[i]) {
        captured := Some(requests[i]);
      }
    }
    assert requests[..|requests|] == requests;
  }

  /** A URL is captured exactly when some request qualifies, and it is the last qualifying one. */
  lemma {:induction false} LastCapturedIsLast(requests: seq<string>)
    ensures LastCaptured(requests).Some? <==> exists i :: 0 <= i < |requests| && IsCapturable(requests[i])
    ensures LastCaptured(requests).Some? ==>
      exists i :: 0 <= i < |requests| && requests[i] == LastCaptured(requests).value && IsCapturable(requests[i]) &&
        forall j :: i < j < |requests| ==> !IsCapturable(requests[j])
    decreases |requests|
  {
    if requests != [] {
      var n := |requests| - 1;
      if IsCapturable(requests[n]) {
        assert requests[n] == LastCaptured(requests).value;
      } else {
        var init := requests[..n];
        LastCapturedIsLast(init);
        assert LastCaptured(requests) == LastCaptured(init);
        if LastCaptured(init).Some? {
          var i :| 0 <= i < |init| && init[i] == LastCaptured(init).value && IsCapturable(init[i]) &&
            forall j :: i < j < |init| ==> !IsCapturable(init[j]);
          assert requests[i] == init[i];
          assert forall j :: i < j < |requests| ==> !IsCapturable(requests[j]) by {
            forall j | i < j < |requests|
              ensures !IsCapturable(requests[j])
            {
              if j < n {
                assert requests[j] == init[j];
              }
            }
          }
        } else {
          forall i | 0 <= i < |requests|
            ensures !IsCapturable(requests[i])
          {
            if i < n {
              assert requests[i] == init[i];
            }
          }
        }
      }
    }
  }

  // ---------------------------------------------------------------
  // Method 4: the download-folder scan
  // ---------------------------------------------------------------

  /** A directory entry with its modification time (ms since the epoch) and size in bytes. */
  datatype FileEntry = FileEntry(name: string, mtime: int, size: int)

  /** One directory read: Unreadable when readdirSync or statSync throws (the directory is then skipped). */
  datatype Listing = Unreadable | Listed(entries: seq<FileEntry>)

  const Months := ["Jan", "Feb", "Mar", "Apr", "May", "Jun", "Jul", "Aug", "Sep", "Oct", "Nov", "Dec"]

  /** `/^(Jan|...|Dec)_/` */
  predicate MonthStamped(name: string)
  {
    exists m :: 0 <= m < |Months| && StartsWith(name, Months[m] + "_")
  }

  /** The scan's name filter. */
  predicate IsCandidate(name: string)
  {
    EndsWith(name, ".mp4") &&
    (Contains(name, "flow") || Contains(name, "video") || Contains(name, "scene") || Contains(name, "export") ||
     MonthStamped(name))
  }

  /** Entry `k` is what `[0]` of the filtered list sorted newest first (a stable sort) is: the earliest listed entry passing `cand` of maximal mtime. */
  predicate IsNewest(es: seq<FileEntry>, cand: string -> bool, k: nat)
  {
    k < |es| && cand(es[k].name) &&
    (forall j :: 0 <= j < |es| && cand(es[j].name) ==> es[j].mtime <= es[k].mtime) &&
    (forall j :: 0 <= j < k && cand(es[j].name) ==> es[j].mtime < es[k].mtime)
  }

  /** filter by `cand`, map and sort by descending mtime, then the first element: its position in the listing. */
  function NewestCandidate(es: seq<FileEntry>, cand: string -> bool): (r: Option<nat>)
    ensures r.None? <==> forall j :: 0 <= j < |es| ==> !cand(es[j].name)
    ensures r.Some? ==> IsNewest(es, cand, r.value)
    decreases |es|
  {
    if es == [] then None
    else
      var init := es[..|es| - 1];
      var prev := NewestCandidate(init, cand);
      var last := |es| - 1;
      assert forall j :: 0 <= j < |init| ==> init[j] == es[j];
      if !cand(es[last].name) then prev
      else if prev.None? then Some(last)
      else if es[last].mtime > es[prev.value].mtime then Some(last)
      else prev
  }

  /** At most one entry is the newest candidate. */
  lemma NewestUnique(es: seq<FileEntry>, cand: string -> bool, k1: nat, k2: nat)
    requires IsNewest(es, cand, k1) && IsNewest(es, cand, k2)
    ensures k1 == k2
  {
  }

  /** The floors the newest candidate has to clear: younger than five minutes, larger than 100000 bytes. */
  predicate Accepted(e: FileEntry, now: int)
  {
    now - e.mtime < 300000 && e.size > 100000
  }

  /** What one directory contributes: the newest candidate's path if it clears the floors. */
  function DirPick(dir: string, l: Listing, now: int): Option<string>
  {
    match l
    case Unreadable => None
    case Listed(es) =>
      match NewestCandidate(es, IsCandidate)
      case None => None
      case Some(k) => if Accepted(es[k], now) then Some(dir + "/" + es[k].name) else None
  }

  /**
   * A directory yields a file exactly when it could be read and its newest
   * candidate clears the floors; an older candidate that would clear them is
   * never looked at.
   */
  lemma DirPickMeaning(dir: string, l: Listing, now: int)
    ensures DirPick(dir, l, now).Some? <==>
      l.Listed? && exists k: nat :: IsNewest(l.entries, IsCandidate, k) && Accepted(l.entries[k], now)
    ensures DirPick(dir, l, now).Some? ==>
      exists k: nat :: IsNewest(l.entries, IsCandidate, k) && DirPick(dir, l, now).value == dir + "/" + l.entries[k].name
  {
    if l.Listed? {
      var r := NewestCandidate(l.entries, IsCandidate);
      if r.Some? {
        forall k: nat | IsNewest(l.entries, IsCandidate, k)
          ensures k == r.value
        {
          NewestUnique(l.entries, IsCandidate, k, r.value);
        }
      } else {
        assert forall k: nat :: !IsNewest(l.entries, IsCandidate, k);
      }
    }
  }

  const DownloadDirs := ["/mnt/downloads", "/home/node/Downloads"]

  /** The number of two-second waits of the scan. */
  const ScanWaits := 30

  /** Specification of the scan: the first (wait, directory) in loop order, from (w, d) on, whose directory yields a file. */
  function ScanFrom(listing: (nat, nat) -> Listing, nowAt: (nat, nat) -> int, w: nat, d: nat): Option<(nat, nat, string)>
    requires w <= ScanWaits && d < |DownloadDirs|
    decreases ScanWaits - w, |DownloadDirs| - d
  {
    if w == ScanWaits then None
    else match DirPick(DownloadDirs[d], listing(w, d), nowAt(w, d))
      case Some(p) => Some((w, d, p))
      case None => if d + 1 < |DownloadDirs| then ScanFrom(listing, nowAt, w, d + 1) else ScanFrom(listing, nowAt, w + 1, 0)
  }

  /**
   * The scan loop: `listing(w, d)` is what directory `d` holds at wait `w`
   * and `nowAt(w, d)` the clock when it is read. Returns where the file was
   * found, stopping at the first hit.
   */
  method ScanDownloads(listing: (nat, nat) -> Listing, nowAt: (nat, nat) -> int) returns (r: Option<(nat, nat, string)>)
    ensures r == ScanFrom(listing, nowAt, 0, 0)
  {
    var wait := 0;
    while wait < ScanWaits
      invariant wait <= ScanWaits
      invariant ScanFrom(listing, nowAt, 0, 0) == ScanFrom(listing, nowAt, wait, 0)
    {
      var d := 0;
      while d < |DownloadDirs|
        invariant d <= |DownloadDirs|
        invariant d < |DownloadDirs| ==> ScanFrom(listing, nowAt, 0, 0) == ScanFrom(listing, nowAt, wait, d)
        invariant d == |DownloadDirs| ==> ScanFrom(listing, nowAt, 0, 0) == ScanFrom(listing, nowAt, wait + 1, 0)
      {
        var hit := DirPick(DownloadDirs[d], listing(wait, d), nowAt(wait, d));
        if hit.Some? {
          return Some((wait, d, hit.value));
        }
        d := d + 1;
      }
      wait := wait + 1;
    }
    return None;
  }

  /** (w1, d1) comes before (w2, d2) in the scan's loop order. */
  predicate Before(w1: nat, d1: nat, w2: nat, d2: nat)
  {
    w1 < w2 || (w1 == w2 && d1 < d2)
  }

  /** The scan reports the first directory read, in loop order, that yields a file; when it reports nothing, no read yielded one. */
  lemma {:induction false} ScanFromFirst(listing: (nat, nat) -> Listing, nowAt: (nat, nat) -> int, w: nat, d: nat)
    requires w <= ScanWaits && d < |DownloadDirs|
    ensures var r := ScanFrom(listing, nowAt, w, d);
      (r.Some? ==>
        var (w1, d1, p) := r.value;
        w1 < ScanWaits && d1 < |DownloadDirs| && !Before(w1, d1, w, d) &&
        DirPick(DownloadDirs[d1], listing(w1, d1), nowAt(w1, d1)) == Some(p) &&
        forall w2: nat, d2: nat :: d2 < |DownloadDirs| && !Before(w2, d2, w, d) && Before(w2, d2, w1, d1) ==>
          DirPick(DownloadDirs[d2], listing(w2, d2), nowAt(w2, d2)).None?) &&
      (r.None? ==>
        forall w2: nat, d2: nat :: w2 < ScanWaits && d2 < |DownloadDirs| && !Before(w2, d2, w, d) ==>
          DirPick(DownloadDirs[d2], listing(w2, d2), nowAt(w2, d2)).None?)
    decreases ScanWaits - w, |DownloadDirs| - d
  {
    if w < ScanWaits && DirPick(DownloadDirs[d], listing(w, d), nowAt(w, d)).None? {
      if d + 1 < |DownloadDirs| {
        ScanFromFirst(listing, nowAt, w, d + 1);
      } else {
        ScanFromFirst(listing, nowAt, w + 1, 0);
      }
    }
  }

  // ---------------------------------------------------------------
  // The acquisition chain
  // ---------------------------------------------------------------

  /**
   * What the page, the network and the file system do while downloadFinalVideo
   * runs. `stamp(m)` is Date.now() when method m names its file.
   */
  datatype Browser = Browser(
    href: Option<string>,             // href of the export link when method 1 looks (None: the link is not visible, or has no href)
    hrefDownloads: bool,              // downloadFile(href) completes
    blobFetch: Option<string>,        // what the in-page blob fetch resolves to (None: it throws or yields no string)
    clickLinkVisible: bool,           // the export link is visible when method 2 looks
    download: Option<Option<string>>, // the download event (None: waitForEvent throws) and its URL (None: null)
    clickDownloads: bool,             // downloadFile(url) or download.saveAs completes
    requests: seq<string>,            // request URLs the listener sees before method 3
    capturedDownloads: bool,          // downloadFile(capturedUrl) completes
    listing: (nat, nat) -> Listing,   // directory d at wait w of method 4
    nowAt: (nat, nat) -> int,         // Date.now() when directory d is read at wait w
    stamp: nat -> nat,
    onDisk: string -> bool)           // fs.existsSync at the end

  /** How the file was obtained. */
  datatype Via = Href | HrefData | HrefBlob | ClickData | ClickHttp | ClickSave | Captured | Scanned

  /** The value of `downloadedFile` after a method set it; `complete` is false when the transfer into it failed. */
  datatype Acquired = Acquired(via: Via, path: string, complete: bool)

  /** Which of the four methods a source belongs to. */
  function Rank(v: Via): nat
  {
    match v
    case Href => 1 case HrefData => 1 case HrefBlob => 1
    case ClickData => 2 case ClickHttp => 2 case ClickSave => 2
    case Captured => 3
    case Scanned => 4
  }

  function ExportPath(t: nat): string { "/tmp/veo3_character_export_" + NatString(t) + ".mp4" }
  function DownloadPath(t: nat): string { "/tmp/veo3_character_download_" + NatString(t) + ".mp4" }
  function CapturedPath(t: nat): string { "/tmp/veo3_character_captured_" + NatString(t) + ".mp4" }

  const NoFileMessage := "Download failed - no file downloaded"
  const NoButtonMessage := "Download button not found or not visible"

  /** Method 1: the link's href, downloaded over HTTP, decoded from a data URL, or fetched as a blob. */
  function ByHref(b: Browser): Option<Acquired>
  {
    if b.href.None? then None
    else
      var h := b.href.value;
      if StartsWith(h, "http") then
        (if b.hrefDownloads then Some(Acquired(Href, ExportPath(b.stamp(1)), true)) else None)
      else if StartsWith(h, "data:") then
        (if DataUrlMatch(h).Some? then Some(Acquired(HrefData, ExportPath(b.stamp(1)), true)) else None)
      else if StartsWith(h, "blob:") then
        (if b.blobFetch.Some? && StartsWith(b.blobFetch.value, "data:") && DataUrlMatch(b.blobFetch.value).Some?
         then Some(Acquired(HrefBlob, ExportPath(b.stamp(1)), true)) else None)
      else None
  }

  /**
   * Method 2: click the link and take the download event. `corrected` says
   * whether a failed transfer resets `downloadedFile` (as methods 1 and 3
   * do); as written, the catch leaves the path in place.
   */
  function ByClick(b: Browser, corrected: bool): Option<Acquired>
  {
    if !b.clickLinkVisible || b.download.None? then None
    else
      var u := b.download.value;
      var path := DownloadPath(b.stamp(2));
      if u.Some? && StartsWith(u.value, "data:") then
        (if DataUrlMatch(u.value).Some? then Some(Acquired(ClickData, path, true)) else None)
      else
        var via := if u.Some? && StartsWith(u.value, "http") then ClickHttp else ClickSave;
        if b.clickDownloads then Some(Acquired(via, path, true))
        else if corrected then None
        else Some(Acquired(via, path, false))
  }

  /** Method 3: the URL the request listener captured. */
  function ByCapture(b: Browser): Option<Acquired>
  {
    match LastCaptured(b.requests)
    case None => None
    case Some(_) => if b.capturedDownloads then Some(Acquired(Captured, CapturedPath(b.stamp(3)), true)) else None
  }

  /** Method 4: the download-folder scan. */
  function ByScan(b: Browser): Option<Acquired>
  {
    match ScanFrom(b.listing, b.nowAt, 0, 0)
    case None => None
    case Some((_, _, p)) => Some(Acquired(Scanned, p, true))
  }

  /** Method `m` (1 to 4) on its own. */
  function Stage(b: Browser, corrected: bool, m: nat): Option<Acquired>
  {
    if m == 1 then ByHref(b)
    else if m == 2 then ByClick(b, corrected)
    else if m == 3 then ByCapture(b)
    else if m == 4 then ByScan(b)
    else None
  }

  /** Specification of the chain: the first method that sets `downloadedFile`. */
  function Acquire(b: Browser, corrected: bool): Option<Acquired>
  {
    if ByHref(b).Some? then ByHref(b)
    else if ByClick(b, corrected).Some? then ByClick(b, corrected)
    else if ByCapture(b).Some? then ByCapture(b)
    else ByScan(b)
  }

  /** Specification of downloadFinalVideo up to the ffmpeg step: the file it goes on with, or its error. */
  function FinalFile(buttonVisible: bool, b: Browser, corrected: bool): Result<Acquired>
  {
    if !buttonVisible then Err(NoButtonMessage)
    else match Acquire(b, corrected)
      case None => Err(NoFileMessage)
      case Some(a) => if b.onDisk(a.path) then Ok(a) else Err(NoFileMessage)
  }

  /** Method 1 as the script runs it: `downloadedFile` is set before the HTTP transfer and reset when it fails. */
  method TryHref(b: Browser) returns (downloadedFile: Option<Acquired>)
    ensures downloadedFile == ByHref(b)
  {
    downloadedFile := None;
    if b.href.Some? {
      var h := b.href.value;
      assert StartsWith(h, "http") ==> h[0] == 'h';
      assert StartsWith(h, "data:") ==> h[0] == 'd';
      if StartsWith(h, "http") {
        downloadedFile := Some(Acquired(Href, ExportPath(b.stamp(1)), true));
        if !b.hrefDownloads {
          downloadedFile := None;
        }
      }
      if downloadedFile.None? && StartsWith(h, "data:") && DataUrlMatch(h).Some? {
        downloadedFile := Some(Acquired(HrefData, ExportPath(b.stamp(1)), true));
      }
      if downloadedFile.None? && StartsWith(h, "blob:") {
        var dataUrl := b.blobFetch;
        if dataUrl.Some? && StartsWith(dataUrl.value, "data:") && DataUrlMatch(dataUrl.value).Some? {
          downloadedFile := Some(Acquired(HrefBlob, ExportPath(b.stamp(1)), true));
        }
      }
    }
  }

  /** Method 2 as the script runs it: the path is set before the transfer; only `corrected` resets it when the transfer fails. */
  method TryClick(b: Browser, corrected: bool) returns (downloadedFile: Option<Acquired>)
    ensures downloadedFile == ByClick(b, corrected)
  {
    downloadedFile := None;
    if b.clickLinkVisible && b.download.Some? {
      var u := b.download.value;
      var path := DownloadPath(b.stamp(2));
      if u.Some? && StartsWith(u.value, "data:") {
        if DataUrlMatch(u.value).Some? {
          downloadedFile := Some(Acquired(ClickData, path, true));
        }
      } else {
        var via := if u.Some? && StartsWith(u.value, "http") then ClickHttp else ClickSave;
        downloadedFile := Some(Acquired(via, path, true));
        if !b.clickDownloads {
          if corrected {
            downloadedFile := None;
          } else {
            downloadedFile := Some(Acquired(via, path, false));
          }
        }
      }
    }
  }

  /** Method 3 as the script runs it: the captured URL is downloaded, and the path reset when that fails. */
  method TryCapture(b: Browser) returns (downloadedFile: Option<Acquired>)
    ensures downloadedFile == ByCapture(b)
  {
    downloadedFile := None;
    var captured := CaptureRequests(b.requests);
    if captured.Some? {
      downloadedFile := Some(Acquired(Captured, CapturedPath(b.stamp(3)), true));
      if !b.capturedDownloads {
        downloadedFile := None;
      }
    }
  }

  /**
   * downloadFinalVideo's acquisition: `downloadedFile` is set by the first
   * method that succeeds and every later method runs only while it is still
   * null; the file must exist at the end.
   */
  method DownloadFinalVideo(buttonVisible: bool, b: Browser, corrected: bool) returns (r: Result<Acquired>)
    ensures r == FinalFile(buttonVisible, b, corrected)
  {
    if !buttonVisible {
      return Err(NoButtonMessage);
    }
    var downloadedFile := TryHref(b);
    if downloadedFile.None? {
      downloadedFile := TryClick(b, corrected);
    }
    if downloadedFile.None? {
      downloadedFile := TryCapture(b);
    }
    if downloadedFile.None? {
      var hit := ScanDownloads(b.listing, b.nowAt);
      if hit.Some? {
        downloadedFile := Some(Acquired(Scanned, hit.value.2, true));
      }
    }
    if downloadedFile.None? || !b.onDisk(downloadedFile.value.path) {
      return Err(NoFileMessage);
    }
    return Ok(downloadedFile.value);
  }
  /** Each method yields only sources of its own rank. */
  lemma StageRank(b: Browser, corrected: bool, m: nat)
    requires Stage(b, corrected, m).Some?
    ensures 1 <= m <= 4 && Rank(Stage(b, corrected, m).value.via) == m
  {
  }

  /**
   * The chain runs in order: the file comes from method Rank(via), which
   * produced it, and every earlier method produced nothing; when no method
   * produces a file, each of them failed.
   */
  lemma ChainOrder(b: Browser, corrected: bool)
    ensures Acquire(b, corrected).Some? ==>
      var a := Acquire(b, corrected).value;
      Stage(b, corrected, Rank(a.via)) == Some(a) &&
      forall m: nat :: 1 <= m < Rank(a.via) ==> Stage(b, corrected, m).None?
    ensures Acquire(b, corrected).None? <==> forall m: nat :: 1 <= m <= 4 ==> Stage(b, corrected, m).None?
  {
    if Acquire(b, corrected).Some? {
      var a := Acquire(b, corrected).value;
      var m: nat := if ByHref(b).Some? then 1 else if ByClick(b, corrected).Some? then 2 else if ByCapture(b).Some? then 3 else 4;
      assert Stage(b, corrected, m) == Some(a);
      StageRank(b, corrected, m);
    }
  }

  /** A failed HTTP download in method 1 or 3 leaves nothing behind: the chain goes on as if that method did not exist. */
  lemma FailedHttpContinues(b: Browser, corrected: bool)
    ensures b.href.Some? && StartsWith(b.href.value, "http") && !b.hrefDownloads ==>
      Acquire(b, corrected) == (if ByClick(b, corrected).Some? then ByClick(b, corrected)
                                else if ByCapture(b).Some? then ByCapture(b) else ByScan(b))
    ensures ByHref(b).None? && ByClick(b, corrected).None? && !b.capturedDownloads ==>
      Acquire(b, corrected) == ByScan(b)
  {
  }

  /** A data URL, from the href or from the fetched blob, yields a file only when it matches the pattern. */
  lemma DataUrlNeedsMatch(b: Browser)
    requires ByHref(b).Some? && ByHref(b).value.via != Href
    ensures ByHref(b).value.via == HrefData ==> DataUrlMatch(b.href.value).Some?
    ensures ByHref(b).value.via == HrefBlob ==> b.blobFetch.Some? && DataUrlMatch(b.blobFetch.value).Some?
    ensures ByHref(b).value.via == HrefData || ByHref(b).value.via == HrefBlob
  {
  }

  /**
   * As written: once the click download event arrived with an http URL, a
   * failed transfer still ends the chain. The captured URL and the folder
   * scan are never tried, whatever they would have found.
   */
  lemma ClickFailureEndsChain(b: Browser)
    requires ByHref(b).None? && b.clickLinkVisible && b.download.Some?
    requires b.download.value.Some? && StartsWith(b.download.value.value, "http") && !b.clickDownloads
    ensures Acquire(b, false) == Some(Acquired(ClickHttp, DownloadPath(b.stamp(2)), false))
  {
    assert !StartsWith(b.download.value.value, "data:") by {
      assert b.download.value.value[0] == 'h';
    }
  }

  /** Corrected: a failed click transfer is dropped and the chain goes on to the captured URL and the scan. */
  lemma ClickFailureFallsThrough(b: Browser)
    requires ByHref(b).None? && b.clickLinkVisible && b.download.Some?
    requires b.download.value.Some? && StartsWith(b.download.value.value, "http") && !b.clickDownloads
    ensures Acquire(b, true) == (if ByCapture(b).Some? then ByCapture(b) else ByScan(b))
  {
    assert !StartsWith(b.download.value.value, "data:") by {
      assert b.download.value.value[0] == 'h';
    }
  }

  /** Corrected, the chain only ever hands on a file whose transfer completed. */
  lemma CorrectedChainComplete(b: Browser)
    ensures Acquire(b, true).Some? ==> Acquire(b, true).value.complete
    ensures Acquire(b, false).Some? && Acquire(b, false).value.complete ==> Acquire(b, true) == Acquire(b, false)
  {
  }

  /** A signed URL from the storage host, as the request listener sees it. */
  const SignedVideoUrl := "https://" + "storage.googleapis.com" + "/video.mp4"

  /** A concrete run: no href, the click download fails, and the listener did capture the file's URL. */
  function SampleBrowser(): Browser
  {
    Browser(None, false, None, true, Some(Some(SignedVideoUrl)), false, [SignedVideoUrl], true,
            (w: nat, d: nat) => Unreadable, (w: nat, d: nat) => 0, (m: nat) => m, (p: string) => true)
  }

  /**
   * On that run the script as written proceeds with the empty file of the
   * failed transfer, while the corrected chain downloads the captured URL.
   */
  lemma SampleClickFailure()
    ensures Acquire(SampleBrowser(), false) == Some(Acquired(ClickHttp, DownloadPath(2), false))
    ensures Acquire(SampleBrowser(), true) == Some(Acquired(Captured, CapturedPath(3), true))
    ensures FinalFile(true, SampleBrowser(), false).Ok? && !FinalFile(true, SampleBrowser(), false).value.complete
  {
    var b := SampleBrowser();
    var host, rest := "storage.googleapis.com", "/video.mp4";
    var u := "https://" + host + rest;
    assert u[8..30] == host;
    assert u[..4] == "http";
    assert OccursAt(u, "storage.googleapis.com", 8) && OccursAt(u, ".mp4", 36);
    assert IsCapturable(u);
    ClickFailureEndsChain(b);
    ClickFailureFallsThrough(b);
  }

  // ---------------------------------------------------------------
  // main: configuration and validation
  // ---------------------------------------------------------------

  /** `{ ...DEFAULT_CONFIG, ...parsed }[key]` */
  function Field(parsed: Json, key: string, default: Json): Json
  {
    match Member(parsed, key)
    case Some(v) => v
    case None => default
  }

  /** `x.length`, for the values that have one (an object only through a `length` property). */
  function Length(x: Json): Option<Json>
  {
    match x
    case JArr(a) => Some(JNum(|a|))
    case JStr(s) => Some(JNum(|s|))
    case JObj(_) => Member(x, "length")
    case _ => None
  }

  /** The outcome of main's checks: the prompts to run, a reported error, or an uncaught TypeError. */
  datatype Checked = Valid(prompts: seq<string>) | Rejected(error: string) | Crashed(typeError: string)

  /** `videoPrompts.filter(p => p && p.trim() !== '')`; a truthy non-string makes `p.trim` throw. */
  function NonBlank(xs: seq<Json>): (r: Checked)
    ensures r.Valid? || r.Crashed?
  {
    if xs == [] then Valid([])
    else if Truthy(xs[0]) && !xs[0].JStr? then Crashed("p.trim is not a function")
    else
      var rest := NonBlank(xs[1..]);
      if rest.Crashed? then rest
      else if xs[0].JStr? && xs[0].s != "" && Trim(xs[0].s) != "" then Valid([xs[0].s] + rest.prompts)
      else rest
  }

  /** The filter throws exactly when some element is a truthy non-string. */
  lemma {:induction false} NonBlankCrash(xs: seq<Json>)
    ensures NonBlank(xs).Crashed? <==> exists i :: 0 <= i < |xs| && TrimThrows(xs[i])
    decreases |xs|
  {
    if xs != [] {
      CrashStep(xs);
      var tail := xs[1..];
      NonBlankCrash(tail);
      if exists i :: 0 <= i < |xs| && TrimThrows(xs[i]) {
        var i :| 0 <= i < |xs| && TrimThrows(xs[i]);
        if i > 0 {
          assert tail[i - 1] == xs[i];
        }
      }
      if exists i :: 0 <= i < |tail| && TrimThrows(tail[i]) {
        var i :| 0 <= i < |tail| && TrimThrows(tail[i]);
        assert xs[i + 1] == tail[i];
      }
    }
  }

  /** `p.trim` is not a function: the element is truthy but not a string. */
  predicate TrimThrows(x: Json)
  {
    Truthy(x) && !x.JStr?
  }

  /** The filter throws on a list exactly when it throws on its head or on the rest. */
  lemma CrashStep(xs: seq<Json>)
    requires xs != []
    ensures NonBlank(xs).Crashed? <==> TrimThrows(xs[0]) || NonBlank(xs[1..]).Crashed?
  {
  }


  /** One step of the filter on a list it does not throw on: the head is kept exactly when it is a non-blank string. */
  lemma NonBlankStep(xs: seq<Json>)
    requires xs != [] && NonBlank(xs).Valid?
    ensures NonBlank(xs[1..]).Valid?
    ensures NonBlank(xs).prompts ==
      (if Keeps(xs[0]) then [xs[0].s] + NonBlank(xs[1..]).prompts
       else NonBlank(xs[1..]).prompts)
  {
  }

  /** The filter keeps an element as its string exactly when that element is a non-blank string. */
  predicate Keeps(x: Json)
  {
    x.JStr? && x.s != "" && Trim(x.s) != ""
  }

  /** The strings a filter with test `keep` retains from the string elements, in order. */
  function KeptFrom(xs: seq<Json>, keep: Json -> bool): seq<string>
  {
    if xs == [] then []
    else if xs[0].JStr? && keep(xs[0]) then [xs[0].s] + KeptFrom(xs[1..], keep)
    else KeptFrom(xs[1..], keep)
  }

  /** Such a filter keeps at most every element, and each kept string is an element that passed the test. */
  lemma {:induction false} KeptFromSound(xs: seq<Json>, keep: Json -> bool)
    ensures |KeptFrom(xs, keep)| <= |xs|
    ensures forall k :: 0 <= k < |KeptFrom(xs, keep)| ==>
      exists j :: 0 <= j < |xs| && xs[j] == JStr(KeptFrom(xs, keep)[k]) && keep(xs[j])
    decreases |xs|
  {
    if xs != [] {
      var tail := xs[1..];
      KeptFromSound(tail, keep);
      var ps := KeptFrom(tail, keep);
      var r := KeptFrom(xs, keep);
      var head := xs[0].JStr? && keep(xs[0]);
      assert r == if head then [xs[0].s] + ps else ps;
      forall k | 0 <= k < |r|
        ensures exists j :: 0 <= j < |xs| && xs[j] == JStr(r[k]) && keep(xs[j])
      {
        if head && k == 0 {
          assert xs[0] == JStr(r[0]);
        } else {
          var k' := if head then k - 1 else k;
          assert r[k] == ps[k'];
          var j :| 0 <= j < |tail| && tail[j] == JStr(ps[k']) && keep(tail[j]);
          assert xs[j + 1] == tail[j];
        }
      }
    }
  }

  /** When it does not throw, the script's filter is the filter with test Keeps. */
  lemma {:induction false} NonBlankIsFilter(xs: seq<Json>)
    requires NonBlank(xs).Valid?
    ensures NonBlank(xs).prompts == KeptFrom(xs, Keeps)
    decreases |xs|
  {
    if xs != [] {
      NonBlankStep(xs);
      NonBlankIsFilter(xs[1..]);
    }
  }

  /** Every kept prompt is a non-blank string element. */
  lemma NonBlankSound(xs: seq<Json>)
    requires NonBlank(xs).Valid?
    ensures |NonBlank(xs).prompts| <= |xs|
    ensures forall k :: 0 <= k < |NonBlank(xs).prompts| ==> Trim(NonBlank(xs).prompts[k]) != ""
    ensures forall k :: 0 <= k < |NonBlank(xs).prompts| ==> JStr(NonBlank(xs).prompts[k]) in xs
  {
    NonBlankIsFilter(xs);
    KeptFromSound(xs, Keeps);
    var ps := NonBlank(xs).prompts;
    forall k | 0 <= k < |ps|
      ensures Trim(ps[k]) != "" && JStr(ps[k]) in xs
    {
      var j :| 0 <= j < |xs| && xs[j] == JStr(ps[k]) && Keeps(xs[j]);
    }
  }


  /** Every non-blank string element is kept. */
  lemma NonBlankComplete(xs: seq<Json>, i: nat)
    requires NonBlank(xs).Valid? && i < |xs| && xs[i].JStr? && Trim(xs[i].s) != ""
    ensures xs[i].s in NonBlank(xs).prompts
  {
    NonBlankIsFilter(xs);
    assert xs[i].s != "" by {
      assert |TrimStart("")| == 0;
    }
    assert Keeps(xs[i]);
    KeptFromComplete(xs, Keeps, i);
  }

  /** Such a filter retains every string element that passes its test. */
  lemma {:induction false} KeptFromComplete(xs: seq<Json>, keep: Json -> bool, i: nat)
    requires i < |xs| && xs[i].JStr? && keep(xs[i])
    ensures xs[i].s in KeptFrom(xs, keep)
    decreases |xs|
  {
    if i > 0 {
      assert xs[1..][i - 1] == xs[i];
      KeptFromComplete(xs[1..], keep, i - 1);
    }
  }

  /**
   * main's checks on the merged configuration, in the script's order; the
   * log line after them calls `substring` on the image prompt, which throws
   * for a truthy image prompt that is not a string.
   */
  function Validate(parsed: Json): Checked
  {
    var imagePrompt := Field(parsed, "imagePrompt", JStr(""));
    var videoPrompts := Field(parsed, "videoPrompts", JArr([]));
    if !Truthy(imagePrompt) then Rejected("imagePrompt required")
    else if !Truthy(videoPrompts) || Length(videoPrompts) == Some(JNum(0)) then Rejected("videoPrompts required (array of prompts)")
    else if !videoPrompts.JArr? then Crashed("config.videoPrompts.filter is not a function")
    else match NonBlank(videoPrompts.elems)
      case Valid(ps) =>
        if ps == [] then Rejected("At least one non-empty video prompt required")
        else if !imagePrompt.JStr? then Crashed("config.imagePrompt.substring is not a function")
        else Valid(ps)
      case other => other
  }

  /**
   * The configuration main reads: none without an argument; otherwise the
   * argument, or the file it names when it looks like a path and exists,
   * given to JSON.parse. `files` maps each existing path to the outcome of
   * reading it: its contents, or the message readFileSync throws, which is
   * reported like a parse error.
   */
  function ReadConfig(arg: Option<string>, files: map<string, Result<string>>, parse: string -> Result<Json>): Result<Json>
  {
    if arg.None? || arg.value == "" then Ok(JObj([]))
    else
      var a := arg.value;
      var text := if (StartsWith(a, "/") || EndsWith(a, ".json")) && a in files then files[a] else Ok(a);
      match text
      case Err(m) => Err("Invalid JSON: " + m)
      case Ok(t) =>
        match parse(t)
        case Err(m) => Err("Invalid JSON: " + m)
        case Ok(j) => Ok(j)
  }

  /** main up to the browser: read, parse, validate. */
  function CheckInput(arg: Option<string>, files: map<string, Result<string>>, parse: string -> Result<Json>): Checked
  {
    match ReadConfig(arg, files, parse)
    case Err(m) => Rejected(m)
    case Ok(j) => Validate(j)
  }

  /** The first two rejections come in order, each exactly under its condition. */
  lemma ValidateRejections(parsed: Json)
    ensures var ip := Field(parsed, "imagePrompt", JStr(""));
      Validate(parsed) == Rejected("imagePrompt required") <==> !Truthy(ip)
    ensures var ip := Field(parsed, "imagePrompt", JStr(""));
      var vp := Field(parsed, "videoPrompts", JArr([]));
      Validate(parsed) == Rejected("videoPrompts required (array of prompts)") <==>
        Truthy(ip) && (!Truthy(vp) || Length(vp) == Some(JNum(0)))
  {
    var vp := Field(parsed, "videoPrompts", JArr([]));
    if vp.JArr? {
      NonBlankCrash(vp.elems);
    }
  }

  /**
   * The third rejection: an image prompt and a non-empty array of prompts,
   * none of which throws in the filter and all of which are blank or falsy.
   */
  lemma ValidateAllBlank(parsed: Json)
    ensures var ip := Field(parsed, "imagePrompt", JStr(""));
      var vp := Field(parsed, "videoPrompts", JArr([]));
      Validate(parsed) == Rejected("At least one non-empty video prompt required") <==>
        Truthy(ip) && vp.JArr? && vp.elems != [] &&
        (forall i :: 0 <= i < |vp.elems| ==> !Truthy(vp.elems[i]) || vp.elems[i].JStr?) &&
        (forall i :: 0 <= i < |vp.elems| && vp.elems[i].JStr? ==> Trim(vp.elems[i].s) == "")
  {
    var vp := Field(parsed, "videoPrompts", JArr([]));
    if vp.JArr? {
      NonBlankCrash(vp.elems);
      var r := NonBlank(vp.elems);
      if r.Valid? {
        NonBlankSound(vp.elems);
        forall i | 0 <= i < |vp.elems| && vp.elems[i].JStr? && Trim(vp.elems[i].s) != ""
          ensures vp.elems[i].s in r.prompts
        {
          NonBlankComplete(vp.elems, i);
        }
        if r.prompts != [] {
          assert JStr(r.prompts[0]) in vp.elems;
        }
      }
    }
  }

  /** A configuration that passes carries only non-blank prompts, in which every non-blank string prompt is kept. */
  lemma ValidatePasses(parsed: Json)
    requires Validate(parsed).Valid?
    ensures var vp := Field(parsed, "videoPrompts", JArr([]));
      var ps := Validate(parsed).prompts;
      var ip := Field(parsed, "imagePrompt", JStr(""));
      ip.JStr? && ip.s != "" && ps != [] && vp.JArr? &&
      (forall k :: 0 <= k < |ps| ==> Trim(ps[k]) != "" && JStr(ps[k]) in vp.elems) &&
      (forall i, s :: 0 <= i < |vp.elems| && vp.elems[i] == JStr(s) && Trim(s) != "" ==> s in ps)
  {
    var vp := Field(parsed, "videoPrompts", JArr([]));
    NonBlankSound(vp.elems);
    forall i, s | 0 <= i < |vp.elems| && vp.elems[i] == JStr(s) && Trim(s) != ""
      ensures s in Validate(parsed).prompts
    {
      NonBlankComplete(vp.elems, i);
    }
  }

  /** Without an argument the defaults apply, and their empty image prompt is rejected first. */
  lemma NoArgumentRejected(files: map<string, Result<string>>, parse: string -> Result<Json>)
    ensures CheckInput(None, files, parse) == Rejected("imagePrompt required")
  {
  }

  // ---------------------------------------------------------------
  // main: scene sequencing
  // ---------------------------------------------------------------

  /** One entry of `results`. */
  datatype Entry = ImageStep(time: nat) | VideoStep(index: nat, time: nat) | ExtensionStep(index: nat, time: nat)

  /** The entry step `k` records: the base image, the first video (index 1), then the extension with index k. */
  function Expected(k: nat, t: nat): Entry
  {
    if k == 0 then ImageStep(t) else if k == 1 then VideoStep(1, t) else ExtensionStep(k, t)
  }

  /** `totalTime`: the video and extension times (the image's is not added). */
  function Total(results: seq<Entry>): nat
  {
    if results == [] then 0
    else Total(results[..|results| - 1]) + (if results[|results| - 1].ImageStep? then 0 else results[|results| - 1].time)
  }

  /** The first step, from k on, that throws; n + 1 when every step of the n prompts succeeds. */
  function FirstFailure(steps: nat -> Result<nat>, n: nat, k: nat): (f: nat)
    requires k <= n + 1
    ensures k <= f <= n + 1
    ensures forall j :: k <= j < f ==> steps(j).Ok?
    ensures f <= n ==> steps(f).Err?
    decreases n + 1 - k
  {
    if k == n + 1 then k
    else if steps(k).Err? then k
    else FirstFailure(steps, n, k + 1)
  }

  /** `sceneDelay || 3000` */
  function SceneDelayMs(sceneDelay: int): (r: int)
    ensures r != 0
    ensures sceneDelay != 0 ==> r == sceneDelay
  {
    if sceneDelay != 0 then sceneDelay else 3000
  }

  /** The ascending indices lo, lo + 1, ..., hi - 1. */
  function Range(lo: nat, hi: nat): (r: seq<nat>)
    ensures |r| == if hi > lo then hi - lo else 0
    ensures forall k :: 0 <= k < |r| ==> r[k] == lo + k
    decreases hi - lo
  {
    if lo >= hi then [] else [lo] + Range(lo + 1, hi)
  }

  /**
   * main's generation steps for `n` validated prompts: step 0 is the base
   * image, step 1 the first video, step k (2 to n) the extension with prompt
   * k - 1. `steps(k)` is the step's time in seconds or the error it throws.
   * Returns the entries pushed, the accumulated `totalTime`, the steps after
   * which the scene delay was slept, and the error that ended the run.
   */
  method RunScenes(n: nat, steps: nat -> Result<nat>) returns (results: seq<Entry>, totalTime: nat,
                                                             delaysAfter: seq<nat>, error: Option<string>)
    requires n >= 1
    ensures var f := FirstFailure(steps, n, 0);
      |results| == f &&
      (forall k :: 0 <= k < f ==> results[k] == Expected(k, steps(k).value)) &&
      error == (if f <= n then Some(steps(f).msg) else None) &&
      delaysAfter == Range(2, if f < n then f else n)
    ensures totalTime == Total(results)
  {
    results, totalTime, delaysAfter, error := [], 0, [], None;
    var k := 0;
    while k <= n
      invariant k <= n + 1
      invariant forall j :: 0 <= j < k ==> steps(j).Ok?
      invariant |results| == k && forall j :: 0 <= j < k ==> results[j] == Expected(j, steps(j).value)
      invariant totalTime == Charged(steps, k)
      invariant delaysAfter == Range(2, if k < n then k else n)
    {
      var s := steps(k);
      if s.Err? {
        error := Some(s.msg);
        TotalOfSteps(steps, results, k);
        FirstFailureIs(steps, n, 0, k);
        return;
      }
      var e := Expected(k, s.value);
      results := results + [e];
      if k >= 1 {
        totalTime := totalTime + s.value;
      }
      DelaysStep(k, n);
      if 2 <= k < n {
        delaysAfter := delaysAfter + [k];
      }
      k := k + 1;
    }
    TotalOfSteps(steps, results, k);
    FirstFailureIs(steps, n, 0, k);
  }

  /** The times of steps 1..k-1: what totalTime has added up after k steps. */
  function Charged(steps: nat -> Result<nat>, k: nat): nat
  {
    if k <= 1 then 0 else Charged(steps, k - 1) + (if steps(k - 1).Ok? then steps(k - 1).value else 0)
  }

  /** The entries of k successful steps add up to those steps' times, the image's excepted. */
  lemma {:induction false} TotalOfSteps(steps: nat -> Result<nat>, results: seq<Entry>, k: nat)
    requires forall j :: 0 <= j < k ==> steps(j).Ok?
    requires |results| == k && forall j :: 0 <= j < k ==> results[j] == Expected(j, steps(j).value)
    ensures Total(results) == Charged(steps, k)
  {
    if k > 0 {
      var init := results[..k - 1];
      TotalOfSteps(steps, init, k - 1);
      assert Total(results) == Total(init) + (if k == 1 then 0 else steps(k - 1).value);
    }
  }

  lemma RangeSnoc(lo: nat, hi: nat)
    requires lo <= hi
    ensures Range(lo, hi) + [hi] == Range(lo, hi + 1)
  {
  }

  /** The delays after steps 0..k: step k adds itself when it is an extension other than the last. */
  lemma DelaysStep(k: nat, n: nat)
    ensures Range(2, if k + 1 < n then k + 1 else n) ==
      if 2 <= k < n then Range(2, if k < n then k else n) + [k] else Range(2, if k < n then k else n)
  {
    if 2 <= k < n {
      RangeSnoc(2, k);
    }
  }

  /**
   * A complete run of n prompts records n + 1 entries whose indices count up
   * from 1 after the image, and sleeps after extensions 2 to n - 1 only:
   * never after the first video and never after the last extension.
   */
  lemma CompleteRunLayout(n: nat, steps: nat -> Result<nat>)
    requires n >= 1
    requires forall k :: 0 <= k <= n ==> steps(k).Ok?
    ensures FirstFailure(steps, n, 0) == n + 1
    ensures |Range(2, n)| == (if n >= 2 then n - 2 else 0)
    ensures forall k :: 0 <= k < |Range(2, n)| ==> 2 <= Range(2, n)[k] < n
  {
    FirstFailureIs(steps, n, 0, n + 1);
  }

  /** A step f such that the steps from k up to it succeed and it fails (or is n + 1) is the first failure from k. */
  lemma {:induction false} FirstFailureIs(steps: nat -> Result<nat>, n: nat, k: nat, f: nat)
    requires k <= f <= n + 1
    requires forall j :: k <= j < f ==> steps(j).Ok?
    requires f <= n ==> steps(f).Err?
    ensures FirstFailure(steps, n, k) == f
    decreases n + 1 - k
  {
    if k < f {
      FirstFailureIs(steps, n, k + 1, f);
    }
  }
}
