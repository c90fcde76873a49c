/**
 * The stand-alone clipboard window: a paste shows text, or saves a picture under a fixed
 * note directory, shows it, and writes a note about it; every outcome is reported on a
 * status line that returns to `就绪` five seconds later.
 */
module ClipboardCapture {
  import opened Wrappers
  import opened PyText
  import opened Seqs
  import ImageNotes
  import SourceNotes

  /** The note directory the window saves into; pictures go to its `images` subdirectory. */
  const NOTE_DIR: string := "F:\\Users\\jzc_f\\Documents\\Obsidian Library\\Images"

  const READY: string := "就绪"
  const RESET_DELAY_MS: nat := 5000
  const UNRECOGNISED: string := "剪贴板内容无法识别"
  const ERROR_PREFIX: string := "错误: "
  const NO_VALID_IMAGE: string := "未找到有效图片文件"
  const SAVED_AS: string := "图片已保存为 "
  const SAVE_FAILED: string := "保存失败: "
  const TEXT_SHOWN: string := "文本内容已显示"
  const SHOW_FAILED: string := "显示图片失败: "

  /** An exception reaching the paste handler: Tk's own error, or any other with its text. */
  datatype Raised = TclError | OtherError(message: string)

  /** The three answers of the language model about a picture. */
  datatype Analysis = Analysis(summary: string, category: string, tags: string)

  /**
   * Everything a paste depends on outside the program: the clipboard, the file system,
   * the clock and the uuid, whether writing and showing the picture raise, the model's
   * answers (or the text of the first exception its calls raise), today's date, and whether
   * writing the note raises.
   */
  datatype Env = Env(
    grabbed: Result<ImageNotes.Clipboard, Raised>,  // ImageGrab.grabclipboard()
    clipboardText: Result<string, Raised>,          // root.clipboard_get()
    disk: ImageNotes.Disk,
    seconds: nat,
    hex: string,
    saveFault: Option<string>,
    showFault: Option<string>,
    analysis: Result<Analysis, string>,
    date: string,
    writeFault: Option<string>)

  /** A timer callback Tk holds: putting `就绪` back on the status line after `ms`. */
  datatype Timer = StatusReset(ms: nat)

  /** A file the window writes: a picture, or a note. */
  datatype Written = PictureFile(path: string, image: ImageNotes.Image) | NoteFile(file: SourceNotes.TextFile)

  /**
   * What the window shows and has done: the status line, the display area's text and
   * picture, the picture object it keeps alive, the timers it scheduled, and the files
   * it wrote, in order.
   */
  datatype AppView = AppView(status: string, shownText: string, shownImage: Option<ImageNotes.Image>,
                             imageReference: Option<ImageNotes.Image>, scheduled: seq<Timer>, written: seq<Written>)

  // ---------------------------------------------------------------------------------------
  // Where a picture and its note go

  function PicturePath(name: string): string
  {
    NOTE_DIR + "\\images\\" + name + ".png"
  }

  function NotePath(name: string): string
  {
    NOTE_DIR + "\\" + name + ".md"
  }

  /** The picture as the note embeds it: relative to the note directory. */
  function EmbedTarget(name: string): string
  {
    "images/" + name + ".png"
  }

  /**
   * The note sits in the note directory, and its embed, read from there with `/` taken as
   * a separator, names the saved picture, for every generated name.
   */
  lemma EmbedReachesPicture(seconds: nat, hex: string)
    requires ImageNotes.IsHex(hex)
    ensures var name := ImageNotes.ImageName(seconds, hex);
            NotePath(name) == NOTE_DIR + "\\" + name + ".md"
            && NOTE_DIR + "\\" + ImageNotes.Backslashed(EmbedTarget(name)) == PicturePath(name)
  {
    var name := ImageNotes.ImageName(seconds, hex);
    var file := name + ".png";
    assert '/' !in file by {
      ImageNotes.ImageNameHasNoSlash(seconds, hex);
    }
    EmbedTargetParts(name);
    ImageNotes.BackslashedSeparator("images", file);
    PicturePathParts(NOTE_DIR, name);
  }

  /** The embed is the images directory, a `/`, and the picture's file name. */
  lemma EmbedTargetParts(name: string)
    ensures EmbedTarget(name) == "images" + "/" + (name + ".png")
  {
    assert "images/" == "images" + "/";
    AppendAssoc("images/", name, ".png");
  }

  /** A picture's path is the note directory, a backslash, and the picture's path inside it. */
  lemma PicturePathParts(dir: string, name: string)
    ensures dir + "\\images\\" + name + ".png" == dir + "\\" + ("images" + "\\" + (name + ".png"))
  {
    assert "\\images\\" == "\\" + ("images" + "\\");
    AppendAssoc(dir + "\\images\\", name, ".png");
    AppendAssoc(dir, "\\", "images" + "\\");
    AppendAssoc(dir + "\\", "images" + "\\", name + ".png");
    AppendAssoc("images", "\\", name + ".png");
  }

  /**
   * The module-level `create_md_file`: the same note as the processor writes, but a failure
   * to open or write the file comes out as it is, with no prefix.
   */
  function CreateMdFile(filename: string, imageFile: string, category: string, tags: string, summary: string,
                        date: string, writeFault: Option<string>): (r: Result<SourceNotes.TextFile, string>)
    ensures r.Err? <==> writeFault.Some?
    ensures r.Err? ==> r.error == writeFault.value
    ensures r.Ok? ==> r.value.path == filename && !r.value.translatesNewlines
  {
    match writeFault
    case Some(reason) => Err(reason)
    case None => Ok(SourceNotes.TextFile(filename, ImageNotes.ImageNoteContent(imageFile, category, tags, date, summary), false))
  }

  /** Both `create_md_file`s write the same file; only the processor's prefixes its error. */
  lemma SameNoteAsProcessor(filename: string, imageFile: string, category: string, tags: string, summary: string,
                            date: string, writeFault: Option<string>)
    ensures var mine := CreateMdFile(filename, imageFile, category, tags, summary, date, writeFault);
            var theirs := ImageNotes.CreateMdFile(filename, imageFile, category, tags, summary, date, writeFault);
            mine.Ok? == theirs.Ok?
            && (mine.Ok? ==> mine.value == theirs.value)
            && (mine.Err? ==> theirs.error == SourceNotes.NOTE_WRITE_FAILED + mine.error)
  {
  }

  // ---------------------------------------------------------------------------------------
  // What each handler does to the window

  /** `update_status`: the message, and a timer that puts `就绪` back. */
  function UpdateStatusSpec(v: AppView, message: string): AppView
  {
    v.(status := message, scheduled := v.scheduled + [StatusReset(RESET_DELAY_MS)])
  }

  /** The earliest timer fires: `就绪` is back on the status line. */
  function ResetStatusSpec(v: AppView): AppView
    requires v.scheduled != []
  {
    v.(status := READY, scheduled := v.scheduled[1..])
  }

  /** On a status line with no timer pending, a message lasts until its own timer fires, and then nothing but the status has changed. */
  lemma StatusReturnsToReady(v: AppView, message: string)
    requires v.scheduled == []
    ensures UpdateStatusSpec(v, message).status == message
    ensures ResetStatusSpec(UpdateStatusSpec(v, message)) == v.(status := READY)
  {
  }

  /**
   * `update_status` never cancels a reset it scheduled before: a message shown while an
   * earlier reset is pending is replaced by `就绪` as soon as that earlier timer fires,
   * while the message's own reset is still pending.
   */
  lemma EarlierResetCutsMessageShort(v: AppView, first: string, second: string)
    ensures var w := ResetStatusSpec(UpdateStatusSpec(UpdateStatusSpec(v, first), second));
            w.status == READY
            && |w.scheduled| == |v.scheduled| + 1
            && w.scheduled[|w.scheduled| - 1] == StatusReset(RESET_DELAY_MS)
  {
  }

  /** `show_text`: the text replaces whatever was shown. */
  function ShowTextSpec(v: AppView, text: string): AppView
  {
    UpdateStatusSpec(v.(shownText := text, shownImage := None), TEXT_SHOWN)
  }

  /** `show_image`: the picture replaces whatever was shown, unless preparing it raises. */
  function ShowImageSpec(v: AppView, image: ImageNotes.Image, fault: Option<string>): AppView
  {
    match fault
    case Some(reason) => UpdateStatusSpec(v, SHOW_FAILED + reason)
    case None => v.(shownImage := Some(image), shownText := "", imageReference := Some(image))
  }

  /**
   * The `try` block of `handle_image`, up to the first exception: save the picture,
   * report its name, show it, ask the model, write the note. Returns the window afterwards
   * and the text of the exception that ended the block, if any.
   */
  function SaveAttempt(v: AppView, image: ImageNotes.Image, env: Env): (AppView, Option<string>)
  {
    var name := ImageNotes.ImageName(env.seconds, env.hex);
    match env.saveFault
    case Some(reason) => (v, Some(reason))
    case None =>
      var saved := v.(written := v.written + [PictureFile(PicturePath(name), image)]);
      var shown := ShowImageSpec(UpdateStatusSpec(saved, SAVED_AS + name), image, env.showFault);
      match env.analysis
      case Err(reason) => (shown, Some(reason))
      case Ok(a) =>
        match CreateMdFile(NotePath(name), EmbedTarget(name), a.category, a.tags, a.summary, env.date, env.writeFault)
        case Err(reason) => (shown, Some(reason))
        case Ok(note) => (shown.(written := shown.written + [NoteFile(note)]), None)
  }

  /** `handle_image`: the attempt, and on an exception its report and another try at showing the picture. */
  function HandleImageSpec(v: AppView, image: ImageNotes.Image, env: Env): AppView
  {
    var (after, failure) := SaveAttempt(v, image, env);
    match failure
    case Some(reason) => ShowImageSpec(UpdateStatusSpec(after, SAVE_FAILED + reason), image, env.showFault)
    case None => after
  }

  /** `handle_file_paths`: the first picture the list yields is handled; without one, that is reported. */
  function HandleFilePathsSpec(v: AppView, paths: seq<string>, env: Env): AppView
  {
    match ImageNotes.FirstImage(paths, env.disk)
    case Some(image) => HandleImageSpec(v, image, env)
    case None => UpdateStatusSpec(v, NO_VALID_IMAGE)
  }

  /** What an exception reaching `paste_content` puts on the status line. */
  function RaisedStatus(e: Raised): string
  {
    match e
    case TclError => UNRECOGNISED
    case OtherError(message) => ERROR_PREFIX + message
  }

  /** Python's truth value of what the grab returned: None and an empty list are false. */
  predicate HasContent(content: ImageNotes.Clipboard)
  {
    match content
    case Empty => false
    case Files(paths) => paths != []
    case Picture(_) => true
  }

  /** `paste_content`: a non-empty grab is handled as files or as a picture; otherwise the clipboard's text is shown. */
  function PasteSpec(v: AppView, env: Env): AppView
  {
    match env.grabbed
    case Err(e) => UpdateStatusSpec(v, RaisedStatus(e))
    case Ok(content) =>
      if HasContent(content) then
        match content
        case Files(paths) => HandleFilePathsSpec(v, paths, env)
        case Picture(image) => HandleImageSpec(v, image, env)
        case Empty => v
      else
        match env.clipboardText
        case Err(e) => UpdateStatusSpec(v, RaisedStatus(e))
        case Ok(text) => ShowTextSpec(v, text)
  }

  // ---------------------------------------------------------------------------------------
  // Properties of the handlers

  /** Whatever happens to a picture, it is on display afterwards unless preparing it for display raises. */
  lemma HandleImageShowsPicture(v: AppView, image: ImageNotes.Image, env: Env)
    requires env.showFault.None?
    ensures var r := HandleImageSpec(v, image, env);
            r.shownImage == Some(image) && r.imageReference == Some(image) && r.shownText == ""
  {
  }

  /**
   * Handling a picture writes nothing, or the picture, or the picture and then its note:
   * a note is never written without its picture, and the picture goes where the note's
   * embed points.
   */
  lemma HandleImageWrites(v: AppView, image: ImageNotes.Image, env: Env)
    ensures var r := HandleImageSpec(v, image, env);
            var name := ImageNotes.ImageName(env.seconds, env.hex);
            var picture := PictureFile(PicturePath(name), image);
            (r.written == v.written <==> env.saveFault.Some?)
            && (r.written == v.written + [picture] <==> env.saveFault.None? && (env.analysis.Err? || env.writeFault.Some?))
            && (env.saveFault.None? && env.analysis.Ok? && env.writeFault.None? ==>
                  r.written == v.written + [picture, NoteFile(SourceNotes.TextFile(NotePath(name),
                     ImageNotes.ImageNoteContent(EmbedTarget(name), env.analysis.value.category, env.analysis.value.tags,
                                                 env.date, env.analysis.value.summary), false))])
  {
    var name := ImageNotes.ImageName(env.seconds, env.hex);
    var picture := PictureFile(PicturePath(name), image);
    var r := HandleImageSpec(v, image, env);
    if env.saveFault.None? {
      assert r.written[..|v.written| + 1] == v.written + [picture];
      assert |r.written| > |v.written|;
    }
  }

  /**
   * The status a picture leaves: its saved name when everything succeeds, the failure
   * otherwise; a failure to display it has the last word.
   */
  lemma HandleImageStatus(v: AppView, image: ImageNotes.Image, env: Env)
    ensures var r := HandleImageSpec(v, image, env);
            var name := ImageNotes.ImageName(env.seconds, env.hex);
            (env.showFault.Some? ==> r.status == SHOW_FAILED + env.showFault.value)
            && (env.showFault.None? && env.saveFault.Some? ==> r.status == SAVE_FAILED + env.saveFault.value)
            && (env.showFault.None? && env.saveFault.None? && env.analysis.Err? ==> r.status == SAVE_FAILED + env.analysis.error)
            && (env.showFault.None? && env.saveFault.None? && env.analysis.Ok? && env.writeFault.Some? ==>
                  r.status == SAVE_FAILED + env.writeFault.value)
            && (env.showFault.None? && env.saveFault.None? && env.analysis.Ok? && env.writeFault.None? ==>
                  r.status == SAVED_AS + name)
  {
  }

  /** A list of paths with no picture in it writes nothing and says so. */
  lemma NoPictureInFiles(v: AppView, paths: seq<string>, env: Env)
    requires forall i :: 0 <= i < |paths| ==> !ImageNotes.Loadable(env.disk, paths[i])
    ensures HandleFilePathsSpec(v, paths, env).status == NO_VALID_IMAGE
    ensures HandleFilePathsSpec(v, paths, env).written == v.written
  {
    ImageNotes.FirstImageIsFirstLoadable(paths, env.disk);
  }

  /** Of a list of paths only the first that opens is handled: any picture saved is the one it opened to. */
  lemma OnlyFirstPictureHandled(v: AppView, paths: seq<string>, env: Env, i: nat)
    requires i < |paths| && ImageNotes.Loadable(env.disk, paths[i])
    requires forall j :: 0 <= j < i ==> !ImageNotes.Loadable(env.disk, paths[j])
    ensures HandleFilePathsSpec(v, paths, env) == HandleImageSpec(v, env.disk.open(paths[i]).value, env)
  {
    ImageNotes.FirstImageIsFirstLoadable(paths, env.disk);
  }

  /** `r` came after `v`: its timers are those of `v` and more, the last one a return to `就绪`. */
  ghost predicate ReportedAfter(v: AppView, r: AppView)
  {
    |r.scheduled| > |v.scheduled| && r.scheduled[..|v.scheduled|] == v.scheduled
    && r.scheduled[|r.scheduled| - 1] == StatusReset(RESET_DELAY_MS)
  }

  lemma ReportedAfterTrans(u: AppView, v: AppView, w: AppView)
    requires ReportedAfter(u, v)
    requires v.scheduled == w.scheduled || ReportedAfter(v, w)
    ensures ReportedAfter(u, w)
  {
    if v.scheduled != w.scheduled {
      assert w.scheduled[..|u.scheduled|] == w.scheduled[..|v.scheduled|][..|u.scheduled|];
    }
  }

  /** Showing a picture schedules nothing, or reports its failure. */
  lemma ShowImageReports(v: AppView, image: ImageNotes.Image, fault: Option<string>)
    ensures var r := ShowImageSpec(v, image, fault);
            r.scheduled == v.scheduled || ReportedAfter(v, r)
  {
  }

  /** An attempt that fails at once changes nothing; once the picture is saved, its name is reported. */
  lemma SaveAttemptReports(v: AppView, image: ImageNotes.Image, env: Env)
    ensures var (after, failure) := SaveAttempt(v, image, env);
            (env.saveFault.Some? ==> after == v && failure.Some?)
            && (env.saveFault.None? ==> ReportedAfter(v, after))
  {
    if env.saveFault.None? {
      var name := ImageNotes.ImageName(env.seconds, env.hex);
      var saved := v.(written := v.written + [PictureFile(PicturePath(name), image)]);
      var updated := UpdateStatusSpec(saved, SAVED_AS + name);
      var shown := ShowImageSpec(updated, image, env.showFault);
      assert ReportedAfter(v, updated);
      ShowImageReports(updated, image, env.showFault);
      ReportedAfterTrans(v, updated, shown);
      assert SaveAttempt(v, image, env).0.scheduled == shown.scheduled;
    }
  }

  /** The `except` branch of `handle_image` reports the failure. */
  lemma FailureReported(after: AppView, image: ImageNotes.Image, fault: Option<string>, reason: string)
    ensures ReportedAfter(after, ShowImageSpec(UpdateStatusSpec(after, SAVE_FAILED + reason), image, fault))
  {
    var updated := UpdateStatusSpec(after, SAVE_FAILED + reason);
    assert ReportedAfter(after, updated);
    ShowImageReports(updated, image, fault);
    ReportedAfterTrans(after, updated, ShowImageSpec(updated, image, fault));
  }

  /** Handling a picture always reports on the status line. */
  lemma HandleImageReports(v: AppView, image: ImageNotes.Image, env: Env)
    ensures ReportedAfter(v, HandleImageSpec(v, image, env))
  {
    var (after, failure) := SaveAttempt(v, image, env);
    SaveAttemptReports(v, image, env);
    if failure.Some? {
      var final := ShowImageSpec(UpdateStatusSpec(after, SAVE_FAILED + failure.value), image, env.showFault);
      FailureReported(after, image, env.showFault, failure.value);
      if env.saveFault.None? {
        ReportedAfterTrans(v, after, final);
      }
    }
  }

  /** Every paste reports on the status line and schedules the return to `就绪` after it. */
  lemma PasteAlwaysReports(v: AppView, env: Env)
    ensures ReportedAfter(v, PasteSpec(v, env))
  {
    match env.grabbed
    case Err(e) =>
    case Ok(content) =>
      if HasContent(content) {
        match content
        case Files(paths) =>
          match ImageNotes.FirstImage(paths, env.disk) {
            case Some(image) => HandleImageReports(v, image, env);
            case None =>
          }
        case Picture(image) =>
          HandleImageReports(v, image, env);
      }
  }

  /** With nothing to grab, the clipboard's text is shown, or Tk's failure to read it is reported as unrecognised. */
  lemma PasteFallsBackToText(v: AppView, env: Env)
    requires env.grabbed == Ok(ImageNotes.Empty) || env.grabbed == Ok(ImageNotes.Files([]))
    ensures var r := PasteSpec(v, env);
            r.written == v.written
            && (env.clipboardText.Ok? ==> r.shownText == env.clipboardText.value && r.shownImage == None && r.status == TEXT_SHOWN)
            && (env.clipboardText == Err(TclError) ==> r.status == UNRECOGNISED)
  {
  }

  // ---------------------------------------------------------------------------------------
  // The window

  class ClipboardApp {
    var status: string
    var shownText: string
    var shownImage: Option<ImageNotes.Image>
    var imageReference: Option<ImageNotes.Image>
    var scheduled: seq<Timer>
    var written: seq<Written>

    constructor ()
      ensures View() == AppView(READY, "", None, None, [], [])
    {
      status := READY;
      shownText := "";
      shownImage := None;
      imageReference := None;
      scheduled := [];
      written := [];
    }

    function View(): AppView
      reads this
    {
      AppView(status, shownText, shownImage, imageReference, scheduled, written)
    }

    method UpdateStatus(message: string)
      modifies this
      ensures View() == UpdateStatusSpec(old(View()), message)
    {
      status := message;
      scheduled := scheduled + [StatusReset(RESET_DELAY_MS)];
    }

    /** The event loop runs the earliest pending timer. */
    method ResetStatus()
      requires scheduled != []
      modifies this
      ensures View() == ResetStatusSpec(old(View()))
    {
      status := READY;
      scheduled := scheduled[1..];
    }

    method ShowText(text: string)
      modifies this
      ensures View() == ShowTextSpec(old(View()), text)
    {
      shownText := text;
      shownImage := None;
      UpdateStatus(TEXT_SHOWN);
    }

    /** `fault` is what scaling the picture or wrapping it for Tk raises. */
    method ShowImage(image: ImageNotes.Image, fault: Option<string>)
      modifies this
      ensures View() == ShowImageSpec(old(View()), image, fault)
    {
      match fault {
        case Some(reason) =>
          UpdateStatus(SHOW_FAILED + reason);
        case None =>
          shownImage := Some(image);
          shownText := "";
          imageReference := Some(image);
      }
    }

    method HandleImage(image: ImageNotes.Image, env: Env)
      modifies this
      ensures View() == HandleImageSpec(old(View()), image, env)
    {
      var name := ImageNotes.ImageName(env.seconds, env.hex);
      var failure: Option<string> := None;
      match env.saveFault {
        case Some(reason) =>
          failure := Some(reason);
        case None =>
          written := written + [PictureFile(PicturePath(name), image)];
          UpdateStatus(SAVED_AS + name);
          ShowImage(image, env.showFault);
          match env.analysis {
            case Err(reason) =>
              failure := Some(reason);
            case Ok(a) =>
              var note := CreateMdFile(NotePath(name), EmbedTarget(name), a.category, a.tags, a.summary, env.date, env.writeFault);
              match note {
                case Err(reason) =>
                  failure := Some(reason);
                case Ok(file) =>
                  written := written + [NoteFile(file)];
              }
          }
      }
      assert (View(), failure) == SaveAttempt(old(View()), image, env);
      if failure.Some? {
        UpdateStatus(SAVE_FAILED + failure.value);
        ShowImage(image, env.showFault);
      }
    }

    /**
     * The paths are tried in order; one that is not an existing file with a picture's
     * extension is skipped, and so is one whose opening raises. The first picture opened
     * is handled and ends the loop.
     */
    method HandleFilePaths(paths: seq<string>, env: Env)
      modifies this
      ensures View() == HandleFilePathsSpec(old(View()), paths, env)
    {
      ghost var accept := p => ImageNotes.Loadable(env.disk, p);
      for i := 0 to |paths|
        invariant ImageNotes.FirstAccepted(paths, accept, i) == ImageNotes.FirstAccepted(paths, accept, 0)
        invariant View() == old(View())
      {
        var path := paths[i];
        if env.disk.isFile(path) && ImageNotes.IsImagePath(path) {
          var picture := env.disk.open(path);
          if picture.Some? {
            assert accept(path);
            assert ImageNotes.FirstImage(paths, env.disk) == picture;
            HandleImage(picture.value, env);
            return;
          }
        }
        assert !accept(path);
      }
      UpdateStatus(NO_VALID_IMAGE);
    }

    method PasteContent(env: Env)
      modifies this
      ensures View() == PasteSpec(old(View()), env)
    {
      match env.grabbed {
        case Err(e) =>
          UpdateStatus(RaisedStatus(e));
        case Ok(content) =>
          if HasContent(content) {
            match content {
              case Files(paths) =>
                HandleFilePaths(paths, env);
              case Picture(image) =>
                HandleImage(image, env);
            }
            return;
          }
          match env.clipboardText {
            case Err(e) =>
              UpdateStatus(RaisedStatus(e));
            case Ok(text) =>
              ShowText(text);
          }
      }
    }
  }
}
