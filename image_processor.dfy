/**
 * Saving a pasted picture as a note: the generated file name, where the picture and its
 * note go, the note's front matter, and which picture a clipboard holding a list of file
 * paths yields.
 */
module ImageNotes {
  import opened Wrappers
  import opened PyText
  import opened Seqs
  import SourceNotes

  const IMAGE_SAVE_FAILED: string := "图片保存失败: "

  /** The file extensions a path must have, compared in lower case, to count as a picture. */
  const VALID_EXTENSIONS: seq<string> := [".png", ".jpg", ".jpeg", ".bmp", ".gif"]

  /** A decoded picture, known by the handle the imaging library gives it. */
  datatype Image = Image(handle: nat)

  /** What the clipboard grab returns: nothing, a list of file paths, or a picture. */
  datatype Clipboard = Empty | Files(paths: seq<string>) | Picture(image: Image)

  /**
   * The file system as the code sees it: whether a path names an existing file, and the
   * picture opening it yields, or None when opening it raises.
   */
  datatype Disk = Disk(isFile: string -> bool, open: string -> Option<Image>)

  /** A processor bound to a note directory; pictures go to its `images` subdirectory. */
  datatype ImageProcessor = ImageProcessor(noteDir: string)
  {
    function ImagesDir(): string
    {
      JoinPath(noteDir, "images")
    }
  }

  /** The record `save_image` returns. */
  datatype SavedImage = SavedImage(filename: string, imagePath: string, mdPath: string, relativePath: string)

  // ---------------------------------------------------------------------------------------
  // The generated name

  /**
   * `image_<seconds>_<hex>`: the whole seconds of the clock, then the first six characters
   * of a random uuid's hex form.
   */
  function ImageName(seconds: nat, hex: string): string
  {
    "image_" + Decimal(seconds) + "_" + Take(hex, 6)
  }

  /** The parts of a generated name, position by position. */
  lemma ImageNameParts(seconds: nat, hex: string)
    ensures var name := ImageName(seconds, hex);
            var digits := Decimal(seconds);
            |name| == 7 + |digits| + |Take(hex, 6)|
            && name[..6] == "image_" && name[6..6 + |digits|] == digits
            && name[6 + |digits|] == '_' && name[7 + |digits|..] == Take(hex, 6)
  {
  }

  /**
   * Distinct clock readings, or distinct leading hex characters, give distinct names: the
   * name determines both, because the digits end at the first `_` after the prefix.
   */
  lemma ImageNameInjective(s1: nat, h1: string, s2: nat, h2: string)
    requires ImageName(s1, h1) == ImageName(s2, h2)
    ensures s1 == s2 && Take(h1, 6) == Take(h2, 6)
  {
    var name := ImageName(s1, h1);
    var d1, d2 := Decimal(s1), Decimal(s2);
    ImageNameParts(s1, h1);
    ImageNameParts(s2, h2);
    // The `_` after the digits of either reading sits where the other has a digit.
    if |d1| != |d2| {
      assert false;
    }
    assert d1 == name[6..6 + |d1|] == d2;
    DecimalRoundTrip(s1);
    DecimalRoundTrip(s2);
  }

  /** A generated name, with any suffix, joins onto a directory as it is. */
  lemma ImageNameIsRelative(seconds: nat, hex: string, suffix: string)
    ensures RelativeName(ImageName(seconds, hex) + suffix)
  {
    ImageNameParts(seconds, hex);
    assert (ImageName(seconds, hex) + suffix)[..2] == "im";
  }

  // ---------------------------------------------------------------------------------------
  // Saving the picture

  /**
   * `save_image`: the picture is written as `<name>.png` under the images directory, and the
   * record names it, its note `<name>.md` in the note directory, and its path relative to the
   * note directory. `saveFault` is what writing the picture raises.
   */
  function SaveImage(proc: ImageProcessor, seconds: nat, hex: string, saveFault: Option<string>): (r: Result<SavedImage, string>)
    ensures r.Err? <==> saveFault.Some?
    ensures r.Err? ==> r.error == IMAGE_SAVE_FAILED + saveFault.value
    ensures r.Ok? ==> r.value.filename == ImageName(seconds, hex)
    ensures r.Ok? ==> r.value.relativePath == "images/" + r.value.filename + ".png"
    ensures r.Ok? ==> RelativeName(r.value.filename + ".png") && RelativeName(r.value.filename + ".md")
                      && r.value.imagePath == JoinPath(proc.ImagesDir(), r.value.filename + ".png")
                      && r.value.mdPath == JoinPath(proc.noteDir, r.value.filename + ".md")
  {
    var name := ImageName(seconds, hex);
    ImageNameIsRelative(seconds, hex, ".png");
    ImageNameIsRelative(seconds, hex, ".md");
    match saveFault
    case Some(reason) => Err(IMAGE_SAVE_FAILED + reason)
    case None =>
      Ok(SavedImage(name, JoinPath(proc.ImagesDir(), name + ".png"),
                    JoinPath(proc.noteDir, name + ".md"), "images/" + name + ".png"))
  }

  /** Replacing every `/` by `\`, as Windows reads a path. */
  function Backslashed(path: string): string
  {
    ReplaceChar(path, '/', '\\')
  }

  /** A uuid's hex form: lower-case hexadecimal digits only. */
  predicate IsHex(s: string)
  {
    forall i :: 0 <= i < |s| ==> s[i] in "0123456789abcdef"
  }

  /** A generated name holds no separator. */
  lemma ImageNameHasNoSlash(seconds: nat, hex: string)
    requires IsHex(hex)
    ensures '/' !in ImageName(seconds, hex)
    ensures '\\' !in ImageName(seconds, hex)
  {
  }

  /** A name joined onto the images directory always gets a backslash before it. */
  lemma JoinOntoImagesDir(dir: string, file: string)
    requires RelativeName(file)
    ensures JoinPath(JoinPath(dir, "images"), file) == JoinPath(dir, "images") + "\\" + file
  {
    var images := JoinPath(dir, "images");
    assert images[|images| - 1] == 's';
    var part := if |images| >= 2 && images[1] == ':' then images[2..] else images;
    assert part[|part| - 1] == 's';
  }

  /** Reading a `/` between two slash-free parts as a backslash. */
  lemma BackslashedSeparator(a: string, b: string)
    requires '/' !in a && '/' !in b
    ensures Backslashed(a + "/" + b) == a + "\\" + b
  {
    ReplaceCharAppend(a + "/", b, '/', '\\');
    ReplaceCharAppend(a, "/", '/', '\\');
    ReplaceAbsentChar(a, '/', '\\');
    ReplaceAbsentChar(b, '/', '\\');
    ReplaceCharAt("/", '/', '\\');
  }

  /**
   * Where `save_image` puts the picture and the note under a note directory that ends in
   * neither a separator nor a drive's colon: the note directly in it, the picture in its
   * `images` subdirectory, under a name that holds no separator.
   */
  lemma SavedPathsUnderNoteDir(proc: ImageProcessor, seconds: nat, hex: string)
    requires NeedsSeparator(proc.noteDir) && IsHex(hex)
    ensures var r := SaveImage(proc, seconds, hex, None);
            var name := ImageName(seconds, hex);
            '/' !in name && '\\' !in name
            && r.value.mdPath == proc.noteDir + "\\" + (name + ".md")
            && r.value.imagePath == proc.noteDir + "\\" + "images" + "\\" + (name + ".png")
  {
    var dir := proc.noteDir;
    var name := ImageName(seconds, hex);
    ImageNameHasNoSlash(seconds, hex);
    ImageNameIsRelative(seconds, hex, ".md");
    ImageNameIsRelative(seconds, hex, ".png");
    JoinPathInserts(dir, name + ".md");
    JoinPathInserts(dir, "images");
    JoinOntoImagesDir(dir, name + ".png");
  }

  /** The images directory of a slash-free note directory is slash-free. */
  lemma ImagesDirHasNoSlash(dir: string)
    requires '/' !in dir
    ensures '/' !in JoinPath(dir, "images")
  {
  }

  /** The relative path is `images`, a `/`, and the picture's file name. */
  lemma RelativePathParts(name: string)
    ensures "images/" + name + ".png" == "images" + ("/" + (name + ".png"))
  {
    assert "images/" == "images" + "/";
    AppendAssoc("images/", name, ".png");
    AppendAssoc("images", "/", name + ".png");
  }

  /** Read with backslashes, `images/<file>` under a slash-free directory is where the picture is saved. */
  lemma BackslashedImagePath(dir: string, file: string)
    requires '/' !in dir && '/' !in file && RelativeName(file)
    ensures Backslashed(JoinPath(dir, "images") + ("/" + file)) == JoinPath(JoinPath(dir, "images"), file)
  {
    var images := JoinPath(dir, "images");
    JoinOntoImagesDir(dir, file);
    ImagesDirHasNoSlash(dir);
    AppendAssoc(images, "/", file);
    BackslashedSeparator(images, file);
  }

  /**
   * The relative path the record carries, read from the note directory, reaches the saved
   * picture, provided the note directory is written with backslashes.
   */
  lemma RelativePathReachesImage(proc: ImageProcessor, seconds: nat, hex: string)
    requires '/' !in proc.noteDir && IsHex(hex)
    ensures var r := SaveImage(proc, seconds, hex, None);
            RelativeName(r.value.relativePath)
            && Backslashed(JoinPath(proc.noteDir, r.value.relativePath)) == r.value.imagePath
  {
    var dir := proc.noteDir;
    var name := ImageName(seconds, hex);
    var file := name + ".png";
    var r := SaveImage(proc, seconds, hex, None);
    assert r.value.relativePath == "images" + ("/" + file) by {
      RelativePathParts(name);
    }
    assert JoinPath(dir, "images" + ("/" + file)) == JoinPath(dir, "images") + ("/" + file) by {
      ImageNameIsRelative(seconds, hex, ".png");
      JoinPathAppend(dir, "images", "/" + file);
    }
    assert Backslashed(JoinPath(dir, "images") + ("/" + file)) == r.value.imagePath by {
      ImageNameHasNoSlash(seconds, hex);
      ImageNameIsRelative(seconds, hex, ".png");
      BackslashedImagePath(dir, file);
    }
  }

  // ---------------------------------------------------------------------------------------
  // The note

  /** The lines of the note `create_md_file` writes about a picture, before the summary. */
  function ImageNoteHeader(imagePath: string, category: string, tags: string, date: string): seq<string>
  {
    ["---", "category: " + category, "tags: " + tags, "created: " + date, "---", "![[" + imagePath + "]]"]
  }

  /** The note: front matter, the embedded picture, then the summary, with no trailing line break. */
  function ImageNoteContent(imagePath: string, category: string, tags: string, date: string, summary: string): string
  {
    Join(ImageNoteHeader(imagePath, category, tags, date) + [summary], '\n')
  }

  /**
   * The note's lines: the front matter, the embed line, then the summary's own lines,
   * provided no field but the summary holds a line break.
   */
  lemma ImageNoteLines(imagePath: string, category: string, tags: string, date: string, summary: string)
    requires '\n' !in imagePath && '\n' !in category && '\n' !in tags && '\n' !in date
    ensures Split(ImageNoteContent(imagePath, category, tags, date, summary), '\n') ==
              ["---", "category: " + category, "tags: " + tags, "created: " + date, "---",
               "![[" + imagePath + "]]"] + Split(summary, '\n')
  {
    var header := ImageNoteHeader(imagePath, category, tags, date);
    assert forall i :: 0 <= i < |header| ==> '\n' !in header[i];
    SplitLinesThenText(header, summary, '\n');
  }

  /**
   * `ImageProcessor.create_md_file`: `date` is the current date as `%Y-%m-%d`; `writeFault`
   * is what opening or writing the file raises, reported under a fixed prefix.
   */
  function CreateMdFile(mdPath: string, imagePath: string, category: string, tags: string, summary: string,
                        date: string, writeFault: Option<string>): (r: Result<SourceNotes.TextFile, string>)
    ensures r.Err? <==> writeFault.Some?
    ensures r.Err? ==> r.error == SourceNotes.NOTE_WRITE_FAILED + writeFault.value
    ensures r.Ok? ==> r.value.path == mdPath && !r.value.translatesNewlines
  {
    match writeFault
    case Some(reason) => Err(SourceNotes.NOTE_WRITE_FAILED + reason)
    case None => Ok(SourceNotes.TextFile(mdPath, ImageNoteContent(imagePath, category, tags, date, summary), false))
  }

  // ---------------------------------------------------------------------------------------
  // Which picture a clipboard yields

  /** A path whose extension, lower-cased, is on the whitelist. */
  predicate IsImagePath(p: string)
  {
    Lower(Extension(p)) in VALID_EXTENSIONS
  }

  /** Whether a path names a picture does not depend on the case it is written in. */
  lemma IsImagePathIgnoresCase(p: string)
    ensures IsImagePath(Lower(p)) == IsImagePath(p)
  {
    ExtensionOfLower(p);
    LowerTwice(Extension(p));
  }

  /** The extension of `a.PNG` is `.PNG`, as written. */
  lemma UpperCaseExtension()
    ensures Extension("a.PNG") == ".PNG"
  {
    assert LastIndexIn("a.PNG", PathSeparators) == -1;
    LastIndexInAt("a.PNG", {'.'}, 1);
  }

  /** An upper-case extension counts. */
  lemma UpperCaseExtensionIsImage()
    ensures IsImagePath("a.PNG")
  {
    UpperCaseExtension();
    LowerAt(".PNG");
    assert Lower(".PNG") == ".png";
  }

  /** A dot file has no extension, so `.png` alone is not a picture's name. */
  lemma DotFileIsNotImage()
    ensures !IsImagePath("x\\.png")
  {
    LastIndexInAt("x\\.png", PathSeparators, 1);
    LastIndexInAt("x\\.png", {'.'}, 2);
    assert Extension("x\\.png") == "";
  }

  /** A path the loop accepts: an existing file with a picture's extension that opens. */
  predicate Loadable(disk: Disk, p: string)
  {
    disk.isFile(p) && IsImagePath(p) && disk.open(p).Some?
  }

  /** The index of the first path, from `from` on, that `accept` holds of. */
  function FirstAccepted(paths: seq<string>, accept: string -> bool, from: nat): (r: Option<nat>)
    requires from <= |paths|
    ensures r.Some? ==> from <= r.value < |paths| && accept(paths[r.value])
    ensures r.Some? ==> forall j :: from <= j < r.value ==> !accept(paths[j])
    ensures r.None? <==> forall j :: from <= j < |paths| ==> !accept(paths[j])
    decreases |paths| - from
  {
    if from == |paths| then None
    else if accept(paths[from]) then Some(from)
    else FirstAccepted(paths, accept, from + 1)
  }

  /** The picture a list of paths yields: the one the first accepted path opens to. */
  function FirstImage(paths: seq<string>, disk: Disk): (image: Option<Image>)
  {
    match FirstAccepted(paths, p => Loadable(disk, p), 0)
    case None => None
    case Some(i) => disk.open(paths[i])
  }

  /**
   * A list yields a picture exactly when one of its paths is accepted, and then it is the
   * picture the earliest accepted path opens to.
   */
  lemma FirstImageIsFirstLoadable(paths: seq<string>, disk: Disk)
    ensures var image := FirstImage(paths, disk);
            (image.Some? <==> exists i :: 0 <= i < |paths| && Loadable(disk, paths[i]))
            && (image.Some? ==> exists i :: 0 <= i < |paths| && Loadable(disk, paths[i]) && image == disk.open(paths[i])
                                             && forall j :: 0 <= j < i ==> !Loadable(disk, paths[j]))
  {
    var accept := p => Loadable(disk, p);
    var r := FirstAccepted(paths, accept, 0);
    assert forall j :: 0 <= j < |paths| ==> (accept(paths[j]) <==> Loadable(disk, paths[j]));
    if r.Some? {
      assert Loadable(disk, paths[r.value]);
    }
  }

  /**
   * `_handle_file_paths`: the paths are tried in order; a path that is not an existing file
   * with a picture's extension is skipped, and so is one whose opening raises.
   */
  method HandleFilePaths(paths: seq<string>, disk: Disk) returns (image: Option<Image>)
    ensures image == FirstImage(paths, disk)
  {
    ghost var accept := p => Loadable(disk, p);
    for i := 0 to |paths|
      invariant FirstAccepted(paths, accept, i) == FirstAccepted(paths, accept, 0)
    {
      var path := paths[i];
      if disk.isFile(path) && IsImagePath(path) {
        var picture := disk.open(path);
        if picture.Some? {
          assert accept(path);
          assert FirstAccepted(paths, accept, i) == Some(i);
          return picture;
        }
      }
      assert !accept(path);
      assert FirstAccepted(paths, accept, i) == FirstAccepted(paths, accept, i + 1);
    }
    assert FirstAccepted(paths, accept, |paths|) == None;
    return None;
  }

  /** `process_clipboard_image`: a list goes through the path loop, a picture comes back as it is. */
  method ProcessClipboardImage(content: Clipboard, disk: Disk) returns (image: Option<Image>)
    ensures content.Files? ==> image == FirstImage(content.paths, disk)
    ensures content.Picture? ==> image == Some(content.image)
    ensures content.Empty? ==> image == None
  {
    match content
    case Files(paths) =>
      image := HandleFilePaths(paths, disk);
    case Picture(picture) =>
      image := Some(picture);
    case Empty =>
      image := None;
  }
}
