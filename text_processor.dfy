/**
 * Saving a pasted Markdown source: find its `# ` title, drop the title line, prune the
 * front matter from the `tags:` line down to the first `source:` line, and write the result
 * as `source_<title>.md`; then the note that links to that source.
 */
module SourceNotes {
  import opened Wrappers
  import opened PyText
  import opened Seqs

  const MISSING_TITLE: string := "未找到标题行（以#开头的行）"
  const NOTE_WRITE_FAILED: string := "Markdown文件创建失败: "

  /** A file the code writes: where, what, and whether text mode turns each `\n` into `\r\n`. */
  datatype TextFile = TextFile(path: string, content: string, translatesNewlines: bool)

  /** Why `process_source` fails: no usable title (a ValueError), or the write raised. */
  datatype SourceError = MissingTitle | WriteFailed(reason: string)

  datatype SourceSaved = SourceSaved(title: string, file: TextFile)

  // ---------------------------------------------------------------------------------------
  // The title

  /** A line that, once stripped, starts with `# `. */
  predicate IsHeading(line: string)
  {
    StartsWith(Strip(line), "# ")
  }

  /** The title a heading line gives: its hash marks and spaces dropped, then stripped. */
  function HeadingTitle(line: string): (title: string)
    ensures |title| <= |line|
    ensures title != [] ==> !IsSpace(title[0]) && !IsSpace(title[|title| - 1])
  {
    Strip(LStripChars(Strip(line), {'#', ' '}))
  }

  /** The index of the first heading line at or after `from`. */
  function FirstHeadingFrom(lines: seq<string>, from: nat): (r: Option<nat>)
    requires from <= |lines|
    ensures r.Some? ==> from <= r.value < |lines| && IsHeading(lines[r.value])
    ensures r.Some? ==> forall i :: from <= i < r.value ==> !IsHeading(lines[i])
    ensures r.None? ==> forall i :: from <= i < |lines| ==> !IsHeading(lines[i])
    decreases |lines| - from
  {
    if from == |lines| then None
    else if IsHeading(lines[from]) then Some(from)
    else FirstHeadingFrom(lines, from + 1)
  }

  /** The index of the first heading line. */
  function FirstHeading(lines: seq<string>): (r: Option<nat>)
  {
    FirstHeadingFrom(lines, 0)
  }

  /** The title loop: stops at the first heading, whatever title it gives. */
  method FindTitle(lines: seq<string>) returns (title: Option<string>, index: Option<nat>)
    ensures index == FirstHeading(lines)
    ensures title.Some? <==> index.Some?
    ensures index.Some? ==> title == Some(HeadingTitle(lines[index.value]))
  {
    title := None;
    index := None;
    for i := 0 to |lines|
      invariant title.None? && index.None?
      invariant FirstHeadingFrom(lines, i) == FirstHeading(lines)
    {
      var stripped := Strip(lines[i]);
      if StartsWith(stripped, "# ") {
        title := Some(Strip(LStripChars(stripped, {'#', ' '})));
        index := Some(i);
        return;
      }
    }
  }

  // ---------------------------------------------------------------------------------------
  // The front matter

  /** The closing `\n---` of a front matter block starts at `k`. */
  predicate FenceAt(text: string, k: nat)
  {
    k + 4 <= |text| && text[k] == '\n' && text[k + 1] == '-' && text[k + 2] == '-' && text[k + 3] == '-'
  }

  /** The first closing fence at or after `from`: the lazy `(.*?)\n---` of the pattern. */
  function FindClose(text: string, from: nat): (r: Option<nat>)
    ensures r.Some? ==> from <= r.value && FenceAt(text, r.value)
    ensures r.Some? ==> forall k :: from <= k < r.value ==> !FenceAt(text, k)
    ensures r.None? ==> forall k :: from <= k ==> !FenceAt(text, k)
    decreases |text| - from
  {
    if from + 4 > |text| then None
    else if FenceAt(text, from) then Some(from)
    else FindClose(text, from + 1)
  }

  /**
   * `re.search(r'^---\n(.*?)\n---', text, re.DOTALL)`: the pattern is anchored at the start
   * of the text; the result is where the closing fence starts, so the block is `text[4..j]`.
   */
  function FrontMatter(text: string): (r: Option<nat>)
    ensures r.Some? ==> StartsWith(text, "---\n") && 4 <= r.value && FenceAt(text, r.value)
    ensures r.Some? ==> forall k :: 4 <= k < r.value ==> !FenceAt(text, k)
    ensures r.None? ==> !StartsWith(text, "---\n") || forall k :: 4 <= k ==> !FenceAt(text, k)
  {
    if StartsWith(text, "---\n") then FindClose(text, 4) else None
  }

  predicate IsTagsLine(line: string)
  {
    StartsWith(Strip(line), "tags:")
  }

  predicate IsSourceLine(line: string)
  {
    StartsWith(Strip(line), "source:")
  }

  /**
   * The metadata loop from line `i` on, with the last `tags:` line seen so far: it stops at
   * the first `source:` line once some `tags:` line was seen.
   */
  function ScanMetadata(meta: seq<string>, i: nat, tags: Option<nat>): (r: (Option<nat>, Option<nat>))
    requires i <= |meta|
    ensures r.1.Some? ==> r.0.Some? && r.1.value < |meta|
    decreases |meta| - i
  {
    if i == |meta| then (tags, None)
    else
      var tags' := if IsTagsLine(meta[i]) then Some(i) else tags;
      if IsSourceLine(meta[i]) && tags'.Some? then (tags', Some(i))
      else ScanMetadata(meta, i + 1, tags')
  }

  /** No `source:` line before line `n` comes after a `tags:` line. */
  predicate NoSourceAfterTags(meta: seq<string>, n: nat)
    requires n <= |meta|
  {
    forall k, k' :: 0 <= k' < k < n && IsTagsLine(meta[k']) ==> !IsSourceLine(meta[k])
  }

  /** Line `t` is the last `tags:` line before line `n`. */
  predicate LastTagsBefore(meta: seq<string>, t: nat, n: nat)
    requires n <= |meta|
  {
    t < n && IsTagsLine(meta[t]) && forall k :: t < k < n ==> !IsTagsLine(meta[k])
  }

  /** What the metadata loop knows on reaching line `i` with `tags`. */
  predicate ScannedUpTo(meta: seq<string>, i: nat, tags: Option<nat>)
    requires i <= |meta|
  {
    (match tags
     case Some(t) => LastTagsBefore(meta, t, i)
     case None => forall k :: 0 <= k < i ==> !IsTagsLine(meta[k]))
    && NoSourceAfterTags(meta, i)
  }

  /** One turn of the metadata loop: it stops with the last `tags:` line, or goes on knowing one line more. */
  lemma ScanStep(meta: seq<string>, i: nat, tags: Option<nat>)
    requires i < |meta| && ScannedUpTo(meta, i, tags)
    ensures var tags' := if IsTagsLine(meta[i]) then Some(i) else tags;
            (IsSourceLine(meta[i]) && tags'.Some? ==> tags' == tags && LastTagsBefore(meta, tags.value, i))
            && (!(IsSourceLine(meta[i]) && tags'.Some?) ==> ScannedUpTo(meta, i + 1, tags'))
  {
    var tags' := if IsTagsLine(meta[i]) then Some(i) else tags;
    assert IsTagsLine(meta[i]) ==> !IsSourceLine(meta[i]);
    if !(IsSourceLine(meta[i]) && tags'.Some?) {
      forall k, k' | 0 <= k' < k < i + 1 && IsTagsLine(meta[k'])
        ensures !IsSourceLine(meta[k])
      {
        if k == i {
          assert tags.Some?;
        }
      }
    }
  }

  /** What the loop leaves behind from line `i` on, given what it knows on reaching line `i`. */
  lemma {:induction false} ScanMetadataFinds(meta: seq<string>, i: nat, tags: Option<nat>)
    requires i <= |meta| && ScannedUpTo(meta, i, tags)
    ensures var (t, s) := ScanMetadata(meta, i, tags);
            (s.Some? ==>
               t.Some? && s.value < |meta| && LastTagsBefore(meta, t.value, s.value)
               && IsSourceLine(meta[s.value]) && NoSourceAfterTags(meta, s.value))
            && (s.None? ==> NoSourceAfterTags(meta, |meta|))
    decreases |meta| - i
  {
    if i < |meta| {
      ScanStep(meta, i, tags);
      var tags' := if IsTagsLine(meta[i]) then Some(i) else tags;
      if !(IsSourceLine(meta[i]) && tags'.Some?) {
        ScanMetadataFinds(meta, i + 1, tags');
      }
    }
  }

  /**
   * The lines `[t, s)` the code deletes: from the last `tags:` line before the first
   * `source:` line that follows a `tags:` line, up to that `source:` line.
   */
  function DeletedRange(meta: seq<string>): (r: Option<(nat, nat)>)
    ensures r.Some? ==> r.value.0 < r.value.1 < |meta|
  {
    var (t, s) := ScanMetadata(meta, 0, None);
    if t.Some? && s.Some? && t.value < s.value then Some((t.value, s.value)) else None
  }

  /**
   * Which lines are deleted: from the last `tags:` line before the first `source:` line that
   * follows a `tags:` line; and nothing is deleted exactly when no `source:` line follows a `tags:` line.
   */
  lemma DeletedRangeIsTagsToSource(meta: seq<string>)
    ensures var r := DeletedRange(meta);
            (r.Some? ==>
               var (t, s) := r.value;
               s < |meta| && LastTagsBefore(meta, t, s) && IsSourceLine(meta[s]) && NoSourceAfterTags(meta, s))
            && (r.None? <==> NoSourceAfterTags(meta, |meta|))
  {
    ScanMetadataFinds(meta, 0, None);
    var r := DeletedRange(meta);
    if r.Some? {
      var (t, s) := r.value;
      assert IsTagsLine(meta[t]) && IsSourceLine(meta[s]);
    }
  }

  /** The metadata loop; the returned pair is `(tags_idx, source_idx)`. */
  method LocateTagsToSource(meta: seq<string>) returns (tagsIdx: Option<nat>, sourceIdx: Option<nat>)
    ensures (tagsIdx, sourceIdx) == ScanMetadata(meta, 0, None)
  {
    tagsIdx := None;
    sourceIdx := None;
    for i := 0 to |meta|
      invariant sourceIdx.None?
      invariant ScanMetadata(meta, i, tagsIdx) == ScanMetadata(meta, 0, None)
    {
      var line := Strip(meta[i]);
      if StartsWith(line, "tags:") {
        tagsIdx := Some(i);
      }
      if StartsWith(line, "source:") && tagsIdx.Some? {
        sourceIdx := Some(i);
        return;
      }
    }
  }

  /** The metadata lines that survive the deletion. */
  function KeptLines(meta: seq<string>, t: nat, s: nat): (kept: seq<string>)
    requires t < s <= |meta|
    ensures |kept| == |meta| - (s - t)
    ensures forall k :: 0 <= k < t ==> kept[k] == meta[k]
    ensures forall k :: t <= k < |kept| ==> kept[k] == meta[k + (s - t)]
  {
    meta[..t] + meta[s..]
  }

  /**
   * The text after the front-matter step: unchanged without a front matter or without a
   * range to delete; otherwise the block is rebuilt from the kept lines and the rest of the
   * text follows the closing fence as before.
   */
  function Prune(text: string): string
  {
    match FrontMatter(text)
    case None => text
    case Some(j) =>
      var meta := Split(text[4..j], '\n');
      match DeletedRange(meta)
      case None => text
      case Some((t, s)) => "---\n" + Join(KeptLines(meta, t, s), '\n') + "\n---" + text[j + 4..]
  }

  /** The front-matter step of `process_source`, with its metadata loop. */
  method PruneFrontMatter(text: string) returns (processed: string)
    ensures processed == Prune(text)
  {
    processed := text;
    var close := FrontMatter(text);
    if close.Some? {
      var j := close.value;
      var meta := Split(text[4..j], '\n');
      var tagsIdx, sourceIdx := LocateTagsToSource(meta);
      if tagsIdx.Some? && sourceIdx.Some? && tagsIdx.value < sourceIdx.value {
        processed := "---\n" + Join(KeptLines(meta, tagsIdx.value, sourceIdx.value), '\n') + "\n---" + text[j + 4..];
      }
    }
  }

  /** `source_<title>.md` with every `/` of it turned into `_`: a relative name without a drive. */
  function SourceFileName(title: string): (name: string)
    ensures RelativeName(name)
  {
    var plain := "source_" + title + ".md";
    ReplaceCharAt(plain, '/', '_');
    assert plain[0] == 's' && plain[1] == 'o';
    ReplaceChar(plain, '/', '_')
  }

  /** No `/` survives in the saved name; a `\` in the title does (see `BackslashTitleLeavesSourceDir`). */
  lemma SourceFileNameHasNoSlash(title: string)
    ensures '/' !in SourceFileName(title)
  {
    ReplaceCharAt("source_" + title + ".md", '/', '_');
  }

  /**
   * `process_source`. `writeFault` is what opening or writing the output file raises, if
   * anything; that exception leaves the method as it is.
   */
  function ProcessSourceSpec(mdText: string, sourceDir: string, writeFault: Option<string>): Result<SourceSaved, SourceError>
  {
    var lines := Split(mdText, '\n');
    match FirstHeading(lines)
    case None => Err(MissingTitle)
    case Some(i) =>
      var title := HeadingTitle(lines[i]);
      if title == "" then Err(MissingTitle)
      else
        var text := Join(lines[..i] + lines[i + 1..], '\n');
        var path := JoinPath(sourceDir, SourceFileName(title));
        match writeFault
        case Some(reason) => Err(WriteFailed(reason))
        case None => Ok(SourceSaved(title, TextFile(path, Prune(text), true)))
  }

  method ProcessSource(mdText: string, sourceDir: string, writeFault: Option<string>)
    returns (r: Result<SourceSaved, SourceError>)
    ensures r == ProcessSourceSpec(mdText, sourceDir, writeFault)
  {
    var lines := Split(mdText, '\n');
    var title, titleIndex := FindTitle(lines);
    if title.None? || title.value == "" {
      return Err(MissingTitle);
    }
    var i := titleIndex.value;
    var text := Join(lines[..i] + lines[i + 1..], '\n');
    var processed := PruneFrontMatter(text);
    var path := JoinPath(sourceDir, SourceFileName(title.value));
    if writeFault.Some? {
      return Err(WriteFailed(writeFault.value));
    }
    r := Ok(SourceSaved(title.value, TextFile(path, processed, true)));
  }

  // ---------------------------------------------------------------------------------------
  // Properties of `process_source`

  /**
   * A source is saved exactly when it has a heading whose title is not empty (and the write
   * succeeds); the title is that of the first heading, and it names the file.
   */
  lemma SavedUnderFirstTitle(mdText: string, sourceDir: string, writeFault: Option<string>)
    ensures var lines := Split(mdText, '\n');
            var r := ProcessSourceSpec(mdText, sourceDir, writeFault);
            (r == Err(MissingTitle) <==>
               FirstHeading(lines).None? || HeadingTitle(lines[FirstHeading(lines).value]) == "")
            && (r.Ok? <==> r != Err(MissingTitle) && writeFault.None?)
            && (r.Ok? ==>
                  var i := FirstHeading(lines).value;
                  r.value.title == HeadingTitle(lines[i]) && r.value.title != ""
                  && r.value.file.path == JoinPath(sourceDir, SourceFileName(r.value.title)))
  {
  }

  /** Removing the title line keeps every other line of the text, in order. */
  lemma {:induction false} TitleLineRemoved(mdText: string, i: nat)
    requires var lines := Split(mdText, '\n'); i < |lines| && |lines| >= 2
    ensures var lines := Split(mdText, '\n');
            Split(Join(lines[..i] + lines[i + 1..], '\n'), '\n') == lines[..i] + lines[i + 1..]
  {
    var lines := Split(mdText, '\n');
    var rest := lines[..i] + lines[i + 1..];
    assert forall k :: 0 <= k < |rest| ==> rest[k] in lines;
    SplitJoin(rest, '\n');
  }

  /** A text that does not open with a front matter fence is written as it is. */
  lemma PruneKeepsPlainText(text: string)
    requires !StartsWith(text, "---\n")
    ensures Prune(text) == text
  {
  }

  /** The lines of a join start right after a separator; `Offset(lines, i)` is where `lines[i]` begins. */
  function Offset(lines: seq<string>, i: nat): (p: nat)
    requires i <= |lines|
  {
    if i == 0 then 0 else Offset(lines, i - 1) + |lines[i - 1]| + 1
  }

  /** Where each line sits in the join, and the separator before it. */
  lemma {:induction false} JoinPlacesLine(lines: seq<string>, i: nat)
    requires i < |lines|
    ensures var m := Join(lines, '\n');
            Offset(lines, i) + |lines[i]| <= |m|
            && m[Offset(lines, i)..Offset(lines, i) + |lines[i]|] == lines[i]
            && (i >= 1 ==> m[Offset(lines, i) - 1] == '\n')
  {
    if i == 0 {
      if |lines| > 1 {
        assert Join(lines, '\n') == lines[0] + ['\n'] + Join(lines[1..], '\n');
      }
    } else {
      var tail := lines[1..];
      JoinPlacesLine(tail, i - 1);
      OffsetOfTail(lines, i);
      var m := Join(lines, '\n');
      assert m == lines[0] + ['\n'] + Join(tail, '\n');
    }
  }

  /** Dropping the first line shifts every offset by that line and its separator. */
  lemma {:induction false} OffsetOfTail(lines: seq<string>, i: nat)
    requires 1 <= i <= |lines|
    ensures Offset(lines, i) == |lines[0]| + 1 + Offset(lines[1..], i - 1)
  {
    if i > 1 {
      OffsetOfTail(lines, i - 1);
    }
  }

  /** No line of `lines` after the first begins with `---`. */
  predicate NoFenceAfterFirst(lines: seq<string>)
  {
    forall i :: 1 <= i < |lines| ==> !StartsWith(lines[i], "---")
  }

  /**
   * A block the lazy pattern stopped at has no line after its first that begins with `---`:
   * such a line would have been an earlier closing fence.
   */
  lemma BlockLinesHaveNoFence(text: string, j: nat)
    requires FrontMatter(text) == Some(j)
    ensures NoFenceAfterFirst(Split(text[4..j], '\n'))
  {
    var block := text[4..j];
    var lines := Split(block, '\n');
    JoinSplit(block, '\n');
    forall i | 1 <= i < |lines|
      ensures !StartsWith(lines[i], "---")
    {
      var p := Offset(lines, i);
      var line := lines[i];
      JoinPlacesLine(lines, i);
      assert block[p - 1] == '\n';
      assert !FenceAt(text, 3 + p);
      if |line| >= 3 {
        DashesStart(line);
        assert block[p..p + |line|] == line;
        assert block[p] == line[0] && block[p + 1] == line[1] && block[p + 2] == line[2];
        assert text[4 + p] == line[0] && text[5 + p] == line[1] && text[6 + p] == line[2];
      }
    }
  }

  /** A line of three or more characters begins with `---` exactly when its first three are dashes. */
  lemma DashesStart(line: string)
    requires |line| >= 3
    ensures StartsWith(line, "---") <==> line[0] == '-' && line[1] == '-' && line[2] == '-'
  {
    if line[0] == '-' && line[1] == '-' && line[2] == '-' {
      assert line[..3] == "---";
    }
  }

  /** Where the rebuilt block, its closing fence and the rest sit in `"---\n" + m + "\n---" + rest`. */
  lemma FencedAt(m: string, rest: string, q: nat)
    requires q <= |m|
    ensures var out := "---\n" + m + "\n---" + rest;
            |out| == |m| + 8 + |rest|
            && (q < |m| ==> out[4 + q] == m[q])
            && (q == |m| ==> FenceAt(out, 4 + q))
  {
  }

  /** The pieces of `"---\n" + m + "\n---" + rest`, read back by slicing. */
  lemma FencedParts(m: string, rest: string)
    ensures var out := "---\n" + m + "\n---" + rest;
            StartsWith(out, "---\n") && out[4..4 + |m|] == m && out[|m| + 8..] == rest
  {
    var out := "---\n" + m + "\n---" + rest;
    assert out == "---\n" + (m + ("\n---" + rest));
  }

  /**
   * In `"---\n" + Join(lines) + "\n---" + rest`, when no line after the first begins with
   * `---`, no fence starts before the one that follows the joined lines.
   */
  lemma NoFenceInsideJoin(lines: seq<string>, rest: string)
    requires |lines| >= 1 && NoFenceAfterFirst(lines)
    requires forall i :: 0 <= i < |lines| ==> '\n' !in lines[i]
    ensures forall k :: 4 <= k < 4 + |Join(lines, '\n')| ==>
              !FenceAt("---\n" + Join(lines, '\n') + "\n---" + rest, k)
  {
    var m := Join(lines, '\n');
    var out := "---\n" + m + "\n---" + rest;
    forall k | 4 <= k < 4 + |m|
      ensures !FenceAt(out, k)
    {
      FencedAt(m, rest, k - 4);
      if m[k - 4] == '\n' {
        SeparatorStartsLine(lines, k - 4);
        var i :| 1 <= i < |lines| && Offset(lines, i) == k - 4 + 1;
        NoFenceBeforeLine(lines, rest, i);
      }
    }
  }

  /** The separator in front of a line after the first does not open a fence. */
  lemma NoFenceBeforeLine(lines: seq<string>, rest: string, i: nat)
    requires 1 <= i < |lines| && NoFenceAfterFirst(lines)
    requires forall i :: 0 <= i < |lines| ==> '\n' !in lines[i]
    ensures var m := Join(lines, '\n');
            !FenceAt("---\n" + m + "\n---" + rest, 4 + Offset(lines, i) - 1)
  {
    var line := lines[i];
    if |line| >= 3 {
      DashesStart(line);
      LineInFenced(lines, rest, i, 0);
      LineInFenced(lines, rest, i, 1);
      LineInFenced(lines, rest, i, 2);
    } else {
      LineEndInFenced(lines, rest, i);
    }
  }

  /** The characters of a line, where they sit in the rebuilt front matter. */
  lemma LineInFenced(lines: seq<string>, rest: string, i: nat, d: nat)
    requires i < |lines| && d < |lines[i]|
    ensures var out := "---\n" + Join(lines, '\n') + "\n---" + rest;
            4 + Offset(lines, i) + d < |out| && out[4 + Offset(lines, i) + d] == lines[i][d]
  {
    var m := Join(lines, '\n');
    var p := Offset(lines, i);
    JoinPlacesLine(lines, i);
    assert m[p..p + |lines[i]|][d] == m[p + d];
    FencedAt(m, rest, p + d);
  }

  /** A line in the rebuilt front matter ends with a line break: a separator, or the closing fence. */
  lemma LineEndInFenced(lines: seq<string>, rest: string, i: nat)
    requires i < |lines|
    ensures var out := "---\n" + Join(lines, '\n') + "\n---" + rest;
            var e := 4 + Offset(lines, i) + |lines[i]|;
            e < |out| && out[e] == '\n'
  {
    var m := Join(lines, '\n');
    var p := Offset(lines, i);
    JoinPlacesLine(lines, i);
    if i + 1 < |lines| {
      JoinPlacesLine(lines, i + 1);
      assert Offset(lines, i + 1) == p + |lines[i]| + 1;
      FencedAt(m, rest, p + |lines[i]|);
    } else {
      JoinLength(lines);
      FencedAt(m, rest, |m|);
    }
  }

  /** A join is as long as the offset one past its last line, less the missing separator. */
  lemma {:induction false} JoinLength(lines: seq<string>)
    requires |lines| >= 1
    ensures |Join(lines, '\n')| + 1 == Offset(lines, |lines|)
  {
    if |lines| > 1 {
      var tail := lines[1..];
      JoinLength(tail);
      OffsetOfTail(lines, |lines|);
      assert Join(lines, '\n') == lines[0] + ['\n'] + Join(tail, '\n');
    }
  }

  /** Every separator in a join is followed by the start of a later line. */
  lemma {:induction false} SeparatorStartsLine(lines: seq<string>, p: nat)
    requires |lines| >= 1 && forall i :: 0 <= i < |lines| ==> '\n' !in lines[i]
    requires p < |Join(lines, '\n')| && Join(lines, '\n')[p] == '\n'
    ensures exists i :: 1 <= i < |lines| && Offset(lines, i) == p + 1
  {
    var m := Join(lines, '\n');
    if |lines| == 1 {
      assert false;
    } else {
      var tail := lines[1..];
      assert m == lines[0] + ['\n'] + Join(tail, '\n');
      if p < |lines[0]| {
        assert false;
      } else if p == |lines[0]| {
        assert Offset(lines, 1) == p + 1;
      } else {
        assert Join(tail, '\n')[p - |lines[0]| - 1] == '\n';
        SeparatorStartsLine(tail, p - |lines[0]| - 1);
        var i :| 1 <= i < |tail| && Offset(tail, i) == p - |lines[0]|;
        OffsetOfTail(lines, i + 1);
      }
    }
  }

  /** The kept lines inherit the block's shape: still no fence after the first line. */
  lemma KeptLinesHaveNoFence(meta: seq<string>, t: nat, s: nat)
    requires t < s <= |meta| && NoFenceAfterFirst(meta)
    ensures NoFenceAfterFirst(KeptLines(meta, t, s))
  {
    var kept := KeptLines(meta, t, s);
    forall i | 1 <= i < |kept|
      ensures !StartsWith(kept[i], "---")
    {
      if i >= t {
        assert kept[i] == meta[i + (s - t)];
      }
    }
  }

  /**
   * Pruning leaves a well-formed front matter: reading the result again finds a block whose
   * lines are exactly the kept lines, followed by the same text as before.
   */
  lemma PrunedFrontMatterReparses(text: string, j: nat, t: nat, s: nat)
    requires FrontMatter(text) == Some(j)
    requires DeletedRange(Split(text[4..j], '\n')) == Some((t, s))
    ensures var meta := Split(text[4..j], '\n');
            var kept := KeptLines(meta, t, s);
            var out := Prune(text);
            var j' := 4 + |Join(kept, '\n')|;
            FrontMatter(out) == Some(j')
            && Split(out[4..j'], '\n') == kept
            && out[j' + 4..] == text[j + 4..]
  {
    var meta := Split(text[4..j], '\n');
    var kept := KeptLines(meta, t, s);
    var m := Join(kept, '\n');
    var rest := text[j + 4..];
    var out := "---\n" + m + "\n---" + rest;
    var j' := 4 + |m|;
    assert Prune(text) == out by {
      assert FrontMatter(text) == Some(j);
    }
    assert |kept| >= 1 && NoFenceAfterFirst(kept) by {
      BlockLinesHaveNoFence(text, j);
      KeptLinesHaveNoFence(meta, t, s);
    }
    assert forall i :: 0 <= i < |kept| ==> '\n' !in kept[i] by {
      forall i | 0 <= i < |kept|
        ensures '\n' !in kept[i]
      {
        if i < t {
          assert kept[i] == meta[i];
        } else {
          assert kept[i] == meta[i + (s - t)];
        }
      }
    }
    FencedParts(m, rest);
    assert FrontMatter(out) == Some(j') by {
      NoFenceInsideJoin(kept, rest);
      FencedAt(m, rest, |m|);
      ClosesAtFirstFence(out, 4, j');
    }
    assert Split(out[4..j'], '\n') == kept by {
      SplitJoin(kept, '\n');
    }
  }

  /** The search from `from` stops at the first fence. */
  lemma {:induction false} ClosesAtFirstFence(text: string, from: nat, j: nat)
    requires from <= j && FenceAt(text, j)
    requires forall k :: from <= k < j ==> !FenceAt(text, k)
    ensures FindClose(text, from) == Some(j)
    decreases j - from
  {
    if from < j {
      ClosesAtFirstFence(text, from + 1, j);
    }
  }

  // ---------------------------------------------------------------------------------------
  // The note that links to the source

  /** The wiki link target of a note, as written by `create_md_file`. */
  function LinkTarget(title: string): string
  {
    "source/source_" + title
  }

  /** The front matter of the note `create_md_file` writes, line by line, around a link target. */
  function NoteHeader(link: string, category: string, tags: string, date: string): seq<string>
  {
    ["---", "category: " + category, "tags: " + tags, "created: " + date, "link: \"[[" + link + "]]\"", "---"]
  }

  /** The note `create_md_file` writes: the front matter lines, then the summary. */
  function NoteContent(title: string, category: string, tags: string, date: string, summary: string): string
  {
    Join(NoteHeader(LinkTarget(title), category, tags, date) + [summary], '\n')
  }

  /**
   * `create_md_file`: `date` is the current date as `%Y-%m-%d`; `writeFault` is what opening
   * or writing raises. The file is written with `newline='\n'`, so no translation happens.
   */
  function CreateMdFile(mdPath: string, title: string, category: string, tags: string, summary: string,
                        date: string, writeFault: Option<string>): (r: Result<TextFile, string>)
    ensures r.Err? <==> writeFault.Some?
    ensures r.Err? ==> r.error == NOTE_WRITE_FAILED + writeFault.value
    ensures r.Ok? ==> r.value.path == mdPath && !r.value.translatesNewlines
  {
    match writeFault
    case Some(reason) => Err(NOTE_WRITE_FAILED + reason)
    case None => Ok(TextFile(mdPath, NoteContent(title, category, tags, date, summary), false))
  }

  /**
   * The note's lines: the six lines of its front matter, then the summary's own lines,
   * provided no field holds a line break.
   */
  lemma NoteLines(title: string, category: string, tags: string, date: string, summary: string)
    requires '\n' !in title && '\n' !in category && '\n' !in tags && '\n' !in date
    ensures Split(NoteContent(title, category, tags, date, summary), '\n') ==
              ["---", "category: " + category, "tags: " + tags, "created: " + date,
               "link: \"[[source/source_" + title + "]]\"", "---"] + Split(summary, '\n')
  {
    var header := NoteHeader(LinkTarget(title), category, tags, date);
    assert header[4] == "link: \"[[source/source_" + title + "]]\"";
    assert forall i :: 0 <= i < |header| ==> '\n' !in header[i];
    SplitLinesThenText(header, summary, '\n');
  }

  /** The file the link has to reach: `source/` plus the name the source was saved under, without `.md`. */
  function SavedTarget(title: string): string
  {
    "source/" + SourceFileName(title)[..|SourceFileName(title)| - 3]
  }

  /**
   * As written, the link names the title as it is, while the source was saved with every `/`
   * of the title replaced: for the title `a/b` the link misses the saved file.
   */
  lemma LinkMissesSavedFile()
    ensures LinkTarget("a/b") != SavedTarget("a/b")
  {
    SavedTargetIsFixedTitle("a/b");
    assert ReplaceChar("a/b", '/', '_') == "a_b";
    assert LinkTarget("a/b")[15] == '/';
    assert LinkTarget("a_b")[15] == '_';
  }

  /** The link the note evidently means: to the file name the source was saved under. */
  function LinkedNoteContent(title: string, category: string, tags: string, date: string, summary: string): string
  {
    Join(NoteHeader(SavedTarget(title), category, tags, date) + [summary], '\n')
  }

  /** The fixed parts of the saved name hold no `/`. */
  lemma FixedNamePartsKept()
    ensures ReplaceChar("source_", '/', '_') == "source_"
    ensures ReplaceChar(".md", '/', '_') == ".md"
  {
    ReplaceAbsentChar("source_", '/', '_');
    ReplaceAbsentChar(".md", '/', '_');
  }

  /** The saved name is the title with its `/` replaced, between the fixed prefix and suffix. */
  lemma SourceFileNameParts(title: string)
    ensures SourceFileName(title) == "source_" + ReplaceChar(title, '/', '_') + ".md"
  {
    FixedNamePartsKept();
    ReplaceCharAppend("source_", title, '/', '_');
    ReplaceCharAppend("source_" + title, ".md", '/', '_');
  }

  /** The saved source is what the original link names for the title with its `/` replaced. */
  lemma SavedTargetIsFixedTitle(title: string)
    ensures SavedTarget(title) == LinkTarget(ReplaceChar(title, '/', '_'))
  {
    var name := SourceFileName(title);
    var fixed := ReplaceChar(title, '/', '_');
    assert name[..|name| - 3] == "source_" + fixed by {
      SourceFileNameParts(title);
      TakeOfAppend("source_" + fixed, ".md");
    }
    assert "source/" + "source_" == "source/source_";
    AppendAssoc("source/", "source_", fixed);
  }

  /** The corrected link reaches the saved source for every title, and agrees with the original when the title has no `/`. */
  lemma LinkedNoteReachesSavedFile(title: string, category: string, tags: string, date: string, summary: string)
    ensures SavedTarget(title) == "source/source_" + ReplaceChar(title, '/', '_')
    ensures '/' !in title ==>
              LinkedNoteContent(title, category, tags, date, summary) == NoteContent(title, category, tags, date, summary)
  {
    SavedTargetIsFixedTitle(title);
    if '/' !in title {
      ReplaceAbsentChar(title, '/', '_');
    }
  }

  /**
   * As written, only `/` is replaced, but Windows reads `\` as a separator too: the title
   * `a\b` is saved as `b.md` in a subdirectory `source_a` of the source directory, not
   * directly in it.
   */
  lemma BackslashTitleLeavesSourceDir()
    ensures SourceFileName("a\\b") == "source_a\\b.md"
    ensures JoinPath("S", SourceFileName("a\\b")) == "S\\source_a\\b.md"
    ensures LastIndexIn(JoinPath("S", SourceFileName("a\\b")), PathSeparators) != |"S"|
  {
    var name := SourceFileName("a\\b");
    assert name == "source_a\\b.md" by {
      SourceFileNameParts("a\\b");
      ReplaceAbsentChar("a\\b", '/', '_');
    }
    var path := "S\\source_a\\b.md";
    assert JoinPath("S", name) == path by {
      JoinPathInserts("S", name);
    }
    assert LastIndexIn(path, PathSeparators) == 10 by {
      assert forall i :: 10 < i < |path| ==> path[i] in {'b', '.', 'm', 'd'};
      LastIndexInAt(path, PathSeparators, 10);
    }
  }

  /** The saved name the replace evidently intends: both of Windows' separators turned into `_`. */
  function SafeSourceFileName(title: string): (name: string)
    ensures RelativeName(name)
    ensures '/' !in name && '\\' !in name
  {
    var plain := SourceFileName(title);
    SourceFileNameHasNoSlash(title);
    ReplaceCharAt(plain, '\\', '_');
    ReplaceChar(plain, '\\', '_')
  }

  /**
   * With both separators replaced the source lands directly in the source directory, whatever
   * the title: the last separator of the path is the one `os.path.join` put after the directory.
   */
  lemma SafeNameStaysInSourceDir(sourceDir: string, title: string)
    requires NeedsSeparator(sourceDir)
    ensures var name := SafeSourceFileName(title);
            JoinPath(sourceDir, name) == sourceDir + "\\" + name
            && LastIndexIn(JoinPath(sourceDir, name), PathSeparators) == |sourceDir|
  {
    var name := SafeSourceFileName(title);
    JoinPathInserts(sourceDir, name);
    var path := sourceDir + "\\" + name;
    assert forall i :: |sourceDir| < i < |path| ==> path[i] == name[i - |sourceDir| - 1];
    LastIndexInAt(path, PathSeparators, |sourceDir|);
  }

  /** For a title without `\` the corrected name is the name the source is saved under now. */
  lemma SafeNameKeepsPlainTitles(title: string)
    requires '\\' !in title
    ensures SafeSourceFileName(title) == SourceFileName(title)
  {
    var plain := "source_" + title + ".md";
    ReplaceCharAt(plain, '/', '_');
    assert '\\' !in SourceFileName(title);
    ReplaceAbsentChar(SourceFileName(title), '\\', '_');
  }
}
