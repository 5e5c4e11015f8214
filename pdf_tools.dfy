/** What PdfStudio.tsx computes rather than simulates: which files each
    upload accepts, the edits of the tool's file list, when the process
    button is enabled, the compressed size the demo reports, and the unit
    `formatSize` picks. */
module PdfTools {
  import opened Numeric

  /** A picked file: its name, its MIME type and its size in bytes. */
  datatype File = File(name: string, mime: string, size: nat)

  // ---------------------------------------------------------------------
  // String helpers.

  /** `toLowerCase` on the ASCII letters. */
  function LowerChar(c: char): (l: char)
    ensures !('A' <= l <= 'Z')
  {
    if 'A' <= c <= 'Z' then (c as int - 'A' as int + 'a' as int) as char else c
  }

  function Lower(s: string): (l: string)
    ensures |l| == |s| && forall i :: 0 <= i < |s| ==> l[i] == LowerChar(s[i])
  {
    seq(|s|, i requires 0 <= i < |s| => LowerChar(s[i]))
  }

  predicate EndsWith(s: string, suffix: string)
  {
    |suffix| <= |s| && s[|s| - |suffix|..] == suffix
  }

  predicate StartsWith(s: string, prefix: string)
  {
    |prefix| <= |s| && s[..|prefix|] == prefix
  }

  // ---------------------------------------------------------------------
  // Acceptance.

  /** `handleUpload`, `handleDrop` and the default tool filter: the MIME
      type says PDF, or the name ends in `.pdf` in any letter case. */
  predicate IsPdf(f: File)
  {
    f.mime == "application/pdf" || EndsWith(Lower(f.name), ".pdf")
  }

  /** The extension test ignores case: a name ending in `.PDF`, `.Pdf` or
      any other spelling of the four letters is accepted whatever its MIME
      type, and a name ending otherwise needs the PDF MIME type. */
  lemma IsPdfIgnoresCase(f: File)
    ensures IsPdf(f) <==>
              (f.mime == "application/pdf"
               || (|f.name| >= 4 && f.name[|f.name| - 4] == '.'
                   && LowerChar(f.name[|f.name| - 3]) == 'p'
                   && LowerChar(f.name[|f.name| - 2]) == 'd'
                   && LowerChar(f.name[|f.name| - 1]) == 'f'))
  {
    var l := Lower(f.name);
    if |f.name| >= 4 {
      var t := l[|l| - 4..];
      assert t == [l[|l| - 4], l[|l| - 3], l[|l| - 2], l[|l| - 1]];
      assert LowerChar(f.name[|f.name| - 4]) == '.' <==> f.name[|f.name| - 4] == '.';
    }
  }

  /** The office tool's extensions, tested on the name as it is. */
  predicate IsOfficeName(name: string)
  {
    EndsWith(name, ".doc") || EndsWith(name, ".docx") || EndsWith(name, ".xls")
    || EndsWith(name, ".xlsx") || EndsWith(name, ".ppt") || EndsWith(name, ".pptx")
  }

  /** The filter `handleToolUpload` applies for the selected tool (None
      when no tool is selected). */
  predicate Accepts(tool: Option<string>, f: File)
  {
    if tool == Some("img-to-pdf") then StartsWith(f.mime, "image/")
    else if tool == Some("office-to-pdf") then IsOfficeName(f.name)
    else IsPdf(f)
  }

  /** Unlike the PDF check, the office check is case-sensitive: `REPORT.PDF`
      passes the PDF check ... */
  lemma UpperCasePdfAccepted()
    ensures IsPdf(File("REPORT.PDF", "", 1))
  {
    IsPdfIgnoresCase(File("REPORT.PDF", "", 1));
  }

  /** ... but `REPORT.DOCX` fails the office check ... */
  lemma OfficeCheckIsCaseSensitive()
    ensures !Accepts(Some("office-to-pdf"), File("REPORT.DOCX", "", 1))
  {
    var u := "REPORT.DOCX";
    assert "office-to-pdf"[0] != "img-to-pdf"[0];
    assert u[|u| - 4..][0] == 'D' && u[|u| - 5..][1] == 'D';
  }

  /** ... where `report.docx` passes it. */
  lemma LowerCaseOfficeAccepted()
    ensures Accepts(Some("office-to-pdf"), File("report.docx", "", 1))
  {
    var n := "report.docx";
    assert "office-to-pdf"[0] != "img-to-pdf"[0];
    assert n[|n| - 5..] == ".docx";
  }

  /** `files.filter(accepts)`. */
  function Accepted(tool: Option<string>, files: seq<File>): (r: seq<File>)
    ensures |r| <= |files|
  {
    if files == [] then []
    else (if Accepts(tool, files[0]) then [files[0]] else []) + Accepted(tool, files[1..])
  }

  /** The filter keeps exactly the accepted files. */
  lemma {:induction false} AcceptedKeepsExactly(tool: Option<string>, files: seq<File>, f: File)
    ensures f in Accepted(tool, files) <==> f in files && Accepts(tool, f)
  {
    if files != [] {
      AcceptedKeepsExactly(tool, files[1..], f);
      assert files == [files[0]] + files[1..];
    }
  }

  /** ... and keeps the order: the first accepted file comes first. */
  lemma {:induction false} AcceptedFirst(tool: Option<string>, files: seq<File>, k: nat)
    requires k < |files| && Accepts(tool, files[k])
    requires forall j :: 0 <= j < k ==> !Accepts(tool, files[j])
    ensures |Accepted(tool, files)| > 0 && Accepted(tool, files)[0] == files[k]
  {
    if k > 0 {
      AcceptedFirst(tool, files[1..], k - 1);
    }
  }

  // ---------------------------------------------------------------------
  // The compress tab.

  /** The compress tab's file, the reported sizes and the progress bar. */
  datatype CompressTab = CompressTab(pdfFile: Option<File>, result: Option<(nat, int)>, progress: real)

  /** `handleUpload` (`alerts` true) and `handleDrop` (`alerts` false): an
      accepted file replaces the current one and clears the result; any
      other pick changes nothing. The result says whether the alert shows. */
  function PickPdf(tab: CompressTab, picked: Option<File>, alerts: bool): (r: (CompressTab, bool))
    ensures picked.Some? && IsPdf(picked.value) ==> r == (CompressTab(picked, None, 0.0), false)
    ensures !(picked.Some? && IsPdf(picked.value)) ==> r == (tab, alerts)
  {
    if picked.Some? && IsPdf(picked.value) then (CompressTab(picked, None, 0.0), false)
    else (tab, alerts)
  }

  /** The compress tab only ever holds a PDF: picking keeps that true. */
  lemma PickKeepsPdf(tab: CompressTab, picked: Option<File>, alerts: bool)
    requires tab.pdfFile.Some? ==> IsPdf(tab.pdfFile.value)
    ensures var t := PickPdf(tab, picked, alerts).0;
            t.pdfFile.Some? ==> IsPdf(t.pdfFile.value)
  {
  }

  /** The simulated reduction factor of a compression level. */
  function LevelFactor(level: string): (f: real)
    ensures 0.0 < f < 1.0
  {
    if level == "high" then 0.3 else if level == "medium" then 0.6 else 0.8
  }

  /** `handleCompress`'s reported size as written: with a positive target,
      the target clamped to at most the original and at least 1 KB; without
      one, the original scaled by the level's factor. `target` is the
      `parseFloat` of the field, None when it is empty or not a number. */
  function CompressedSizeAsWritten(original: nat, target: Option<real>, unit: string, level: string): int
  {
    if target.Some? && target.value > 0.0 then
      Floor(MaxR(1024.0, MinR(TargetBytes(target.value, unit), original as real)))
    else Floor(original as real * LevelFactor(level))
  }

  /** The 1 KB floor is applied after the cap at the original size, so a
      file under 1 KB is reported as growing to 1024 bytes, although the
      code means to ensure compression never grows a file. */
  lemma SmallFileGrows()
    ensures CompressedSizeAsWritten(500, Some(1.0), "KB", "low") == 1024
  {
    assert TargetBytes(1.0, "KB") == 1024.0;
  }

  /** The intended size: the target with the 1 KB floor, then capped at the
      original. */
  function CompressedSize(original: nat, target: Option<real>, unit: string, level: string): int
  {
    if target.Some? && target.value > 0.0 then
      Floor(MinR(MaxR(1024.0, TargetBytes(target.value, unit)), original as real))
    else Floor(original as real * LevelFactor(level))
  }

  /** Compression never grows the file and never reports less than nothing;
      a target between 1 KB and the original is met to the byte (rounded
      down), and a file of at least 1 KB is never reported under 1 KB. The
      as-written size agrees whenever the original is at least 1 KB. */
  lemma CompressedSizeBounds(original: nat, target: Option<real>, unit: string, level: string)
    ensures 0 <= CompressedSize(original, target, unit, level) <= original
    ensures target.Some? && target.value > 0.0 && original >= 1024 ==>
              CompressedSize(original, target, unit, level) >= 1024
    ensures target.Some? && 1024.0 <= TargetBytes(target.value, unit) <= original as real ==>
              CompressedSize(original, target, unit, level) == Floor(TargetBytes(target.value, unit))
    ensures original >= 1024 ==>
              CompressedSize(original, target, unit, level) == CompressedSizeAsWritten(original, target, unit, level)
  {
    FloorOfInt(original);
    if target.Some? && target.value > 0.0 {
      var m := MinR(MaxR(1024.0, TargetBytes(target.value, unit)), original as real);
      FloorMonotone(m, original as real);
      FloorOfInt(0);
      FloorMonotone(0.0, m);
      if original >= 1024 {
        FloorOfInt(1024);
        FloorMonotone(1024.0, m);
      }
    } else {
      var x := original as real * LevelFactor(level);
      assert 0.0 <= x <= original as real by {
        assert original as real - x == original as real * (1.0 - LevelFactor(level));
      }
      FloorMonotone(x, original as real);
      FloorOfInt(0);
      FloorMonotone(0.0, x);
    }
  }

  /** What the written rule reports: never less than nothing, and with a
      positive target never under 1 KB, so that a file under 1 KB is
      reported at exactly 1024 bytes. A file of at least 1 KB is never
      reported as grown, and a target between 1 KB and the original is met
      to the byte (rounded down). */
  lemma CompressedSizeAsWrittenBounds(original: nat, target: Option<real>, unit: string, level: string)
    ensures 0 <= CompressedSizeAsWritten(original, target, unit, level)
    ensures target.Some? && target.value > 0.0 ==> CompressedSizeAsWritten(original, target, unit, level) >= 1024
    ensures target.Some? && target.value > 0.0 && original < 1024 ==>
              CompressedSizeAsWritten(original, target, unit, level) == 1024
    ensures original >= 1024 || target.None? || target.value <= 0.0 ==>
              CompressedSizeAsWritten(original, target, unit, level) <= original
    ensures target.Some? && 1024.0 <= TargetBytes(target.value, unit) <= original as real ==>
              CompressedSizeAsWritten(original, target, unit, level) == Floor(TargetBytes(target.value, unit))
  {
    CompressedSizeBounds(original, target, unit, level);
    FloorOfInt(1024);
    if target.Some? && target.value > 0.0 {
      var m := MaxR(1024.0, MinR(TargetBytes(target.value, unit), original as real));
      FloorMonotone(1024.0, m);
    }
  }

  /** `handleCompress` once the simulated progress reaches 100: the result
      holds the original size and the size the written rule reports. */
  function Compress(tab: CompressTab, target: Option<real>, unit: string, level: string): (r: CompressTab)
    ensures tab.pdfFile.None? ==> r == tab
    ensures tab.pdfFile.Some? ==>
              && r.pdfFile == tab.pdfFile && r.progress == 100.0 && r.result.Some?
              && r.result.value.0 == tab.pdfFile.value.size && r.result.value.1 >= 0
    ensures tab.pdfFile.Some? && target.Some? && target.value > 0.0 ==>
              r.result.value.1 >= 1024 && (tab.pdfFile.value.size < 1024 ==> r.result.value.1 == 1024)
    ensures tab.pdfFile.Some? && target.Some? && 1024.0 <= TargetBytes(target.value, unit) <= tab.pdfFile.value.size as real ==>
              r.result.value.1 == Floor(TargetBytes(target.value, unit))
    ensures tab.pdfFile.Some? && (target.None? || target.value <= 0.0) ==>
              r.result.value.1 == Floor(tab.pdfFile.value.size as real * LevelFactor(level))
    ensures tab.pdfFile.Some? && tab.pdfFile.value.size >= 1024 ==>
              r.result.value.1 <= r.result.value.0
              && r.result.value.1 == CompressedSize(tab.pdfFile.value.size, target, unit, level)
  {
    match tab.pdfFile
    case None => tab
    case Some(f) =>
      CompressedSizeAsWrittenBounds(f.size, target, unit, level);
      CompressedSizeBounds(f.size, target, unit, level);
      CompressTab(tab.pdfFile, Some((f.size, CompressedSizeAsWritten(f.size, target, unit, level))), 100.0)
  }

  /** The handler with the corrected rule: the reported size never exceeds
      the original, whatever its size. */
  function CompressIntended(tab: CompressTab, target: Option<real>, unit: string, level: string): (r: CompressTab)
    ensures tab.pdfFile.None? ==> r == tab
    ensures tab.pdfFile.Some? ==>
              && r.pdfFile == tab.pdfFile && r.progress == 100.0 && r.result.Some?
              && 0 <= r.result.value.1 <= r.result.value.0 == tab.pdfFile.value.size
    ensures tab.pdfFile.Some? && tab.pdfFile.value.size >= 1024 ==> r == Compress(tab, target, unit, level)
  {
    match tab.pdfFile
    case None => tab
    case Some(f) =>
      CompressedSizeBounds(f.size, target, unit, level);
      CompressTab(tab.pdfFile, Some((f.size, CompressedSize(f.size, target, unit, level))), 100.0)
  }

  // ---------------------------------------------------------------------
  // formatSize.

  /** The integer part of the base-1024 logarithm: the index into
      `['B', 'KB', 'MB', 'GB']`. */
  function UnitIndex(bytes: nat): (i: nat)
    requires bytes >= 1
    decreases bytes
  {
    if bytes < 1024 then 0 else 1 + UnitIndex(bytes / 1024)
  }

  lemma {:induction false} UnitIndexBrackets(bytes: nat)
    requires bytes >= 1
    ensures Pow(1024, UnitIndex(bytes)) <= bytes < Pow(1024, UnitIndex(bytes) + 1)
    decreases bytes
  {
    if bytes >= 1024 {
      var q := bytes / 1024;
      UnitIndexBrackets(q);
      var i := UnitIndex(q);
      assert Pow(1024, i + 1) == 1024 * Pow(1024, i);
      assert Pow(1024, i + 2) == 1024 * Pow(1024, i + 1);
      assert 1024 * q <= bytes < 1024 * (q + 1);
      assert 1024 * Pow(1024, i) <= 1024 * q;
      assert 1024 * (q + 1) <= 1024 * Pow(1024, i + 1);
    }
  }

  const Units: seq<string> := ["B", "KB", "MB", "GB"]

  /** The size figure and its unit, before `toFixed(2)`: 0 is `0 B`; past
      the last unit `sizes[i]` is undefined. */
  function FormatSize(bytes: nat): (r: (real, string))
  {
    if bytes == 0 then (0.0, "B")
    else
      var i := UnitIndex(bytes);
      (bytes as real / Pow(1024, i) as real, if i < |Units| then Units[i] else "undefined")
  }

  /** A non-zero size below 1024^4 bytes is shown in the largest unit it
      reaches, as a figure from 1 up to (not including) 1024. */
  lemma FormatSizeInRange(bytes: nat)
    requires 1 <= bytes < Pow(1024, 4)
    ensures var (v, u) := FormatSize(bytes);
            && u in Units && 1.0 <= v < 1024.0
            && (u == "B" <==> bytes < 1024)
            && (u == "GB" <==> bytes >= Pow(1024, 3))
  {
    UnitIndexBrackets(bytes);
    var i := UnitIndex(bytes);
    var p := Pow(1024, i);
    assert Pow(1024, i + 1) == 1024 * p;
    if i >= 4 {
      PowMonotone(4, i);
    }
    assert Pow(1024, 1) == 1024;
    assert Pow(1024, 3) == 1073741824;
    if i < 3 {
      PowMonotone(i + 1, 3);
    }
    if i == 3 {
      assert bytes >= Pow(1024, 3);
    }
    FractionBelow(bytes, p);
  }

  lemma PowMonotone(a: nat, b: nat)
    requires a <= b
    ensures Pow(1024, a) <= Pow(1024, b)
    decreases b - a
  {
    if a < b {
      PowMonotone(a, b - 1);
    }
  }

  lemma FractionBelow(bytes: nat, p: nat)
    requires 1 <= p <= bytes < 1024 * p
    ensures 1.0 <= bytes as real / p as real < 1024.0
  {
    var v := bytes as real / p as real;
    var P := p as real;
    assert v * P == bytes as real;
    assert v >= 1.0 by {
      if v < 1.0 {
        assert P - v * P == (1.0 - v) * P;
      }
    }
    assert v < 1024.0 by {
      if v >= 1024.0 {
        assert v * P - 1024.0 * P == (v - 1024.0) * P;
      }
    }
  }

  // ---------------------------------------------------------------------
  // The tools tab.

  /** What `handleToolUpload`, `removeToolFile` and `resetTools` touch. */
  datatype ToolTab = ToolTab(
    tool: Option<string>,
    files: seq<File>,
    result: Option<string>,
    progress: real,
    splitRange: string,
    password: string,
    watermarkText: string,
    ocrResult: string)

  /** `handleToolUpload`: the accepted files are appended (multiple) or the
      first of them replaces the list, and the result, progress and OCR text
      are cleared; with no accepted file nothing changes and the alert shows
      (the second component). */
  function ToolUpload(tab: ToolTab, picked: seq<File>, multiple: bool): (r: (ToolTab, bool))
    ensures var valid := Accepted(tab.tool, picked);
            && (|valid| == 0 ==> r == (tab, true))
            && (|valid| > 0 ==>
                  && !r.1
                  && r.0 == tab.(files := if multiple then tab.files + valid else [valid[0]],
                                 result := None, progress := 0.0, ocrResult := ""))
  {
    var valid := Accepted(tab.tool, picked);
    if |valid| > 0 then
      (tab.(files := if multiple then tab.files + valid else [valid[0]],
            result := None, progress := 0.0, ocrResult := ""), false)
    else (tab, true)
  }

  /** Every file the tool holds passes the tool's filter, and an upload
      keeps that so. */
  ghost predicate AllAccepted(tab: ToolTab)
  {
    forall f :: f in tab.files ==> Accepts(tab.tool, f)
  }

  lemma ToolUploadKeepsAccepted(tab: ToolTab, picked: seq<File>, multiple: bool)
    requires AllAccepted(tab)
    ensures AllAccepted(ToolUpload(tab, picked, multiple).0)
  {
    var valid := Accepted(tab.tool, picked);
    forall f | f in valid
      ensures Accepts(tab.tool, f)
    {
      AcceptedKeepsExactly(tab.tool, picked, f);
    }
  }

  /** `filter((_, i) => i !== index)` over the list, with `offset` the
      position of its first element. */
  function WithoutIndex(files: seq<File>, index: int, offset: int): seq<File>
    decreases |files|
  {
    if files == [] then []
    else (if offset == index then [] else [files[0]]) + WithoutIndex(files[1..], index, offset + 1)
  }

  function RemoveToolFile(tab: ToolTab, index: int): ToolTab
  {
    tab.(files := WithoutIndex(tab.files, index, 0))
  }

  lemma {:induction false} WithoutIndexSpec(files: seq<File>, index: int, offset: int)
    ensures offset <= index < offset + |files| ==>
              WithoutIndex(files, index, offset) == files[..index - offset] + files[index - offset + 1..]
    ensures !(offset <= index < offset + |files|) ==> WithoutIndex(files, index, offset) == files
    decreases |files|
  {
    if files != [] {
      var tail := WithoutIndex(files[1..], index, offset + 1);
      WithoutIndexSpec(files[1..], index, offset + 1);
      if offset == index {
        assert WithoutIndex(files, index, offset) == tail == files[1..];
      } else if offset < index < offset + |files| {
        assert WithoutIndex(files, index, offset) == [files[0]] + tail;
        assert files[..index - offset] == [files[0]] + files[1..][..index - offset - 1];
        assert files[index - offset + 1..] == files[1..][index - offset..];
      } else {
        assert WithoutIndex(files, index, offset) == [files[0]] + tail;
        assert [files[0]] + files[1..] == files;
      }
    }
  }

  /** `removeToolFile(i)` drops exactly the file at `i` and keeps the order
      of the others; an index outside the list changes nothing. */
  lemma RemoveToolFileDropsOne(tab: ToolTab, i: int)
    ensures 0 <= i < |tab.files| ==> RemoveToolFile(tab, i).files == tab.files[..i] + tab.files[i + 1..]
    ensures !(0 <= i < |tab.files|) ==> RemoveToolFile(tab, i) == tab
    ensures RemoveToolFile(tab, i).tool == tab.tool
  {
    WithoutIndexSpec(tab.files, i, 0);
  }

  /** `resetTools`. */
  function ResetTools(tab: ToolTab): ToolTab
  {
    ToolTab(None, [], None, 0.0, "", "", "CONFIDENTIAL", "")
  }

  /** The process button's enable condition. */
  predicate ProcessEnabled(tab: ToolTab)
  {
    !(|tab.files| == 0
      || (tab.tool == Some("split") && tab.splitRange == "")
      || ((tab.tool == Some("protect") || tab.tool == Some("unlock")) && tab.password == ""))
  }

  /** After a reset nothing can be processed, and resetting twice is
      resetting once. Removing the only file disables the button. */
  lemma ResetDisablesProcess(tab: ToolTab)
    ensures !ProcessEnabled(ResetTools(tab))
    ensures ResetTools(ResetTools(tab)) == ResetTools(tab)
    ensures |tab.files| == 1 ==> !ProcessEnabled(RemoveToolFile(tab, 0))
  {
    RemoveToolFileDropsOne(tab, 0);
  }

  /** An accepted upload enables the button for every tool that needs
      neither a range nor a password. */
  lemma UploadEnablesProcess(tab: ToolTab, picked: seq<File>, multiple: bool)
    requires |Accepted(tab.tool, picked)| > 0
    requires tab.tool !in {Some("split"), Some("protect"), Some("unlock")}
    ensures ProcessEnabled(ToolUpload(tab, picked, multiple).0)
  {
  }
}
