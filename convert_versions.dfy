/**
 * The page-version converter: every page folder whose name starts with a
 * page number contributes its version images `page_*_v<N>.png`, each saved
 * for the web as `page-<NN>-v<N>.jpg` (scaled down to the maximum width when
 * wider), unless an up-to-date copy exists; the run counts conversions and
 * skips and returns the number converted.
 */
module ConvertVersions {
  import opened Wrappers
  import opened Strings
  import Sorting
  import VersionViewer

  const DEFAULT_MAX_WIDTH: nat := 1200

  // ----- Python's int() on a string -----

  /** Position `k` of `b` holds a digit, or an underscore with a digit after it. */
  predicate DigitOrJoiner(b: string, k: int)
    requires 0 <= k < |b|
  {
    IsDigit(b[k]) || (b[k] == '_' && k + 1 < |b| && IsDigit(b[k + 1]))
  }

  /** Decimal digits with single underscores between them, as `int` accepts. */
  predicate DigitsWithUnderscores(b: string)
  {
    |b| > 0 && IsDigit(b[0]) && forall k :: 0 <= k < |b| ==> DigitOrJoiner(b, k)
  }

  /** The digits of `b`, underscores dropped. */
  function WithoutUnderscores(b: string): (r: string)
    ensures AllDigits(r)
    ensures AllDigits(b) ==> r == b
  {
    if |b| == 0 then ""
    else
      var init := WithoutUnderscores(b[..|b| - 1]);
      if IsDigit(b[|b| - 1]) then init + [b[|b| - 1]] else init
  }

  /** Dropping underscores distributes over concatenation. */
  lemma {:induction false} WithoutUnderscoresAppend(a: string, b: string)
    ensures WithoutUnderscores(a + b) == WithoutUnderscores(a) + WithoutUnderscores(b)
    decreases |b|
  {
    if |b| > 0 {
      var ab := a + b;
      assert ab[..|ab| - 1] == a + b[..|b| - 1];
      WithoutUnderscoresAppend(a, b[..|b| - 1]);
    } else {
      assert a + b == a;
    }
  }

  /** An underscore between two digit groups is dropped: `1_000` becomes `1000`. */
  lemma UnderscoreDropped(x: string, y: string)
    requires AllDigits(x) && AllDigits(y)
    ensures WithoutUnderscores(x + "_" + y) == x + y
  {
    WithoutUnderscoresAppend(x + "_", y);
    WithoutUnderscoresAppend(x, "_");
  }

  /** The value of an unsigned body, or `None` when `int` would reject it. */
  function ParseUnsigned(b: string): (r: Option<nat>)
    ensures r.Some? <==> DigitsWithUnderscores(b)
  {
    if DigitsWithUnderscores(b) then Some(DecimalValue(WithoutUnderscores(b))) else None
  }

  /** A non-empty run of digits is its own decimal value. */
  lemma UnsignedDigits(d: string)
    requires |d| > 0 && AllDigits(d)
    ensures ParseUnsigned(d) == Some(DecimalValue(d))
  {
  }

  /** A trimmed `int` argument: an optional sign, then digits with single underscores between them. */
  function ParseSigned(t: string): Option<int>
  {
    if |t| > 0 && t[0] == '-' then
      match ParseUnsigned(t[1..])
      case None => None
      case Some(n) => Some(-(n as int))
    else if |t| > 0 && t[0] == '+' then
      match ParseUnsigned(t[1..])
      case None => None
      case Some(n) => Some(n)
    else
      match ParseUnsigned(t)
      case None => None
      case Some(n) => Some(n)
  }

  /**
   * `int(s)` for a string: surrounding whitespace, an optional sign, then
   * digits with single underscores between them; `None` is the `ValueError`.
   */
  function ParseInt(s: string): Option<int>
  {
    ParseSigned(Trim(s, IsPyWhitespace))
  }

  /** A non-empty run of digits reads as its decimal value. */
  lemma ParseDigits(d: string)
    requires |d| > 0 && AllDigits(d)
    ensures ParseInt(d) == Some(DecimalValue(d))
  {
    TrimUntouched(d, IsPyWhitespace);
    UnsignedDigits(d);
  }

  /** Two digit groups joined by an underscore are a body `int` accepts. */
  lemma GroupedAccepted(x: string, y: string)
    requires |x| > 0 && |y| > 0 && AllDigits(x) && AllDigits(y)
    ensures DigitsWithUnderscores(x + "_" + y)
  {
    var s := x + "_" + y;
    forall k | 0 <= k < |s| ensures DigitOrJoiner(s, k) {
      if k == |x| {
        assert s[k + 1] == y[0];
      } else if k < |x| {
        assert s[k] == x[k];
      } else {
        assert s[k] == y[k - |x| - 1];
      }
    }
  }

  /** Two digit groups joined by an underscore read as the digits run together: `int("1_000") == 1000`. */
  lemma ParseGrouped(x: string, y: string)
    requires |x| > 0 && |y| > 0 && AllDigits(x) && AllDigits(y)
    ensures ParseInt(x + "_" + y) == Some(DecimalValue(x + y))
  {
    var s := x + "_" + y;
    assert s[0] == x[0] && s[|s| - 1] == y[|y| - 1];
    TrimUntouched(s, IsPyWhitespace);
    GroupedAccepted(x, y);
    UnderscoreDropped(x, y);
    assert ParseSigned(s) == ParseUnsigned(s);
  }

  /** A minus sign before a non-empty run of digits reads as the negated value. */
  lemma ParseNegated(d: string)
    requires |d| > 0 && AllDigits(d)
    ensures ParseInt("-" + d) == Some(-(DecimalValue(d) as int))
  {
    NegatedDigits("-" + d, d);
  }

  /** A string made of a minus sign and a run of digits reads as the negated value of the digits. */
  lemma NegatedDigits(s: string, d: string)
    requires |d| > 0 && AllDigits(d)
    requires |s| == |d| + 1 && s[0] == '-' && s[1..] == d
    ensures ParseInt(s) == Some(-(DecimalValue(d) as int))
  {
    assert s[|s| - 1] == d[|d| - 1];
    TrimUntouched(s, IsPyWhitespace);
    UnsignedDigits(d);
  }

  /** `int(str(n)) == n` for every integer. */
  lemma ParseIntRoundTrip(n: int)
    ensures ParseInt(IntToString(n)) == Some(n)
  {
    if n >= 0 {
      var d := NatToString(n);
      ParseDigits(d);
    } else {
      NegativeRoundTrip(n);
    }
  }

  /** `int(str(n)) == n` for a negative integer. */
  lemma NegativeRoundTrip(n: int)
    requires n < 0
    ensures ParseInt(IntToString(n)) == Some(n)
  {
    var d := NatToString(-n);
    ParseNegated(d);
    assert IntToString(n) == "-" + d;
  }

  // ----- names -----

  /** The page number of a folder: the integer before the first `-` (`folder_name.split('-')[0]`). */
  function PageNumberOf(folderName: string): Option<int>
  {
    ParseInt(Split(folderName, '-')[0])
  }

  /** A folder named `<digits>-<anything>` is page `<digits>`, leading zeros dropped. */
  lemma PageNumberOfFolder(digits: string, rest: string)
    requires |digits| > 0 && AllDigits(digits)
    ensures PageNumberOf(digits + "-" + rest) == Some(DecimalValue(digits))
  {
    var parts := Split(rest, '-');
    JoinCons(digits, parts, '-');
    SplitJoin([digits] + parts, '-');
    ParseDigits(digits);
  }

  /** A folder whose name starts with neither a digit, a sign nor whitespace is not a page folder. */
  lemma NamedFolderSkipped(folderName: string)
    requires |folderName| > 0
    requires !IsDigit(folderName[0]) && !IsPyWhitespace(folderName[0]) && folderName[0] != '+' && folderName[0] != '-'
    ensures PageNumberOf(folderName).None?
  {
    var prefix := Split(folderName, '-')[0];
    assert |prefix| > 0 && prefix[0] == folderName[0];
    assert TrimStart(prefix, IsPyWhitespace) == prefix;
    var t := Trim(prefix, IsPyWhitespace);
    assert t == TrimEnd(prefix, IsPyWhitespace);
    assert |t| > 0 && t[0] == prefix[0];
  }

  /** The text after the first `_v`, up to the next `_v` (`filename.split('_v')[1]`); `None` without a `_v`. */
  function VersionPart(filename: string): (r: Option<string>)
    ensures r.None? <==> FindSub(filename, "_v") == -1
  {
    var i := FindSub(filename, "_v");
    if i == -1 then None
    else
      var rest := filename[i + 2..];
      var j := FindSub(rest, "_v");
      Some(if j == -1 then rest else rest[..j])
  }

  /** The version number of a file: `int(filename.split('_v')[1].split('.')[0])`; `None` when skipped. */
  function VersionOf(filename: string): Option<int>
  {
    match VersionPart(filename)
    case None => None
    case Some(part) => ParseInt(Split(part, '.')[0])
  }

  /** In `page_<digits>_v...` the first `_v` is the one after the digits. */
  lemma FirstVersionMarker(digits: string, tail: string)
    requires AllDigits(digits)
    ensures FindSub("page_" + digits + "_v" + tail, "_v") == 5 + |digits|
  {
    var name := "page_" + digits + "_v" + tail;
    var at := 5 + |digits|;
    assert name[at..at + 2] == "_v";
    assert OccursAt(name, "_v", at);
    forall k | 0 <= k < at ensures !OccursAt(name, "_v", k) {
      if k + 1 < 5 {
        assert name[k + 1] == "page_"[k + 1];
      } else if k + 1 < at {
        assert name[k + 1] == digits[k + 1 - 5];
      } else {
        assert name[k + 1] == '_';
      }
      assert name[k..k + 2][1] == name[k + 1];
    }
  }

  /** A version number followed by `.png` holds no `_v` and reads as that number. */
  lemma VersionTail(v: nat)
    ensures FindSub(NatToString(v) + ".png", "_v") == -1
    ensures ParseInt(Split(NatToString(v) + ".png", '.')[0]) == Some(v)
  {
    var d := NatToString(v);
    var rest := d + ".png";
    forall k | 0 <= k ensures !OccursAt(rest, "_v", k) {
      if k + 2 <= |rest| {
        if k < |d| {
          assert rest[k] == d[k];
          assert IsDigit(rest[k]);
        } else {
          assert rest[k] == ".png"[k - |d|];
        }
        assert rest[k..k + 2][0] == rest[k];
      }
    }
    JoinCons(d, ["png"], '.');
    assert [d] + ["png"] == [d, "png"];
    assert Join([d, "png"], '.') == rest;
    SplitJoin([d, "png"], '.');
    ParseIntRoundTrip(v);
  }

  /** The source files the converter expects, `page_<digits>_v<N>.png`, give version `N`. */
  lemma VersionOfSourceName(digits: string, v: nat)
    requires AllDigits(digits)
    ensures VersionOf("page_" + digits + "_v" + NatToString(v) + ".png") == Some(v)
  {
    var rest := NatToString(v) + ".png";
    var name := "page_" + digits + "_v" + rest;
    assert name == "page_" + digits + "_v" + NatToString(v) + ".png";
    FirstVersionMarker(digits, rest);
    assert name[5 + |digits| + 2..] == rest;
    VersionTail(v);
    assert VersionPart(name) == Some(rest);
  }

  /** `f"page-{page_num:02d}-v{version_num}.jpg"`. */
  function OutputName(page: int, version: int): string
  {
    "page-" + PadStart(IntToString(page), 2, '0') + "-v" + IntToString(version) + ".jpg"
  }

  /** Page numbers below ten get a leading zero, others are written as they are. */
  lemma OutputNamePadding(page: nat, version: nat)
    ensures page < 10 ==> OutputName(page, version) == "page-0" + NatToString(page) + "-v" + NatToString(version) + ".jpg"
    ensures page >= 10 ==> OutputName(page, version) == "page-" + NatToString(page) + "-v" + NatToString(version) + ".jpg"
  {
    if page >= 10 {
      assert NatToString(page) == NatToString(page / 10) + [DigitChar(page % 10)];
    } else {
      assert PadStart(NatToString(page), 2, '0') == "0" + NatToString(page);
    }
  }

  /** The padded page number is all digits. */
  lemma PaddedDigits(page: nat)
    ensures AllDigits(PadStart(NatToString(page), 2, '0'))
  {
    var d := NatToString(page);
    var p := PadStart(d, 2, '0');
    forall k | 0 <= k < |p| ensures IsDigit(p[k]) {
      if k < |p| - |d| {
        assert p[k] == '0';
      } else {
        assert p[k] == p[|p| - |d|..][k - (|p| - |d|)] == d[k - (|p| - |d|)];
      }
    }
  }

  /** The web viewer reads the version number back out of every converted file's name. */
  lemma ViewerReadsConvertedVersion(page: nat, version: nat)
    ensures VersionViewer.FindVersionNumber(OutputName(page, version), 0) == Some(version)
  {
    PaddedDigits(page);
    var padded := PadStart(NatToString(page), 2, '0');
    assert OutputName(page, version) == VersionViewer.VersionFilename(padded, version);
    VersionViewer.VersionFilenameParses(padded, version);
  }

  // ----- resizing -----

  /**
   * The size an image is saved at: scaled to `maxWidth` wide, the height
   * truncated (`int(height * (max_width / width))`), when wider than
   * `maxWidth`; unchanged otherwise.
   */
  function ResizedSize(width: nat, height: nat, maxWidth: nat): (r: (nat, nat))
    requires maxWidth > 0
    ensures width <= maxWidth ==> r == (width, height)
    ensures width > maxWidth ==> r.0 == maxWidth && r.1 <= height
    ensures width > maxWidth ==> r.1 * width <= height * maxWidth < (r.1 + 1) * width
  {
    if width > maxWidth then
      var h := height * maxWidth / width;
      ScaledHeight(width, height, maxWidth);
      (maxWidth, h)
    else (width, height)
  }

  /** The truncated height keeps the aspect ratio to within one pixel and is never taller. */
  lemma ScaledHeight(width: nat, height: nat, maxWidth: nat)
    requires 0 < maxWidth < width
    ensures var h := height * maxWidth / width;
            0 <= h <= height && h * width <= height * maxWidth < (h + 1) * width
  {
    var a := height * maxWidth;
    var h := a / width;
    assert a == h * width + a % width && 0 <= a % width < width;
    assert a <= height * width by {
      assert height * width - a == height * (width - maxWidth);
    }
  }

  // ----- the conversion run -----

  /**
   * A file the folder's `page_*_v*.png` pattern lists, with what the file
   * system and the image library would do: whether an output at least as new
   * as the file exists, and whether converting and saving it succeeds.
   */
  datatype VersionFile = VersionFile(name: string, upToDate: bool, saves: bool)

  /** A page folder and the version files it lists. */
  datatype Folder = Folder(name: string, files: seq<VersionFile>)

  /** A file that is converted: it names a version, no up-to-date output exists, and the save succeeds. */
  predicate Converted(f: VersionFile)
  {
    VersionOf(f.name).Some? && !f.upToDate && f.saves
  }

  /** A file that is skipped because its output is up to date. */
  predicate Skipped(f: VersionFile)
  {
    VersionOf(f.name).Some? && f.upToDate
  }

  /** The files of a folder that `p` counts; none when the folder has no page number. */
  function FolderCount(folder: Folder, p: VersionFile -> bool): nat
  {
    if PageNumberOf(folder.name).None? then 0 else Sorting.Count(folder.files, p)
  }

  /** The files of all folders that `p` counts. */
  function TotalCount(folders: seq<Folder>, p: VersionFile -> bool): nat
  {
    if |folders| == 0 then 0
    else TotalCount(folders[..|folders| - 1], p) + FolderCount(folders[|folders| - 1], p)
  }

  /** The files of the folders that have a page number. */
  function TotalFiles(folders: seq<Folder>): nat
  {
    if |folders| == 0 then 0
    else
      var last := folders[|folders| - 1];
      TotalFiles(folders[..|folders| - 1]) + (if PageNumberOf(last.name).None? then 0 else |last.files|)
  }

  lemma CountStep(s: seq<VersionFile>, j: nat, p: VersionFile -> bool)
    requires j < |s|
    ensures Sorting.Count(s[..j + 1], p) == Sorting.Count(s[..j], p) + (if p(s[j]) then 1 else 0)
  {
    assert s[..j + 1] == s[..j] + [s[j]];
    Sorting.CountAppend(s[..j], [s[j]], p);
    assert Sorting.Count([s[j]], p) == (if p(s[j]) then 1 else 0) + Sorting.Count([s[j]][1..], p);
  }

  lemma TotalCountStep(folders: seq<Folder>, i: nat, p: VersionFile -> bool)
    requires i < |folders|
    ensures TotalCount(folders[..i + 1], p) == TotalCount(folders[..i], p) + FolderCount(folders[i], p)
  {
    assert folders[..i + 1][..i] == folders[..i];
  }

  /**
   * `convert_page_versions` over the listed page folders: returns the number
   * of files converted, and the number skipped as up to date.
   */
  method ConvertPageVersions(folders: seq<Folder>) returns (converted: nat, skipped: nat)
    ensures converted == TotalCount(folders, Converted)
    ensures skipped == TotalCount(folders, Skipped)
  {
    converted, skipped := 0, 0;
    for i := 0 to |folders|
      invariant converted == TotalCount(folders[..i], Converted)
      invariant skipped == TotalCount(folders[..i], Skipped)
    {
      TotalCountStep(folders, i, Converted);
      TotalCountStep(folders, i, Skipped);
      var c, k := ConvertFolder(folders[i]);
      converted, skipped := converted + c, skipped + k;
    }
    assert folders[..|folders|] == folders;
  }

  /**
   * One folder of `convert_page_versions`: nothing when its name has no page
   * number, otherwise the numbers of its files converted and of its files
   * skipped as up to date.
   */
  method ConvertFolder(folder: Folder) returns (converted: nat, skipped: nat)
    ensures converted == FolderCount(folder, Converted)
    ensures skipped == FolderCount(folder, Skipped)
  {
    converted, skipped := 0, 0;
    if PageNumberOf(folder.name).None? {
      return;
    }
    var files := folder.files;
    for j := 0 to |files|
      invariant converted == Sorting.Count(files[..j], Converted)
      invariant skipped == Sorting.Count(files[..j], Skipped)
    {
      var file := files[j];
      CountStep(files, j, Converted);
      CountStep(files, j, Skipped);
      if FindSub(file.name, "_v") == -1 {
        continue;
      }
      var version := VersionOf(file.name);
      if version.None? {
        continue;
      }
      if file.upToDate {
        skipped := skipped + 1;
        continue;
      }
      if file.saves {
        converted := converted + 1;
      }
    }
    assert files[..|files|] == files;
  }

  /** Each listed file is converted, skipped, or neither, never both. */
  lemma {:induction false} FolderCountsBounded(files: seq<VersionFile>)
    ensures Sorting.Count(files, Converted) + Sorting.Count(files, Skipped) <= |files|
  {
    if |files| > 0 {
      FolderCountsBounded(files[1..]);
      assert Sorting.Count(files, Converted) == (if Converted(files[0]) then 1 else 0) + Sorting.Count(files[1..], Converted);
      assert Sorting.Count(files, Skipped) == (if Skipped(files[0]) then 1 else 0) + Sorting.Count(files[1..], Skipped);
    }
  }

  /** Conversions and skips together never exceed the files of the numbered folders. */
  lemma {:induction false} TotalCountsBounded(folders: seq<Folder>)
    ensures TotalCount(folders, Converted) + TotalCount(folders, Skipped) <= TotalFiles(folders)
  {
    if |folders| > 0 {
      TotalCountsBounded(folders[..|folders| - 1]);
      FolderCountsBounded(folders[|folders| - 1].files);
    }
  }
}
