/**
 * Per-page metadata parsing, filename sanitising and H1 title extraction
 * (sphinx_pdf_generate/utils.py).
 */
module Utils {
  import opened Wrappers
  import opened PyStr

  // ---------------------------------------------------------------------
  // get_pdf_metadata
  // ---------------------------------------------------------------------

  /** A value of the parsed metadata dictionary: a bool, None, a string or a
      list of strings. */
  datatype MetaValue = Flag(b: bool) | NoneValue | Text(s: string) | Items(xs: seq<string>)

  /** `not v`: Python's falsiness of a metadata value. */
  predicate Falsy(v: MetaValue) {
    match v
    case Flag(b) => !b
    case NoneValue => true
    case Text(s) => s == ""
    case Items(xs) => xs == []
  }

  /** The raw metadata of one page, as the documentation tool extracts it. */
  type RawMetadata = map<string, string>

  /** `PDF_LOCAL_OPTIONS`: each recognised option with its default. */
  const PdfLocalOptions: seq<(string, MetaValue)> := [
    ("pdf-build", Flag(true)),
    ("pdf-title", NoneValue),
    ("pdf-subtitle", Items([])),
    ("pdf-type", Text("document")),
    ("pdf-filename", NoneValue),
    ("pdf-revision", NoneValue)
  ]

  /** The keys of a parsed metadata dictionary. */
  const MetaKeys: set<string> := {"build", "title", "subtitle", "type", "filename", "revision"}

  /** The dictionary key an option is stored under: the first "pdf-" removed. */
  function MetaKey(option: string): string {
    ReplaceFirst(option, "pdf-", "")
  }

  /** Each piece stripped of surrounding whitespace. */
  function StripEach(pieces: seq<string>): (r: seq<string>)
    ensures |r| == |pieces|
  {
    if pieces == [] then [] else [StripSpace(pieces[0])] + StripEach(pieces[1..])
  }

  /** `[item.strip() for item in raw.split("|")]`. */
  function Subtitles(raw: string): seq<string> {
    StripEach(SplitOn(raw, "|"))
  }

  /** How a supplied raw value is converted.  The "pdf-toc_txt" branch of the
      source is kept although the option table never reaches it. */
  function ParseOption(option: string, raw: string): MetaValue {
    if option == "pdf-build" then Flag(LowerAscii(raw) != "false")
    else if option == "pdf-toc_txt" then Flag(LowerAscii(raw) == "true")
    else if option == "pdf-subtitle" then Items(Subtitles(raw))
    else Text(raw)
  }

  /** The value stored for option number `k` of the table. */
  function OptionValue(m: RawMetadata, k: nat): MetaValue
    requires k < |PdfLocalOptions|
  {
    var (option, dflt) := PdfLocalOptions[k];
    if option in m then ParseOption(option, m[option]) else dflt
  }

  lemma MetaKeysOfTable()
    ensures MetaKey("pdf-build") == "build" && MetaKey("pdf-title") == "title"
    ensures MetaKey("pdf-subtitle") == "subtitle" && MetaKey("pdf-type") == "type"
    ensures MetaKey("pdf-filename") == "filename" && MetaKey("pdf-revision") == "revision"
  {
    assert "pdf-build"[..4] == "pdf-";
    assert "pdf-title"[..4] == "pdf-";
    assert "pdf-subtitle"[..4] == "pdf-";
    assert "pdf-type"[..4] == "pdf-";
    assert "pdf-filename"[..4] == "pdf-";
    assert "pdf-revision"[..4] == "pdf-";
  }

  /** The key option number `k` of the table is stored under. */
  function OptionKey(k: nat): string
    requires k < |PdfLocalOptions|
  {
    MetaKey(PdfLocalOptions[k].0)
  }

  /** The dictionary after the first `k` options of the table. */
  function MetaUpTo(m: RawMetadata, k: nat): map<string, MetaValue>
    requires k <= |PdfLocalOptions|
  {
    if k == 0 then map[] else MetaUpTo(m, k - 1)[OptionKey(k - 1) := OptionValue(m, k - 1)]
  }

  /** The whole dictionary: every key of the table, each with its parsed
      value or its default. */
  lemma MetaOfTable(m: RawMetadata)
    ensures var meta := MetaUpTo(m, |PdfLocalOptions|);
      && meta.Keys == MetaKeys
      && meta["build"] == Flag(!("pdf-build" in m && LowerAscii(m["pdf-build"]) == "false"))
      && meta["title"] == (if "pdf-title" in m then Text(m["pdf-title"]) else NoneValue)
      && meta["subtitle"] == Items(if "pdf-subtitle" in m then Subtitles(m["pdf-subtitle"]) else [])
      && meta["type"] == Text(if "pdf-type" in m then m["pdf-type"] else "document")
      && meta["filename"] == (if "pdf-filename" in m then Text(m["pdf-filename"]) else NoneValue)
      && meta["revision"] == (if "pdf-revision" in m then Text(m["pdf-revision"]) else NoneValue)
  {
    OptionKeys();
    MetaSecondHalf(m);
  }

  lemma MetaSecondHalf(m: RawMetadata)
    ensures MetaUpTo(m, 6) == map["build" := OptionValue(m, 0), "title" := OptionValue(m, 1),
      "subtitle" := OptionValue(m, 2), "type" := OptionValue(m, 3), "filename" := OptionValue(m, 4),
      "revision" := OptionValue(m, 5)]
  {
    OptionKeys();
    MetaFirstHalf(m);
    var v0, v1, v2 := OptionValue(m, 0), OptionValue(m, 1), OptionValue(m, 2);
    var v3, v4, v5 := OptionValue(m, 3), OptionValue(m, 4), OptionValue(m, 5);
    assert MetaUpTo(m, 4) == map["build" := v0, "title" := v1, "subtitle" := v2, "type" := v3];
    assert MetaUpTo(m, 5) == map["build" := v0, "title" := v1, "subtitle" := v2, "type" := v3, "filename" := v4];
  }

  lemma MetaFirstHalf(m: RawMetadata)
    ensures MetaUpTo(m, 3) == map["build" := OptionValue(m, 0), "title" := OptionValue(m, 1), "subtitle" := OptionValue(m, 2)]
  {
    OptionKeys();
    assert MetaUpTo(m, 1) == map["build" := OptionValue(m, 0)];
    assert MetaUpTo(m, 2) == map["build" := OptionValue(m, 0), "title" := OptionValue(m, 1)];
  }

  lemma OptionKeys()
    ensures OptionKey(0) == "build" && OptionKey(1) == "title" && OptionKey(2) == "subtitle"
    ensures OptionKey(3) == "type" && OptionKey(4) == "filename" && OptionKey(5) == "revision"
  {
    MetaKeysOfTable();
  }

  /** `get_pdf_metadata`: fills the dictionary option by option, in table
      order; None stands for an empty mapping. */
  method GetPdfMetadata(pdfMetadata: Option<RawMetadata>) returns (meta: map<string, MetaValue>)
    ensures meta == MetaUpTo(if pdfMetadata.Some? then pdfMetadata.value else map[], |PdfLocalOptions|)
  {
    var m: RawMetadata := if pdfMetadata.None? then map[] else pdfMetadata.value;
    meta := map[];
    for k := 0 to |PdfLocalOptions|
      invariant meta == MetaUpTo(m, k)
    {
      var key, optionValue := ReadOption(m, k);
      meta := meta[key := optionValue];
    }
  }

  /** One turn of the loop: the key without its "pdf-" and the value the
      page gives for the option, parsed, or its default. */
  method ReadOption(m: RawMetadata, k: nat) returns (key: string, optionValue: MetaValue)
    requires k < |PdfLocalOptions|
    ensures key == OptionKey(k) && optionValue == OptionValue(m, k)
  {
    var (option, defaultValue) := PdfLocalOptions[k];
    optionValue := defaultValue;
    if option in m {
      if option == "pdf-build" {
        optionValue := Flag(LowerAscii(m[option]) != "false");
      } else if option == "pdf-toc_txt" {
        optionValue := Flag(LowerAscii(m[option]) == "true");
      } else if option == "pdf-subtitle" {
        optionValue := Items(Subtitles(m[option]));
      } else {
        optionValue := Text(m[option]);
      }
    }
    key := MetaKey(option);
  }

  /** No subtitle starts or ends with whitespace. */
  lemma SubtitlesAreStripped(raw: string)
    ensures forall i :: 0 <= i < |Subtitles(raw)| ==> NoOuterSpace(Subtitles(raw)[i])
  {
    StripEachStrips(SplitOn(raw, "|"));
  }

  lemma {:induction false} StripEachStrips(pieces: seq<string>)
    ensures forall i :: 0 <= i < |StripEach(pieces)| ==> NoOuterSpace(StripEach(pieces)[i])
  {
    if pieces != [] {
      StripEachStrips(pieces[1..]);
    }
  }

  predicate NoOuterSpace(w: string) {
    w == [] || (!IsSpace(w[0]) && !IsSpace(w[|w| - 1]))
  }

  /** There is one subtitle more than there are "|" characters. */
  lemma SubtitlesCount(raw: string)
    ensures |Subtitles(raw)| == Count(raw, "|") + 1
  {
    SplitLength(raw, "|");
  }

  /** The text before the first "|" is the first subtitle, stripped; the
      rest gives the remaining subtitles. */
  lemma {:induction false} SubtitlesOfFirst(a: string, b: string)
    requires '|' !in a
    ensures Subtitles(a + "|" + b) == [StripSpace(a)] + Subtitles(b)
  {
    var s := a + "|" + b;
    assert s == a + ['|'] + b;
    SplitAtFirst(a, '|', b);
    assert ([a] + SplitOn(b, "|"))[1..] == SplitOn(b, "|");
  }

  /** A value without "|" is a single subtitle. */
  lemma SubtitlesOfSingle(a: string)
    requires '|' !in a
    ensures Subtitles(a) == [StripSpace(a)]
  {
    SplitWithoutSeparator(a, '|');
  }

  // ---------------------------------------------------------------------
  // secure_filename
  // ---------------------------------------------------------------------

  /** The operating system, which decides the path separators and whether
      device names are guarded. */
  datatype Platform = Posix | Nt

  /** `os.path.sep` and `os.path.altsep` (when set). */
  function Separators(p: Platform): seq<char> {
    match p
    case Posix => ['/']
    case Nt => ['\\', '/']
  }

  const WindowsDeviceFiles: set<string> :=
    {"CON", "AUX", "COM1", "COM2", "COM3", "COM4", "LPT1", "LPT2", "LPT3", "PRN", "NUL"}

  /** The characters `[A-Za-z0-9_.-]` that survive the filter. */
  predicate IsSafeChar(c: char) {
    ('A' <= c <= 'Z') || ('a' <= c <= 'z') || ('0' <= c <= '9') || c == '_' || c == '.' || c == '-'
  }

  predicate AllSafe(s: string) {
    forall i :: 0 <= i < |s| ==> IsSafeChar(s[i])
  }

  predicate IsDotOrUnderscore(c: char) {
    c == '.' || c == '_'
  }

  /** Each separator in turn replaced by a space. */
  function SeparatorsToSpaces(s: string, seps: seq<char>): string
    decreases |seps|
  {
    if seps == [] then s else SeparatorsToSpaces(ReplaceAll(s, [seps[0]], " "), seps[1..])
  }

  /** `re.sub(r"[^A-Za-z0-9_.-]", "", s)`: every safe character is kept,
      as often as it occurs, and nothing else. `KeepSafeAppend` adds that
      the kept characters stay in order. */
  function KeepSafe(s: string): (r: string)
    ensures AllSafe(r) && |r| <= |s|
    ensures forall c :: IsSafeChar(c) ==> multiset(r)[c] == multiset(s)[c]
  {
    if s == [] then []
    else
      assert s == [s[0]] + s[1..];
      (if IsSafeChar(s[0]) then [s[0]] else []) + KeepSafe(s[1..])
  }

  /** Filtering a concatenation filters each part, in order. */
  lemma {:induction false} KeepSafeAppend(a: string, b: string)
    ensures KeepSafe(a + b) == KeepSafe(a) + KeepSafe(b)
    decreases |a|
  {
    if a == [] {
      assert a + b == b;
    } else {
      assert (a + b)[1..] == a[1..] + b;
      KeepSafeAppend(a[1..], b);
    }
  }

  /** A text without any safe character, such as "ü", is deleted entirely:
      nothing is transliterated. */
  lemma {:induction false} KeepSafeDeletes(s: string)
    requires forall i :: 0 <= i < |s| ==> !IsSafeChar(s[i])
    ensures KeepSafe(s) == []
  {
    if s != [] {
      assert forall i :: 0 <= i < |s| - 1 ==> s[1..][i] == s[i + 1];
      KeepSafeDeletes(s[1..]);
    }
  }

  /** The filename before the device-name guard. */
  function CleanFilename(filename: string, p: Platform): string {
    var spaced := SeparatorsToSpaces(filename, Separators(p));
    StripBy(KeepSafe(JoinWith("_", Words(spaced))), IsDotOrUnderscore)
  }

  predicate IsDeviceName(cleaned: string) {
    UpperAscii(SplitOn(cleaned, ".")[0]) in WindowsDeviceFiles
  }

  /** `secure_filename`. */
  function SecureFilename(filename: string, p: Platform): string {
    var cleaned := CleanFilename(filename, p);
    if p == Nt && cleaned != "" && IsDeviceName(cleaned) then "_" + cleaned else cleaned
  }

  predicate CleanEnds(s: string) {
    s == [] || (!IsDotOrUnderscore(s[0]) && !IsDotOrUnderscore(s[|s| - 1]))
  }

  lemma AllSafeOfSlice(s: string, i: nat, j: nat)
    requires AllSafe(s) && i <= j <= |s|
    ensures AllSafe(s[i..j])
  {
    forall k | 0 <= k < j - i ensures IsSafeChar(s[i..j][k]) {
      assert s[i..j][k] == s[i + k];
    }
  }

  lemma {:induction false} CleanFilenameShape(filename: string, p: Platform)
    ensures AllSafe(CleanFilename(filename, p)) && CleanEnds(CleanFilename(filename, p))
  {
    var kept := KeepSafe(JoinWith("_", Words(SeparatorsToSpaces(filename, Separators(p)))));
    var l := LStripBy(kept, IsDotOrUnderscore);
    AllSafeOfSlice(kept, |kept| - |l|, |kept|);
    var r := RStripBy(l, IsDotOrUnderscore);
    AllSafeOfSlice(l, 0, |r|);
    if r != [] {
      assert r[0] == l[0];
    }
  }

  /** The result holds only `[A-Za-z0-9_.-]`; it neither starts nor ends
      with "." or "_", except for the "_" put before a Windows device name. */
  lemma {:induction false} SecureFilenameShape(filename: string, p: Platform)
    ensures var r := SecureFilename(filename, p);
      && AllSafe(r)
      && (CleanEnds(r) || (p == Nt && r[0] == '_' && CleanEnds(r[1..]) && IsDeviceName(r[1..])))
  {
    CleanFilenameShape(filename, p);
    var c := CleanFilename(filename, p);
    if p == Nt && c != "" && IsDeviceName(c) {
      assert ("_" + c)[1..] == c;
      forall k | 0 <= k < |c| + 1 ensures IsSafeChar(("_" + c)[k]) {
        if k > 0 { assert ("_" + c)[k] == c[k - 1]; }
      }
    }
  }

  lemma NoSpaceOfSafe(s: string)
    requires AllSafe(s)
    ensures NoSpace(s)
  {
  }

  lemma {:induction false} KeepSafeOfSafe(s: string)
    requires AllSafe(s)
    ensures KeepSafe(s) == s
  {
    if s != [] {
      assert AllSafe(s[1..]) by { AllSafeOfSlice(s, 1, |s|); }
      KeepSafeOfSafe(s[1..]);
      assert s == [s[0]] + s[1..];
    }
  }

  lemma {:induction false} SeparatorsOfSafe(s: string, seps: seq<char>)
    requires AllSafe(s) && forall i :: 0 <= i < |seps| ==> !IsSafeChar(seps[i])
    ensures SeparatorsToSpaces(s, seps) == s
    decreases |seps|
  {
    if seps != [] {
      assert seps[0] !in s;
      CountOfAbsentChar(s, seps[0]);
      ReplaceWithoutMatch(s, [seps[0]], " ");
      SeparatorsOfSafe(s, seps[1..]);
    }
  }

  /** A name that is already clean passes the cleaning unchanged. */
  lemma {:induction false} CleanFilenameOfClean(s: string, p: Platform)
    requires AllSafe(s) && CleanEnds(s)
    ensures CleanFilename(s, p) == s
  {
    SeparatorsOfSafe(s, Separators(p));
    NoSpaceOfSafe(s);
    WordsOfSpaceless(s);
    KeepSafeOfSafe(s);
    StripNothing(s, IsDotOrUnderscore);
  }

  /** A name of safe characters goes through separator replacement,
      word splitting and filtering unchanged. */
  lemma FilterOfSafe(u: string, p: Platform)
    requires AllSafe(u)
    ensures KeepSafe(JoinWith("_", Words(SeparatorsToSpaces(u, Separators(p))))) == u
  {
    SeparatorsOfSafe(u, Separators(p));
    NoSpaceOfSafe(u);
    WordsOfSpaceless(u);
    KeepSafeOfSafe(u);
  }

  lemma GuardIsSafe(c: string)
    requires AllSafe(c)
    ensures AllSafe("_" + c)
  {
    var u := "_" + c;
    forall k | 0 <= k < |u| ensures IsSafeChar(u[k]) {
      if k > 0 { assert u[k] == c[k - 1]; }
    }
  }

  lemma StripGuard(c: string)
    requires c != [] && CleanEnds(c)
    ensures StripBy("_" + c, IsDotOrUnderscore) == c
  {
    assert ("_" + c)[1..] == c;
    StripNothing(c, IsDotOrUnderscore);
  }

  /** A guarded device name loses its "_" again when cleaned. */
  lemma {:induction false} CleanFilenameOfGuarded(c: string, p: Platform)
    requires c != [] && AllSafe(c) && CleanEnds(c)
    ensures CleanFilename("_" + c, p) == c
  {
    GuardIsSafe(c);
    FilterOfSafe("_" + c, p);
    StripGuard(c);
  }

  /** Sanitising twice gives the same result as sanitising once. */
  lemma {:induction false} SecureFilenameIdempotent(filename: string, p: Platform)
    ensures SecureFilename(SecureFilename(filename, p), p) == SecureFilename(filename, p)
  {
    var c := CleanFilename(filename, p);
    CleanFilenameShape(filename, p);
    if SecureFilename(filename, p) == c {
      CleanFilenameOfClean(c, p);
    } else {
      CleanFilenameOfGuarded(c, p);
    }
  }

  lemma {:induction false} JoinIsSafe(ws: seq<string>)
    requires forall k :: 0 <= k < |ws| ==> AllSafe(ws[k])
    ensures AllSafe(JoinWith("_", ws))
  {
    if |ws| > 1 {
      JoinIsSafe(ws[1..]);
      var rest := JoinWith("_", ws[1..]);
      var j := ws[0] + "_" + rest;
      forall k | 0 <= k < |j| ensures IsSafeChar(j[k]) {
        if k < |ws[0]| {
          assert j[k] == ws[0][k];
        } else if k > |ws[0]| {
          assert j[k] == rest[k - |ws[0]| - 1];
        }
      }
    }
  }

  lemma {:induction false} JoinEnds(sep: string, ws: seq<string>)
    requires |ws| >= 1 && forall k :: 0 <= k < |ws| ==> ws[k] != []
    ensures var j := JoinWith(sep, ws); j != [] && j[0] == ws[0][0] && j[|j| - 1] == ws[|ws| - 1][|ws[|ws| - 1]| - 1]
  {
    if |ws| > 1 {
      var rest := ws[1..];
      JoinEnds(sep, rest);
      var r := JoinWith(sep, rest);
      assert rest[|rest| - 1] == ws[|ws| - 1];
      var j := ws[0] + sep + r;
      assert JoinWith(sep, ws) == j;
      assert j[0] == ws[0][0];
      assert j[|j| - 1] == r[|r| - 1];
    }
  }

  /** Safe words separated by single spaces come out joined by "_": the
      documented "My cool movie.mov" to "My_cool_movie.mov" case, for every
      such name. */
  lemma {:induction false} SecureFilenameOfWords(ws: seq<string>)
    requires |ws| >= 1 && forall k :: 0 <= k < |ws| ==> ws[k] != [] && AllSafe(ws[k])
    requires !IsDotOrUnderscore(ws[0][0]) && !IsDotOrUnderscore(ws[|ws| - 1][|ws[|ws| - 1]| - 1])
    ensures SecureFilename(JoinWith(" ", ws), Posix) == JoinWith("_", ws)
  {
    var joined := JoinWith("_", ws);
    CleanOfSpacedWords(ws);
    JoinedWordsEnds(ws);
    StripNothing(joined, IsDotOrUnderscore);
    SecureFilenameOnPosix(JoinWith(" ", ws));
  }

  /** Only Windows guards device names. */
  lemma {:induction false} SecureFilenameOnPosix(s: string)
    ensures SecureFilename(s, Posix) == CleanFilename(s, Posix)
  {
  }

  lemma {:induction false} JoinedWordsEnds(ws: seq<string>)
    requires |ws| >= 1 && forall k :: 0 <= k < |ws| ==> ws[k] != []
    requires !IsDotOrUnderscore(ws[0][0]) && !IsDotOrUnderscore(ws[|ws| - 1][|ws[|ws| - 1]| - 1])
    ensures var j := JoinWith("_", ws); j != [] && !IsDotOrUnderscore(j[0]) && !IsDotOrUnderscore(j[|j| - 1])
  {
    JoinEnds("_", ws);
  }

  lemma {:induction false} CleanOfSpacedWords(ws: seq<string>)
    requires forall k :: 0 <= k < |ws| ==> ws[k] != [] && AllSafe(ws[k])
    ensures CleanFilename(JoinWith(" ", ws), Posix) == StripBy(JoinWith("_", ws), IsDotOrUnderscore)
  {
    forall k | 0 <= k < |ws| ensures NoSpace(ws[k]) && '/' !in ws[k] {
      NoSpaceOfSafe(ws[k]);
      SlashUnsafe(ws[k]);
    }
    CleanOfSpacedText(ws);
    JoinIsSafe(ws);
    KeepSafeOfSafe(JoinWith("_", ws));
  }

  lemma SlashUnsafe(w: string)
    requires AllSafe(w)
    ensures '/' !in w
  {
  }

  /** Words of any characters but whitespace and "/", separated by single
      spaces, are joined by "_" before the filter and the strip. */
  lemma {:induction false} CleanOfSpacedText(ws: seq<string>)
    requires forall k :: 0 <= k < |ws| ==> ws[k] != [] && NoSpace(ws[k]) && '/' !in ws[k]
    ensures CleanFilename(JoinWith(" ", ws), Posix) == StripBy(KeepSafe(JoinWith("_", ws)), IsDotOrUnderscore)
  {
    SeparatorsOfSpacedWords(ws);
    WordsOfJoin(ws);
  }

  /** A Posix path of safe segments comes out as its segments joined by
      "_", with leading and trailing "." and "_" stripped. */
  lemma {:induction false} SecureFilenameOfPath(ws: seq<string>)
    requires |ws| >= 1 && forall k :: 0 <= k < |ws| ==> ws[k] != [] && AllSafe(ws[k])
    ensures SecureFilename(JoinWith("/", ws), Posix) == StripBy(JoinWith("_", ws), IsDotOrUnderscore)
  {
    forall k | 0 <= k < |ws| ensures '/' !in ws[k] && NoSpace(ws[k]) {
      SlashUnsafe(ws[k]);
      NoSpaceOfSafe(ws[k]);
    }
    ReplaceSeparatorOfJoin(ws, '/', " ");
    assert SeparatorsToSpaces(JoinWith("/", ws), Separators(Posix)) == JoinWith(" ", ws);
    WordsOfJoin(ws);
    JoinIsSafe(ws);
    KeepSafeOfSafe(JoinWith("_", ws));
  }

  const PasswdSegments: seq<string> := ["..", "..", "..", "etc", "passwd"]

  lemma PasswdSegmentsJoined()
    ensures JoinWith("/", PasswdSegments) == "../../../etc/passwd"
    ensures JoinWith("_", PasswdSegments) == ".._.._.._" + "etc_passwd"
    ensures |PasswdSegments| >= 1
    ensures forall k :: 0 <= k < |PasswdSegments| ==> PasswdSegments[k] != [] && AllSafe(PasswdSegments[k])
  {
  }

  lemma PasswdCleaned(path: string)
    requires path == "../../../etc/passwd"
    ensures SecureFilename(path, Posix) == StripBy(JoinWith("_", PasswdSegments), IsDotOrUnderscore)
  {
    PasswdSegmentsJoined();
    SecureFilenameOfPath(PasswdSegments);
  }

  lemma PasswdStripped(dots: string, w: string)
    requires dots == ".._.._.._" && w == "etc_passwd"
    ensures StripBy(dots + w, IsDotOrUnderscore) == w
  {
    StripLeading(dots, w, IsDotOrUnderscore);
  }

  /** The documented "../../../etc/passwd" gives "etc_passwd": the parent
      references become leading "." and "_" and are stripped. */
  lemma PasswdExample()
    ensures SecureFilename("../../../etc/passwd", Posix) == "etc_passwd"
  {
    PasswdCleaned("../../../etc/passwd");
    PasswdSegmentsJoined();
    PasswdStripped(".._.._.._", "etc_passwd");
  }

  lemma KeepSafeDeletesChar(u: string)
    requires |u| == 1 && !IsSafeChar(u[0])
    ensures KeepSafe(u) == []
  {
    KeepSafeDeletes(u);
  }

  lemma KeepSafeDropsChar(a: string, u: string)
    requires AllSafe(a) && |u| == 1 && !IsSafeChar(u[0])
    ensures KeepSafe(a + u) == a
  {
    KeepSafeOfSafe(a);
    KeepSafeDeletes(u);
    KeepSafeAppend(a, u);
  }

  /** Two unsafe characters between safe pieces are deleted, and the safe
      pieces close up. */
  lemma KeepSafeDropsTwo(a: string, u: string, b: string, e: string, c: string)
    requires AllSafe(a) && AllSafe(b) && AllSafe(c)
    requires |u| == 1 && |e| == 1 && !IsSafeChar(u[0]) && !IsSafeChar(e[0])
    ensures KeepSafe(a + u + b + e + c) == a + b + c
  {
    var x1 := a + u;
    KeepSafeDropsChar(a, u);
    var x2 := x1 + b;
    KeepSafeOfSafe(b);
    KeepSafeAppend(x1, b);
    var x3 := x2 + e;
    KeepSafeDeletesChar(e);
    KeepSafeAppend(x2, e);
    assert KeepSafe(x3) == a + b;
    KeepSafeOfSafe(c);
    KeepSafeAppend(x3, c);
  }

  const UmlautWords: seq<string> := ["i", "contain", "cool", "\U{FC}ml\U{E4}uts.txt"]

  lemma UmlautWordsSpaced()
    ensures JoinWith(" ", UmlautWords) == "i contain cool \U{FC}ml\U{E4}uts.txt"
  {
  }

  lemma UmlautWordsJoined()
    ensures JoinWith("_", UmlautWords) == "i_contain_cool_" + "\U{FC}" + "ml" + "\U{E4}" + "uts.txt"
  {
  }

  lemma UmlautWordsPlain()
    ensures forall k :: 0 <= k < |UmlautWords| ==> UmlautWords[k] != [] && NoSpace(UmlautWords[k]) && '/' !in UmlautWords[k]
  {
  }

  lemma UmlautCleaned(name: string)
    requires name == "i contain cool \U{FC}ml\U{E4}uts.txt"
    ensures SecureFilename(name, Posix) == StripBy(KeepSafe(JoinWith("_", UmlautWords)), IsDotOrUnderscore)
  {
    UmlautWordsSpaced();
    UmlautWordsPlain();
    CleanOfSpacedText(UmlautWords);
  }

  lemma UmlautPieces(a: string, u: string, b: string, e: string, c: string)
    requires a == "i_contain_cool_" && u == "\U{FC}" && b == "ml" && e == "\U{E4}" && c == "uts.txt"
    ensures AllSafe(a) && AllSafe(b) && AllSafe(c)
    ensures |u| == 1 && |e| == 1 && !IsSafeChar(u[0]) && !IsSafeChar(e[0])
  {
  }

  lemma UmlautKept()
    ensures "i_contain_cool_" + "ml" + "uts.txt" == "i_contain_cool_mluts.txt"
  {
  }

  lemma UmlautStripped(r: string)
    requires r == "i_contain_cool_mluts.txt"
    ensures StripBy(r, IsDotOrUnderscore) == r
  {
    StripNothing(r, IsDotOrUnderscore);
  }

  /** The umlaut example of the docstring: "ü" and "ä" are deleted, not
      transliterated, so the code gives "i_contain_cool_mluts.txt". */
  lemma UmlautsDeleted()
    ensures SecureFilename("i contain cool \U{FC}ml\U{E4}uts.txt", Posix) == "i_contain_cool_mluts.txt"
  {
    UmlautCleaned("i contain cool \U{FC}ml\U{E4}uts.txt");
    UmlautWordsJoined();
    UmlautPieces("i_contain_cool_", "\U{FC}", "ml", "\U{E4}", "uts.txt");
    KeepSafeDropsTwo("i_contain_cool_", "\U{FC}", "ml", "\U{E4}", "uts.txt");
    UmlautKept();
    UmlautStripped("i_contain_cool_mluts.txt");
  }

  lemma {:induction false} SeparatorsOfSpacedWords(ws: seq<string>)
    requires forall k :: 0 <= k < |ws| ==> '/' !in ws[k]
    ensures SeparatorsToSpaces(JoinWith(" ", ws), Separators(Posix)) == JoinWith(" ", ws)
  {
    var s := JoinWith(" ", ws);
    CharNotInJoin(" ", ws, '/');
    CountOfAbsentChar(s, '/');
    ReplaceWithoutMatch(s, "/", " ");
  }

  // ---------------------------------------------------------------------
  // h1_title_tag
  // ---------------------------------------------------------------------

  /** An h1 element of the page: its id attribute and its text. */
  datatype H1 = H1(id: Option<string>, text: string)

  /** `\w` or `-`, for ASCII characters. */
  predicate IsIdChar(c: char) {
    ('A' <= c <= 'Z') || ('a' <= c <= 'z') || ('0' <= c <= '9') || c == '_' || c == '-'
  }

  /** `re.compile(r"[\w\-]+")` finds a match somewhere in the id. */
  predicate IdMatches(id: Option<string>) {
    id.Some? && exists i :: 0 <= i < |id.value| && IsIdChar(id.value[i])
  }

  /** The first h1 whose id matches, in document order. */
  function FirstTitledH1(h1s: seq<H1>): (r: Option<nat>)
    ensures r.Some? ==> r.value < |h1s| && IdMatches(h1s[r.value].id)
    ensures r.Some? ==> forall j :: 0 <= j < r.value ==> !IdMatches(h1s[j].id)
    ensures r.None? ==> forall j :: 0 <= j < |h1s| ==> !IdMatches(h1s[j].id)
  {
    if h1s == [] then None
    else if IdMatches(h1s[0].id) then Some(0)
    else match FirstTitledH1(h1s[1..])
      case None => None
      case Some(k) => Some(k + 1)
  }

  predicate IsNumberingChar(c: char) {
    IsDigit(c) || c == '.'
  }

  function NumberingEnd(t: string, i: nat): (j: nat)
    requires i <= |t|
    ensures i <= j <= |t| && (j == |t| || !IsNumberingChar(t[j]))
    ensures forall k :: i <= k < j ==> IsNumberingChar(t[k])
    decreases |t| - i
  {
    if i < |t| && IsNumberingChar(t[i]) then NumberingEnd(t, i + 1) else i
  }

  /** `re.sub(r"^[\d.]+ ", "", t)`: a leading run of digits and dots
      followed by a space is removed. */
  function DropNumbering(t: string): string {
    var n := NumberingEnd(t, 0);
    if 0 < n < |t| && t[n] == ' ' then t[n + 1..] else t
  }

  predicate IsPilcrowJunk(c: char) {
    c == '\U{C2}' || c == '\U{B6}'
  }

  /** `h1_title_tag` on the page's h1 elements. */
  function H1TitleTag(h1s: seq<H1>, pdfTitle: Option<string>): Option<string> {
    match FirstTitledH1(h1s)
    case None => pdfTitle
    case Some(k) => Some(RStripBy(DropNumbering(h1s[k].text), IsPilcrowJunk))
  }

  /** With no h1 whose id matches, the title is `pdf_title`. */
  lemma H1TitleTagFallback(h1s: seq<H1>, pdfTitle: Option<string>)
    requires forall j :: 0 <= j < |h1s| ==> !IdMatches(h1s[j].id)
    ensures H1TitleTag(h1s, pdfTitle) == pdfTitle
  {
  }

  /** Otherwise the title comes from the first h1 whose id matches, with
      the numbering dropped and no trailing "Â" or "¶". */
  lemma H1TitleTagFirstMatch(h1s: seq<H1>, pdfTitle: Option<string>, k: nat)
    requires k < |h1s| && IdMatches(h1s[k].id)
    requires forall j :: 0 <= j < k ==> !IdMatches(h1s[j].id)
    ensures H1TitleTag(h1s, pdfTitle) == Some(RStripBy(DropNumbering(h1s[k].text), IsPilcrowJunk))
  {
  }

  /** A numbering prefix "digits and dots, then a space" is removed, and
      only that. */
  lemma DropNumberingPrefix(number: string, rest: string)
    requires number != [] && forall i :: 0 <= i < |number| ==> IsNumberingChar(number[i])
    ensures DropNumbering(number + " " + rest) == rest
  {
    var t := number + " " + rest;
    NumberingEndAt(t, 0, |number|);
    assert t[|number| + 1..] == rest;
  }

  lemma NumberingEndAt(t: string, i: nat, n: nat)
    requires i <= n < |t| && !IsNumberingChar(t[n])
    requires forall k :: i <= k < n ==> IsNumberingChar(t[k])
    ensures NumberingEnd(t, i) == n
    decreases n - i
  {
    if i < n {
      NumberingEndAt(t, i + 1, n);
    }
  }

  /** A text that does not start with a digit or a dot keeps its start. */
  lemma DropNumberingWithoutPrefix(t: string)
    requires t == [] || !IsNumberingChar(t[0])
    ensures DropNumbering(t) == t
  {
  }
}
