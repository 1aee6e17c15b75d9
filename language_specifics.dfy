/**
 * The language tables behind the template functions: a file's language id
 * from its extension or its standard name, and a language's comment style.
 */
module LanguageSpecifics {
  import opened Wrappers
  import opened Text

  /** `EXT_BY_LANG_ID`: lower-case extension and language id (written in two halves). */
  const EXT_BY_LANG_ID: Table<string> := [
    ("bat", "batch"),
    ("c", "c"),
    ("h", "c"),
    ("clj", "clojure"),
    ("cmake", "cmake"),
    ("cl", "common-lisp"),
    ("cc", "cpp"),
    ("cpp", "cpp"),
    ("cxx", "cpp"),
    ("c++", "cpp"),
    ("hpp", "cpp"),
    ("hxx", "cpp"),
    ("h++", "cpp"),
    ("cs", "csharp"),
    ("css", "css"),
    ("dart", "dart"),
    ("comp", "glsl"),
    ("frag", "glsl"),
    ("geom", "glsl"),
    ("glsl", "glsl"),
    ("tesc", "glsl"),
    ("tese", "glsl"),
    ("vert", "glsl"),
    ("go", "go"),
    ("haml", "haml"),
    ("handlebars", "handlebars"),
    ("hbs", "handlebars"),
    ("hlsl", "hlsl"),
    ("html", "html"),
    ("ini", "ini"),
    ("java", "java"),
    ("js", "javascript"),
    ("cjs", "javascript"),
    ("mjs", "javascript")
  ] + [
    ("jsx", "javascript"),
    ("jsx", "javascript"),
    ("jinja", "jinja"),
    ("jinja2", "jinja"),
    ("json", "json"),
    ("jsonc", "jsonc"),
    ("kt", "kotlin"),
    ("less", "less"),
    ("lua", "lua"),
    ("md", "markdown"),
    ("pl", "perl"),
    ("py", "python"),
    ("pyc", "python"),
    ("pyo", "python"),
    ("rkt", "racket"),
    ("rb", "ruby"),
    ("rs", "rust"),
    ("sass", "sass"),
    ("sc", "scala"),
    ("scala", "scala"),
    ("scss", "scss"),
    ("sh", "shell"),
    ("sql", "sql"),
    ("swift", "swift"),
    ("tex", "tex"),
    ("toml", "toml"),
    ("ts", "typescript"),
    ("cts", "typescript"),
    ("mts", "typescript"),
    ("tsx", "typescript"),
    ("xhtml", "xhtml"),
    ("xml", "xml"),
    ("yaml", "yaml"),
    ("yml", "yaml")
  ]

  /** `FILENAME_BY_LANG_ID`: standard file name and language id. */
  const FILENAME_BY_LANG_ID: Table<string> := [("Makefile", "makefile"), ("CMakeLists.txt", "cmake")]

  /** `CommentStyle(block_start, block_prefix, block_end)`. */
  datatype CommentStyle = CommentStyle(blockStart: string, blockPrefix: string, blockEnd: string)

  /** `COMMENTS_BY_LANG_ID`: language id and comment style, in ascending id order. */
  const COMMENTS_BY_LANG_ID: Table<CommentStyle> := [
    ("batch", CommentStyle("", "REM", "")),
    ("c", CommentStyle("/*", " *", " */")),
    ("clojure", CommentStyle("", ";;", "")),
    ("cmake", CommentStyle("", "#", "")),
    ("common-lisp", CommentStyle("", ";;", "")),
    ("cpp", CommentStyle("/*", " *", " */")),
    ("csharp", CommentStyle("/*", " *", " */")),
    ("css", CommentStyle("/*", " *", " */")),
    ("dart", CommentStyle("/*", " *", " */")),
    ("glsl", CommentStyle("/*", " *", " */")),
    ("go", CommentStyle("/*", " *", " */")),
    ("haml", CommentStyle("", "-#", "")),
    ("handlebars", CommentStyle("{{!", "   ", "}}")),
    ("hlsl", CommentStyle("/*", " *", " */")),
    ("html", CommentStyle("<!--", "   ", "-->")),
    ("ini", CommentStyle("", "#", "")),
    ("java", CommentStyle("/*", " *", " */")),
    ("javascript", CommentStyle("/*", " *", " */")),
    ("jinja", CommentStyle("{#", "   ", "#}")),
    ("json", CommentStyle("/*", " *", " */")),
    ("jsonc", CommentStyle("/*", " *", " */")),
    ("kotlin", CommentStyle("/*", " *", " */")),
    ("less", CommentStyle("/*", " *", " */")),
    ("lua", CommentStyle("", "--", "")),
    ("makefile", CommentStyle("", "#", "")),
    ("markdown", CommentStyle("", "", "")),
    ("perl", CommentStyle("", "#", "")),
    ("python", CommentStyle("", "#", "")),
    ("racket", CommentStyle("#|", "   ", "|#")),
    ("ruby", CommentStyle("", "#", "")),
    ("rust", CommentStyle("/*", " *", " */")),
    ("sass", CommentStyle("/*", " *", " */")),
    ("scala", CommentStyle("/*", " *", " */")),
    ("scss", CommentStyle("/*", " *", " */")),
    ("shell", CommentStyle("", "#", "")),
    ("sql", CommentStyle("", "--", "")),
    ("swift", CommentStyle("/*", " *", " */")),
    ("tex", CommentStyle("", "%", "")),
    ("toml", CommentStyle("", "#", "")),
    ("typescript", CommentStyle("/*", " *", " */")),
    ("xhtml", CommentStyle("<!--", "   ", "-->")),
    ("xml", CommentStyle("<!--", "   ", "-->")),
    ("yaml", CommentStyle("", "#", ""))
  ]

  /* ---------- lookups by linear search ---------- */

  /** An entry repeated right after itself can be dropped without changing any lookup. */
  lemma {:induction false} FindSkipsRepeat<V>(t: Table<V>, i: nat, key: string)
    requires i + 1 < |t| && t[i] == t[i + 1]
    ensures Find(t, key) == Find(t[..i + 1] + t[i + 2..], key)
  {
    var t' := t[..i + 1] + t[i + 2..];
    FindUnfold(t, key);
    FindUnfold(t', key);
    if i == 0 {
      assert t' == t[1..];
      FindUnfold(t[1..], key);
    } else {
      assert t'[0] == t[0];
      assert t'[1..] == t[1..][..i] + t[1..][i + 1..];
      FindSkipsRepeat(t[1..], i - 1, key);
    }
  }

  /* ---------- file names and extensions ---------- */

  /** The pieces that `Path::components` keeps on Unix: empty pieces and `.` are dropped. */
  function Components(ps: seq<string>): (cs: seq<string>)
    ensures forall k :: 0 <= k < |cs| ==> cs[k] != "" && cs[k] != "." && cs[k] in ps
  {
    if ps == [] then []
    else (if ps[0] == "" || ps[0] == "." then [] else [ps[0]]) + Components(ps[1..])
  }

  /** `Path::file_name`: the last component, unless there is none or it is `..`. */
  function FileName(path: string): (r: Option<string>)
    ensures r.Some? ==> r.value != "" && r.value != "." && r.value != ".." && '/' !in r.value
  {
    var cs := Components(Split(path, '/'));
    if cs == [] || cs[|cs| - 1] == ".." then None else Some(cs[|cs| - 1])
  }

  /** The index of the last `.` in `s`. */
  function LastDot(s: string): (r: Option<nat>)
    ensures r.Some? ==> r.value < |s| && s[r.value] == '.' && '.' !in s[r.value + 1..]
    ensures r.None? ==> '.' !in s
    decreases |s|
  {
    if s == [] then None
    else if s[|s| - 1] == '.' then Some(|s| - 1)
    else match LastDot(s[..|s| - 1])
      case None => None
      case Some(i) => assert s[i + 1..] == s[..|s| - 1][i + 1..] + [s[|s| - 1]]; Some(i)
  }

  /**
   * The extension of a file name, as `Path::extension` splits it: the text
   * after the last `.`, unless the name is `..` or its only `.` is its first
   * character.
   */
  function NameExtension(name: string): (r: Option<string>)
    ensures r.None? <==> name == ".." || forall k :: 0 < k < |name| ==> name[k] != '.'
    ensures r.Some? ==>
      && '.' !in r.value && |r.value| < |name| && name[|name| - |r.value| - 1] == '.'
      && name[|name| - |r.value|..] == r.value
  {
    if name == ".." then None
    else match LastDot(name)
      case None => None
      case Some(i) =>
        if i == 0 then
          assert forall k :: 0 < k < |name| ==> name[k] == name[1..][k - 1];
          None
        else Some(name[i + 1..])
  }

  /** `Path::extension` of a path. */
  function Extension(path: string): Option<string> {
    match FileName(path)
    case None => None
    case Some(name) => NameExtension(name)
  }

  /** A `.` then an extension with no `.` in it, after a stem: that extension is the path's. */
  lemma DottedExtension(stem: string, ext: string)
    requires '/' !in stem && '/' !in ext && '.' !in ext
    requires stem != "" && stem != "."
    ensures Extension(stem + "." + ext) == Some(ext)
  {
    var name := stem + "." + ext;
    assert '/' !in name by {
      forall k | 0 <= k < |name| ensures name[k] != '/' {
        if k < |stem| { assert name[k] == stem[k]; }
        else if k > |stem| { assert name[k] == ext[k - |stem| - 1]; }
      }
    }
    assert Split(name, '/') == [name];
    assert Components([name]) == [name] + Components([]);
    assert name != "..";
    LastDotAfter(stem, ext);
    assert name[|stem| + 1..] == ext;
  }

  lemma LastDotAfter(stem: string, ext: string)
    requires '.' !in ext
    ensures LastDot(stem + "." + ext) == Some(|stem|)
  {
    var name := stem + "." + ext;
    assert name[|stem|] == '.';
  }

  /** A name without `/` or `.` has no extension. */
  lemma PlainNameNoExtension(name: string)
    requires '/' !in name && '.' !in name
    ensures Extension(name) == None
  {
    assert Split(name, '/') == [name];
    assert Components([name]) == (if name == "" || name == "." then [] else [name]) + Components([]);
  }

  /* ---------- language ids ---------- */

  /**
   * `to_lowercase` on one character, as far as the extension table can
   * tell: ASCII letters and U+212A KELVIN SIGN, the one non-ASCII character
   * whose lower case is ASCII (`k`), are mapped; every other character is
   * kept. Rust lower-cases the other non-ASCII characters to non-ASCII text,
   * and such an extension matches no key either way (`NonAsciiUnrecognised`).
   */
  function LowerChar(c: char): char {
    if 'A' <= c <= 'Z' then (c as int + 32) as char
    else if c == '\U{212A}' then 'k'
    else c
  }

  function Lower(s: string): string {
    seq(|s|, i requires 0 <= i < |s| => LowerChar(s[i]))
  }

  /** Lower-casing twice is lower-casing once. */
  lemma LowerIdempotent(s: string)
    ensures Lower(Lower(s)) == Lower(s)
  {
  }

  /**
   * `from_ext`: the language of the first table entry whose extension is
   * `ext` lower-cased; none when no entry matches.
   */
  function FromExt(ext: string): (r: Option<string>)
    ensures r.None? <==> forall i :: 0 <= i < |EXT_BY_LANG_ID| ==> EXT_BY_LANG_ID[i].0 != Lower(ext)
    ensures r.Some? ==> exists i ::
      && 0 <= i < |EXT_BY_LANG_ID| && EXT_BY_LANG_ID[i] == (Lower(ext), r.value)
      && forall j :: 0 <= j < i ==> EXT_BY_LANG_ID[j].0 != Lower(ext)
  {
    Find(EXT_BY_LANG_ID, Lower(ext))
  }

  /** `from_standard_filename`: the language of the whole name, matched case-sensitively. */
  function FromStandardFilename(filename: string): (r: Option<string>)
    ensures r.None? <==> forall i :: 0 <= i < |FILENAME_BY_LANG_ID| ==> FILENAME_BY_LANG_ID[i].0 != filename
    ensures r.Some? ==> exists i :: 0 <= i < |FILENAME_BY_LANG_ID| && FILENAME_BY_LANG_ID[i] == (filename, r.value)
  {
    Find(FILENAME_BY_LANG_ID, filename)
  }

  /**
   * `lang_id_from_filename`: by extension when the path has one, by the
   * standard name table otherwise.
   */
  function LangIdFromFilename(filename: string): Option<string> {
    match Extension(filename)
    case None => FromStandardFilename(filename)
    case Some(ext) => FromExt(ext)
  }

  /** A name with an extension is looked up by that extension alone, whatever its case. */
  lemma LangIdOfDottedName(stem: string, ext: string)
    requires '/' !in stem && '/' !in ext && '.' !in ext
    requires stem != "" && stem != "."
    ensures LangIdFromFilename(stem + "." + ext) == Find(EXT_BY_LANG_ID, Lower(ext))
    ensures LangIdFromFilename(stem + "." + ext) == LangIdFromFilename(stem + "." + Lower(ext))
  {
    DottedExtension(stem, ext);
    LowerIdempotent(ext);
    assert '/' !in Lower(ext) && '.' !in Lower(ext) by {
      forall k | 0 <= k < |ext| ensures Lower(ext)[k] != '/' && Lower(ext)[k] != '.' {
        assert ext[k] != '/' && ext[k] != '.';
      }
    }
    DottedExtension(stem, Lower(ext));
  }

  /** Every character of `s` is ASCII. */
  predicate Ascii(s: string) {
    forall k :: 0 <= k < |s| ==> s[k] as int < 128
  }

  lemma ExtKeysAscii0()
    ensures forall i :: 0 <= i < 17 ==> Ascii(EXT_BY_LANG_ID[i].0)
  {
  }

  lemma ExtKeysAscii1()
    ensures forall i :: 17 <= i < 34 ==> Ascii(EXT_BY_LANG_ID[i].0)
  {
  }

  lemma ExtKeysAscii2()
    ensures forall i :: 34 <= i < 51 ==> Ascii(EXT_BY_LANG_ID[i].0)
  {
  }

  lemma ExtKeysAscii3()
    ensures forall i :: 51 <= i < 68 ==> Ascii(EXT_BY_LANG_ID[i].0)
  {
  }

  /**
   * An extension holding a non-ASCII character other than the Kelvin sign
   * names no language: every key is ASCII, and lower-casing keeps that
   * character non-ASCII.
   */
  lemma NonAsciiUnrecognised(ext: string, k: nat)
    requires k < |ext| && ext[k] as int >= 128 && ext[k] != '\U{212A}'
    ensures FromExt(ext) == None
  {
    ExtKeysAscii0();
    ExtKeysAscii1();
    ExtKeysAscii2();
    ExtKeysAscii3();
    assert Lower(ext)[k] == ext[k];
    assert !Ascii(Lower(ext));
  }

  /** The Kelvin sign lower-cases to `k`, so a file named `<stem>.\u{212A}t` is a Kotlin file. */
  lemma KelvinSignKotlin(stem: string)
    requires '/' !in stem && stem != "" && stem != "."
    ensures LangIdFromFilename(stem + "." + "\U{212A}t") == Some("kotlin")
  {
    LangIdOfDottedName(stem, "\U{212A}t");
    LowerKelvin();
    KtIsKotlin();
  }

  /** The Kelvin sign lower-cases to `k`. */
  lemma LowerKelvin()
    ensures Lower("\U{212A}t") == "kt"
  {
    assert LowerChar('\U{212A}') == 'k';
  }

  /** The first `kt` entry is Kotlin's. */
  lemma KtIsKotlin()
    ensures Find(EXT_BY_LANG_ID, "kt") == Some("kotlin")
  {
    ExtKeysNotKt0();
    ExtKeysNotKt1();
    assert EXT_BY_LANG_ID[40] == ("kt", "kotlin");
  }

  lemma ExtKeysNotKt0()
    ensures forall j :: 0 <= j < 20 ==> EXT_BY_LANG_ID[j].0 != "kt"
  {
  }

  lemma ExtKeysNotKt1()
    ensures forall j :: 20 <= j < 40 ==> EXT_BY_LANG_ID[j].0 != "kt"
  {
  }

  /** A plain name is looked up in the standard name table as it is. */
  lemma LangIdOfPlainName(name: string)
    requires '/' !in name && '.' !in name
    ensures LangIdFromFilename(name) == Find(FILENAME_BY_LANG_ID, name)
  {
    PlainNameNoExtension(name);
  }

  /** The `jsx` entry at index 35 repeats the one at 34. */
  lemma JsxRepeated()
    ensures EXT_BY_LANG_ID[34] == EXT_BY_LANG_ID[35]
  {
  }

  /** Dropping the repeated `jsx` entry changes no lookup. */
  lemma JsxRepeatHarmless(ext: string)
    ensures FromExt(ext) == Find(EXT_BY_LANG_ID[..35] + EXT_BY_LANG_ID[36..], Lower(ext))
  {
    JsxRepeated();
    FindSkipsRepeat(EXT_BY_LANG_ID, 34, Lower(ext));
  }

  /* ---------- comment styles ---------- */

  function Keys<V>(t: Table<V>): (ks: seq<string>)
    ensures |ks| == |t| && forall i :: 0 <= i < |t| ==> ks[i] == t[i].0
  {
    seq(|t|, i requires 0 <= i < |t| => t[i].0)
  }

  /**
   * `binary_search_by_key` over `t[lo..hi]`: compare the key of the middle
   * entry and keep the half that can hold `key`. On strictly ascending keys
   * the index found is the one entry with that key.
   */
  function BinarySearch<V>(t: Table<V>, key: string, lo: nat, hi: nat): (r: Option<nat>)
    requires lo <= hi <= |t| && StrictlyAscending(Keys(t))
    ensures r.Some? ==> lo <= r.value < hi && t[r.value].0 == key
    ensures r.None? <==> forall i :: lo <= i < hi ==> t[i].0 != key
    decreases hi - lo
  {
    if lo == hi then None
    else
      var mid := lo + (hi - lo) / 2;
      if t[mid].0 == key then Some(mid)
      else if Less(t[mid].0, key) then
        KeysBelow(t, key, lo, mid);
        BinarySearch(t, key, mid + 1, hi)
      else
        LessTotal(t[mid].0, key);
        KeysAbove(t, key, mid, hi);
        BinarySearch(t, key, lo, mid)
  }

  lemma KeysBelow<V>(t: Table<V>, key: string, lo: nat, mid: nat)
    requires lo <= mid < |t| && StrictlyAscending(Keys(t)) && Less(t[mid].0, key)
    ensures forall i :: lo <= i <= mid ==> t[i].0 != key
  {
    forall i | lo <= i <= mid ensures t[i].0 != key {
      if i < mid {
        assert Less(Keys(t)[i], Keys(t)[mid]);
        if t[i].0 == key { LessAsymmetric(key, t[mid].0); }
      } else {
        if t[i].0 == key { LessIrreflexive(key); }
      }
    }
  }

  lemma KeysAbove<V>(t: Table<V>, key: string, mid: nat, hi: nat)
    requires mid < hi <= |t| && StrictlyAscending(Keys(t)) && Less(key, t[mid].0)
    ensures forall i :: mid <= i < hi ==> t[i].0 != key
  {
    forall i | mid <= i < hi ensures t[i].0 != key {
      if mid < i {
        assert Less(Keys(t)[mid], Keys(t)[i]);
        if t[i].0 == key { LessAsymmetric(key, t[mid].0); }
      } else {
        if t[i].0 == key { LessIrreflexive(key); }
      }
    }
  }

  /** On strictly ascending keys the binary search finds what the linear search finds. */
  lemma BinarySearchIsFind<V>(t: Table<V>, key: string)
    requires StrictlyAscending(Keys(t))
    ensures match BinarySearch(t, key, 0, |t|)
      case None => Find(t, key) == None
      case Some(i) => Find(t, key) == Some(t[i].1)
  {
    var b := BinarySearch(t, key, 0, |t|);
    var f := FindIndex(t, key);
    if b.Some? {
      if f.value < b.value {
        assert Less(Keys(t)[f.value], Keys(t)[b.value]);
        LessIrreflexive(key);
      } else if b.value < f.value {
        assert false;
      }
    }
  }

  /** Adjacent keys in order make the whole sequence strictly ascending. */
  lemma {:induction false} AdjacentAscending(xs: seq<string>)
    requires forall i :: 0 <= i < |xs| - 1 ==> Less(xs[i], xs[i + 1])
    ensures StrictlyAscending(xs)
  {
    if |xs| > 1 {
      AdjacentAscending(xs[1..]);
      forall j | 1 < j < |xs| ensures Less(xs[0], xs[j]) {
        assert Less(xs[1..][0], xs[1..][j - 1]);
        LessTransitive(xs[0], xs[1], xs[j]);
      }
    }
  }

  lemma CommentIdsAscending0()
    ensures forall i :: 0 <= i < 7 ==> Less(COMMENTS_BY_LANG_ID[i].0, COMMENTS_BY_LANG_ID[i + 1].0)
  {
  }

  lemma CommentIdsAscending1()
    ensures forall i :: 7 <= i < 14 ==> Less(COMMENTS_BY_LANG_ID[i].0, COMMENTS_BY_LANG_ID[i + 1].0)
  {
  }

  lemma CommentIdsAscending2()
    ensures forall i :: 14 <= i < 21 ==> Less(COMMENTS_BY_LANG_ID[i].0, COMMENTS_BY_LANG_ID[i + 1].0)
  {
  }

  lemma CommentIdsAscending3()
    ensures forall i :: 21 <= i < 28 ==> Less(COMMENTS_BY_LANG_ID[i].0, COMMENTS_BY_LANG_ID[i + 1].0)
  {
  }

  lemma CommentIdsAscending4()
    ensures forall i :: 28 <= i < 35 ==> Less(COMMENTS_BY_LANG_ID[i].0, COMMENTS_BY_LANG_ID[i + 1].0)
  {
  }

  lemma CommentIdsAscending5()
    ensures forall i :: 35 <= i < 42 ==> Less(COMMENTS_BY_LANG_ID[i].0, COMMENTS_BY_LANG_ID[i + 1].0)
  {
  }

  /** The comment table is strictly ascending by id, as `binary_search_by_key` requires. */
  lemma CommentTableAscending()
    ensures StrictlyAscending(Keys(COMMENTS_BY_LANG_ID))
  {
    CommentIdsAscending0();
    CommentIdsAscending1();
    CommentIdsAscending2();
    CommentIdsAscending3();
    CommentIdsAscending4();
    CommentIdsAscending5();
    AdjacentAscending(Keys(COMMENTS_BY_LANG_ID));
  }

  /**
   * `comment_style_from_lang`: the style of the entry whose id is `id`,
   * found by binary search; none when no entry has that id.
   */
  function CommentStyleFromLang(id: string): (r: Option<CommentStyle>)
    ensures r.None? <==> forall i :: 0 <= i < |COMMENTS_BY_LANG_ID| ==> COMMENTS_BY_LANG_ID[i].0 != id
    ensures r.Some? ==> exists i :: 0 <= i < |COMMENTS_BY_LANG_ID| && COMMENTS_BY_LANG_ID[i] == (id, r.value)
  {
    CommentTableAscending();
    match BinarySearch(COMMENTS_BY_LANG_ID, id, 0, |COMMENTS_BY_LANG_ID|)
    case None => None
    case Some(i) => Some(COMMENTS_BY_LANG_ID[i].1)
  }

  /** The binary search over the comment table gives what a first-match search would. */
  lemma CommentStyleIsFirstMatch(id: string)
    ensures CommentStyleFromLang(id) == Find(COMMENTS_BY_LANG_ID, id)
  {
    CommentTableAscending();
    BinarySearchIsFind(COMMENTS_BY_LANG_ID, id);
  }

  lemma ExtKeysNotTxt0()
    ensures forall i :: 0 <= i < 17 ==> EXT_BY_LANG_ID[i].0 != "txt"
  {
  }

  lemma ExtKeysNotTxt1()
    ensures forall i :: 17 <= i < 34 ==> EXT_BY_LANG_ID[i].0 != "txt"
  {
  }

  lemma ExtKeysNotTxt2()
    ensures forall i :: 34 <= i < 51 ==> EXT_BY_LANG_ID[i].0 != "txt"
  {
  }

  lemma ExtKeysNotTxt3()
    ensures forall i :: 51 <= i < 68 ==> EXT_BY_LANG_ID[i].0 != "txt"
  {
  }

  /** No extension entry is `txt`. */
  lemma NoTxtEntry()
    ensures FromExt("txt") == None
  {
    ExtKeysNotTxt0();
    ExtKeysNotTxt1();
    ExtKeysNotTxt2();
    ExtKeysNotTxt3();
    assert Lower("txt") == "txt";
  }

  /**
   * `CMakeLists.txt` is in the standard name table, but it has the extension
   * `txt`, so it is looked up by that extension alone, which no entry has:
   * the name is not recognised and its table entry is never used.
   */
  lemma CMakeListsUnrecognised()
    ensures FILENAME_BY_LANG_ID[1] == ("CMakeLists.txt", "cmake")
    ensures LangIdFromFilename("CMakeLists.txt") == None
  {
    DottedExtension("CMakeLists", "txt");
    assert "CMakeLists" + "." + "txt" == "CMakeLists.txt";
    NoTxtEntry();
  }

  /** The lookup evidently intended: a standard name is recognised whether or not it has an extension. */
  function LangIdFromFilenameIntended(filename: string): Option<string> {
    match FromStandardFilename(filename)
    case Some(id) => Some(id)
    case None => LangIdFromFilename(filename)
  }

  /** Every standard name gets the language of its entry. */
  lemma IntendedRecognisesStandardNames(i: nat)
    requires i < |FILENAME_BY_LANG_ID|
    ensures LangIdFromFilenameIntended(FILENAME_BY_LANG_ID[i].0) == Some(FILENAME_BY_LANG_ID[i].1)
  {
    assert FILENAME_BY_LANG_ID[0].0 != FILENAME_BY_LANG_ID[1].0;
  }

  /** Every other name is looked up as before. */
  lemma IntendedAgreesElsewhere(filename: string)
    requires forall i :: 0 <= i < |FILENAME_BY_LANG_ID| ==> FILENAME_BY_LANG_ID[i].0 != filename
    ensures LangIdFromFilenameIntended(filename) == LangIdFromFilename(filename)
  {
  }

  /** In particular `CMakeLists.txt` is now a CMake file. */
  lemma IntendedCMakeLists()
    ensures LangIdFromFilenameIntended("CMakeLists.txt") == Some("cmake")
  {
    IntendedRecognisesStandardNames(1);
  }
}
