/**
 * The syntax-highlighting language of a result, chosen from its file name's
 * extension (`getLanguage` in the upload component).
 */
module Language {
  import opened JsonValue

  /** The extension table; every key not listed gives "text". */
  const Languages: map<string, string> := map[
    "js" := "javascript", "jsx" := "javascript", "ts" := "javascript", "tsx" := "javascript",
    "py" := "python",
    "html" := "html", "htm" := "html",
    "css" := "css",
    "json" := "json",
    "xml" := "xml",
    "yaml" := "yaml", "yml" := "yaml", "yml.tmpl" := "yaml",
    "md" := "markdown",
    "sh" := "bash", "bash" := "bash",
    "c" := "c",
    "cpp" := "cpp", "cxx" := "cpp",
    "java" := "java",
    "php" := "php", "phtml" := "php",
    "rb" := "ruby",
    "go" := "go",
    "rs" := "rust",
    "swift" := "swift",
    "kt" := "kotlin", "kts" := "kotlin",
    "sql" := "sql",
    "txt" := "text",
    "asm" := "nasm"
  ]

  /**
   * The last piece of the name split at dots: the text after the last dot, or the whole string
   * when it has none.
   */
  function LastSegment(s: string): (seg: string)
    ensures '.' !in seg
    ensures EndsWith(s, seg)
    ensures |seg| < |s| ==> s[|s| - |seg| - 1] == '.'
  {
    if s == [] || s[|s| - 1] == '.' then []
    else LastSegment(s[..|s| - 1]) + [s[|s| - 1]]
  }

  /** The lookup key: the last segment, lower-cased. */
  function ExtensionKey(filename: string): (key: string)
    ensures '.' !in key
  {
    var seg := LastSegment(filename);
    assert forall i :: 0 <= i < |seg| ==> LowerChar(seg[i]) != '.';
    Lower(seg)
  }

  /** The language tag for a file name; defined for every string, and always one the table can give. */
  function LanguageOf(filename: string): (lang: string)
    ensures lang in Languages.Values
  {
    assert Languages["txt"] == "text";
    var key := ExtensionKey(filename);
    if key in Languages then Languages[key] else "text"
  }

  /** The language is the table's entry for the key, and "text" (itself a table value) otherwise. */
  lemma LanguageFromTable(filename: string)
    ensures ExtensionKey(filename) in Languages ==> LanguageOf(filename) == Languages[ExtensionKey(filename)]
    ensures ExtensionKey(filename) !in Languages ==> LanguageOf(filename) == "text"
    ensures LanguageOf(filename) in Languages.Values
  {
    assert Languages["txt"] == "text";
  }

  /** The key never holds a dot, so the "yml.tmpl" entry is never chosen. */
  lemma YmlTmplUnreachable(filename: string)
    ensures ExtensionKey(filename) != "yml.tmpl"
  {
    assert "yml.tmpl"[3] == '.';
  }

  /** A name without a dot is looked up whole. */
  lemma NoDotWholeName(filename: string)
    requires '.' !in filename
    ensures ExtensionKey(filename) == Lower(filename)
    ensures LanguageOf(filename) == if Lower(filename) in Languages then Languages[Lower(filename)] else "text"
  {
  }

  lemma ExampleRust()
    ensures LanguageOf("main.rs") == "rust"
  {
    assert LastSegment("main.rs") == "rs";
    assert ExtensionKey("main.rs") == "rs";
    assert Languages["rs"] == "rust";
  }

  lemma ExampleNoExtension()
    ensures LanguageOf("README") == "text"
  {
    NoDotWholeName("README");
    ReadmeLowered();
    ReadmeUnlisted();
  }

  lemma ReadmeLowered()
    ensures Lower("README") == "readme"
  {
  }

  lemma ReadmeUnlisted()
    ensures "readme" !in Languages
  {
  }

  lemma ExampleLastDotOnly()
    ensures LanguageOf("archive.tar.gz") == "text"
  {
    assert LastSegment("archive.tar.gz") == "gz";
  }

  /** Upper case is folded. */
  lemma ExampleUpperCase()
    ensures LanguageOf("Main.KT") == "kotlin"
  {
    assert LastSegment("Main.KT") == "KT";
    assert ExtensionKey("Main.KT") == "kt";
  }

  /** So is the Kelvin sign, which lowers to "k": it names the same language as "KT". */
  lemma ExampleKelvinSign()
    ensures LanguageOf("Main.\U{212A}T") == LanguageOf("Main.KT") == "kotlin"
  {
    KelvinKey();
    ExampleUpperCase();
  }

  lemma KelvinKey()
    ensures ExtensionKey("Main.\U{212A}T") == "kt"
  {
    assert LastSegment("Main.\U{212A}T") == "\U{212A}T";
  }
}
