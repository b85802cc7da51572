/**
 The choice of input format by file name (`readInputFile` in main.go), as
 written and as intended, and the reading of the input through the given
 file system and Markdown renderer.
 */
module Loader {
  import opened GoStrings

  datatype Format = Markdown | Html | Unsupported

  /** A computation that can fail with a message. */
  datatype Outcome<T> = Ok(value: T) | Fail(message: string)

  /** The message the program stops with for an unsupported name (the
      source's wording, "either and md", kept). The two pieces only keep
      each literal short for the verifier. */
  const UnsupportedFormat: string :=
    "File format not supported. Try again " + "using either and md or html file!"

  predicate EndsWith(s: string, suffix: string) {
    |suffix| <= |s| && s[|s| - |suffix|..] == suffix
  }

  /** The index of the first `.` of a name that has one. */
  function FirstDot(name: string): (i: nat)
    requires '.' in name
    ensures i < |name| && name[i] == '.' && '.' !in name[..i]
    decreases |name|
  {
    if name[0] == '.' then 0
    else
      var j := FirstDot(name[1..]);
      assert name[..j + 1] == [name[0]] + name[1..][..j];
      j + 1
  }

  /** What follows the first `.` of the name starts with the word `w`, which
      runs up to the end of the name or up to a further `.`. */
  predicate FieldAfterFirstDot(name: string, w: string)
    requires '.' in name
  {
    var after := name[FirstDot(name) + 1..];
    after == w || (|w| < |after| && after[..|w|] == w && after[|w|] == '.')
  }

  /** The second piece of a split at `.` is the field after the first `.`. */
  lemma SecondPieceField(name: string, w: string)
    requires '.' in name && '.' !in w
    ensures |SplitOn(name, '.')| >= 2
    ensures SplitOn(name, '.')[1] == w <==> FieldAfterFirstDot(name, w)
  {
    var i := FirstDot(name);
    var stem, after := name[..i], name[i + 1..];
    assert name == stem + ['.'] + after;
    SplitOnAfterPiece(stem, '.', after);
    FirstPieceIs(after, w);
  }

  /** The first piece of a split at `.` is `w` exactly when the text starts
      with `w` followed by its end or by a `.`. */
  lemma FirstPieceIs(after: string, w: string)
    requires '.' !in w
    ensures SplitOn(after, '.')[0] == w
        <==> after == w || (|w| < |after| && after[..|w|] == w && after[|w|] == '.')
  {
    var p := SplitOn(after, '.')[0];
    if p == w {
      SplitOnFirst(after, '.');
      if |p| == |after| {
        assert after == after[..|p|];
      }
    }
    if after == w {
      SplitOnNoSeparator(after, '.');
    } else if |w| < |after| && after[..|w|] == w && after[|w|] == '.' {
      FieldShape(after, w);
      SplitOnAfterPiece(w, '.', after[|w| + 1..]);
    }
  }

  lemma FieldShape(after: string, w: string)
    requires |w| < |after| && after[..|w|] == w && after[|w|] == '.'
    ensures after == w + ['.'] + after[|w| + 1..]
  {
    assert after[|w|..] == ['.'] + after[|w| + 1..];
    assert after == after[..|w|] + after[|w|..];
  }

  /** The format test as written: the name is split at every `.` and the
      second piece decides, so it is the field after the FIRST `.` that
      counts. A name without any `.` makes the index out of range, which
      the program does not survive; so it is required here. */
  function FormatAsWritten(name: string): (fmt: Format)
    requires '.' in name
    ensures fmt == Markdown <==> FieldAfterFirstDot(name, "md")
    ensures fmt == Html <==> FieldAfterFirstDot(name, "html")
  {
    SplitOnSeparator(name, '.');
    SecondPieceField(name, "md");
    SecondPieceField(name, "html");
    var second := SplitOn(name, '.')[1];
    if second == "md" then Markdown
    else if second == "html" then Html
    else Unsupported
  }

  /** What follows the last `.` of a name (the whole name when it has none). */
  function Extension(name: string): (ext: string)
    ensures '.' !in ext
    ensures |ext| <= |name| && name[|name| - |ext|..] == ext
    ensures |ext| < |name| ==> name[|name| - |ext| - 1] == '.'
    decreases |name|
  {
    if |name| == 0 then ""
    else if name[|name| - 1] == '.' then ""
    else
      var init := name[..|name| - 1];
      var e := Extension(init);
      assert name[|name| - |e| - 1..] == init[|init| - |e|..] + [name[|name| - 1]];
      e + [name[|name| - 1]]
  }

  lemma {:induction false} ExtensionAfterDot(p: string, e: string)
    requires '.' !in e
    ensures Extension(p + "." + e) == e
    decreases |e|
  {
    var s := p + "." + e;
    if |e| == 0 {
      assert s[|s| - 1] == '.';
    } else {
      var init := e[..|e| - 1];
      assert s[..|s| - 1] == p + "." + init;
      assert s[|s| - 1] == e[|e| - 1];
      ExtensionAfterDot(p, init);
      assert init + [e[|e| - 1]] == e;
    }
  }

  /** A name has extension `e` after a `.` exactly when it ends with `.e`. */
  lemma ExtensionIs(name: string, e: string)
    requires '.' !in e
    ensures ('.' in name && Extension(name) == e) <==> EndsWith(name, "." + e)
  {
    if '.' in name && Extension(name) == e {
      assert name[|name| - |e| - 1..] == "." + e;
    }
    if EndsWith(name, "." + e) {
      var p := name[..|name| - |e| - 1];
      assert name == p + "." + e;
      assert name[|p|] == '.';
      ExtensionAfterDot(p, e);
    }
  }

  /** The format by the name's extension: Markdown exactly for a name ending
      in `.md`, HTML exactly for one ending in `.html`, and unsupported
      otherwise. */
  function InputFormat(name: string): (fmt: Format)
    ensures fmt == Markdown <==> EndsWith(name, ".md")
    ensures fmt == Html <==> EndsWith(name, ".html")
  {
    ExtensionIs(name, "md");
    ExtensionIs(name, "html");
    if '.' !in name then Unsupported
    else
      var ext := Extension(name);
      if ext == "md" then Markdown
      else if ext == "html" then Html
      else Unsupported
  }

  /** With a single `.` in the name the test as written and the intended one
      agree. */
  lemma AsWrittenSingleDot(stem: string, ext: string)
    requires '.' !in stem && '.' !in ext
    ensures FormatAsWritten(stem + "." + ext) == InputFormat(stem + "." + ext)
  {
    var name := stem + "." + ext;
    assert name == stem + ['.'] + ext;
    SplitOnAfterPiece(stem, '.', ext);
    SplitOnNoSeparator(ext, '.');
    ExtensionAfterDot(stem, ext);
    assert name[|stem|] == '.';
  }

  /** A Markdown file named relative to the current directory is refused by
      the test as written. */
  lemma AsWrittenRefusesDotSlash()
    ensures FormatAsWritten("./tutorial.md") == Unsupported
    ensures InputFormat("./tutorial.md") == Markdown
  {
    var name := "./tutorial.md";
    assert name[1..] == "/tutorial" + ['.'] + "md";
    SplitOnAfterPiece("/tutorial", '.', "md");
    SplitOnNoSeparator("md", '.');
    assert EndsWith(name, ".md");
  }

  /** So is a Markdown file with a second `.` in its name. */
  lemma AsWrittenRefusesVersionedName()
    ensures FormatAsWritten("guide.v2.md") == Unsupported
    ensures InputFormat("guide.v2.md") == Markdown
  {
    var name := "guide.v2.md";
    assert name == "guide" + ['.'] + ("v2" + ['.'] + "md");
    SplitOnAfterPiece("guide", '.', "v2" + ['.'] + "md");
    SplitOnAfterPiece("v2", '.', "md");
    SplitOnNoSeparator("md", '.');
    assert EndsWith(name, ".md");
  }

  /** The Go runtime's message for the out-of-range index that a name
      without a `.` runs into. */
  const IndexOutOfRange: string := "runtime error: index out of range [1] with length 1"

  /** Reading the input once its format is known: a Markdown file is read
      and rendered to HTML, an HTML file is read as is, and any other format
      stops the program. `read` and `render` stand for the file system and
      the Markdown renderer. */
  function ReadAs(fmt: Format, name: string, read: string -> Outcome<string>, render: string -> Outcome<string>)
    : (r: Outcome<string>)
    ensures r.Ok? ==> fmt != Unsupported && read(name).Ok?
    ensures fmt == Unsupported ==> r == Fail(UnsupportedFormat)
    ensures fmt == Html ==> r == read(name)
    ensures fmt == Markdown ==> r == (if read(name).Ok? then render(read(name).value) else read(name))
  {
    match fmt
    case Markdown =>
      var contents := read(name);
      if contents.Fail? then contents else render(contents.value)
    case Html => read(name)
    case Unsupported => Fail(UnsupportedFormat)
  }

  /** `readInputFile` as written: the field after the first `.` decides; a
      name without `.` fails with the runtime's out-of-range message. */
  function ReadInputFile(name: string, read: string -> Outcome<string>, render: string -> Outcome<string>)
    : (r: Outcome<string>)
    ensures '.' !in name ==> r == Fail(IndexOutOfRange)
    ensures r.Ok? ==> '.' in name && (FieldAfterFirstDot(name, "md") || FieldAfterFirstDot(name, "html"))
    ensures '.' in name && !FieldAfterFirstDot(name, "md") && !FieldAfterFirstDot(name, "html")
            ==> r == Fail(UnsupportedFormat)
    ensures '.' in name && FieldAfterFirstDot(name, "html") ==> r == read(name)
    ensures '.' in name && FieldAfterFirstDot(name, "md")
            ==> r == (if read(name).Ok? then render(read(name).value) else read(name))
  {
    if '.' !in name then Fail(IndexOutOfRange)
    else ReadAs(FormatAsWritten(name), name, read, render)
  }

  /** `readInputFile` with the intended format test, the name's last
      extension: a Markdown file ends in `.md`, an HTML file in `.html`, and
      every other name, one without `.` included, is unsupported. */
  function ReadInputFileIntended(name: string, read: string -> Outcome<string>, render: string -> Outcome<string>)
    : (r: Outcome<string>)
    ensures r.Ok? ==> EndsWith(name, ".md") || EndsWith(name, ".html")
    ensures !EndsWith(name, ".md") && !EndsWith(name, ".html") ==> r == Fail(UnsupportedFormat)
    ensures EndsWith(name, ".html") ==> r == read(name)
    ensures EndsWith(name, ".md") ==> r == (if read(name).Ok? then render(read(name).value) else read(name))
  {
    ReadAs(InputFormat(name), name, read, render)
  }
}
