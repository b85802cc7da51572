/**
 The whole conversion (`convertTutorialIntoBashScript` and
 `getCommandsAndActions` in main.go): choose the input format, obtain the
 HTML, parse it, select and reduce the nodes of the body, and lay out the
 script. Reading files, rendering Markdown and parsing HTML are given
 functions.
 */
module Pipeline {
  import opened Annotations
  import opened Document
  import opened Extraction
  import opened Emitter
  import opened Loader

  /** The script lines for a document whose body is `body`. */
  function Script(body: Node, f: Filters): seq<string> {
    var sel := Select(body);
    ScriptLines(Final(sel, f, Init).variables, Emitted(Run(sel, f, Init)))
  }

  /** The guards in the script are exactly those of the `var` comments among
      the selected nodes, in document order, whatever the other annotations
      did; the statements follow them. */
  lemma ScriptGuards(body: Node, f: Filters)
    ensures Script(body, f)
         == Preamble + Spaced(Guards(Select(body), f)) + Spaced(Emitted(Run(Select(body), f, Init)))
  {
    var sel := Select(body);
    FinalVariables(sel, f, Init);
    assert Init.variables + Guards(sel, f) == Guards(sel, f);
  }

  /** The conversion once the HTML is obtained: it fails exactly when
      obtaining or parsing the HTML fails, passing the message on, and
      otherwise yields the script of the parsed body. */
  method ConvertHtml(html: Outcome<string>, f: Filters, parse: string -> Outcome<Node>)
    returns (r: Outcome<seq<string>>)
    ensures r.Ok? <==> html.Ok? && parse(html.value).Ok?
    ensures r.Ok? ==> r.value == Script(parse(html.value).value, f)
    ensures html.Fail? ==> r == Fail(html.message)
    ensures html.Ok? && parse(html.value).Fail? ==> r == Fail(parse(html.value).message)
  {
    if html.Fail? {
      return Fail(html.message);
    }
    var doc := parse(html.value);
    if doc.Fail? {
      return Fail(doc.message);
    }
    var commands, final := GetCommandsAndActions(doc.value, f);
    var lines := GenerateBashScript(final.variables, commands);
    return Ok(lines);
  }

  /** `convertTutorialIntoBashScript` up to the written lines, with the
      format test as written: it fails exactly when reading the input or
      parsing it fails, and otherwise yields the script of the parsed body;
      a name without `.` fails with the runtime's out-of-range message, and
      one whose field after the first `.` is neither `md` nor `html` with
      the unsupported-format message. */
  method ConvertTutorial(name: string, f: Filters, read: string -> Outcome<string>,
                         render: string -> Outcome<string>, parse: string -> Outcome<Node>)
    returns (r: Outcome<seq<string>>)
    ensures var html := ReadInputFile(name, read, render);
            r.Ok? <==> html.Ok? && parse(html.value).Ok?
    ensures var html := ReadInputFile(name, read, render);
            r.Ok? ==> r.value == Script(parse(html.value).value, f)
    ensures '.' !in name ==> r == Fail(IndexOutOfRange)
    ensures '.' in name && !FieldAfterFirstDot(name, "md") && !FieldAfterFirstDot(name, "html")
            ==> r == Fail(UnsupportedFormat)
  {
    r := ConvertHtml(ReadInputFile(name, read, render), f, parse);
  }

  /** The same conversion with the intended format test: a name that ends
      in neither `.md` nor `.html` fails with the unsupported-format
      message. */
  method ConvertTutorialIntended(name: string, f: Filters, read: string -> Outcome<string>,
                                 render: string -> Outcome<string>, parse: string -> Outcome<Node>)
    returns (r: Outcome<seq<string>>)
    ensures var html := ReadInputFileIntended(name, read, render);
            r.Ok? <==> html.Ok? && parse(html.value).Ok?
    ensures var html := ReadInputFileIntended(name, read, render);
            r.Ok? ==> r.value == Script(parse(html.value).value, f)
    ensures !EndsWith(name, ".md") && !EndsWith(name, ".html") ==> r == Fail(UnsupportedFormat)
  {
    r := ConvertHtml(ReadInputFileIntended(name, read, render), f, parse);
  }
}
