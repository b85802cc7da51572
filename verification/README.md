# Tutorial-to-script conversion, modelled in Dafny

The program turns a Markdown (or HTML) tutorial into a bash script. It
renders the Markdown to HTML and walks the HTML tree. It keeps the code
blocks, the HTML comments and the `h1`–`h3` headings. Then it reduces them
to shell statements:

- a heading becomes a four-line `echo` banner;
- a comment is an annotation: `command`, `debug`, `bash <cmd>`, `var <NAME>`, or plain documentation;
- a code block becomes a statement only when a `command` (or `debug`) annotation is pending.

`var` annotations declare guards that abort the script when an environment
variable is unset. The script is a fixed preamble, then the guards, then
the statements, each followed by a blank line.

The model follows `main.go` module by module:

- `GoStrings` (strings.dfy): the Go string operations the program relies on. These are `strings.Contains`, `strings.Replace(s, pat, "", -1)` as a leftmost, non-overlapping deletion, `strings.TrimSpace` with Go's `unicode.IsSpace`, and `strings.Join`/`strings.Split` on a single character.
- `Document` (document.dfy): the HTML tree, `tagsToRead`, `sliceContains` and the selection walk `visitNodes`.
- `Annotations` (annotations.dfy): `processComment` and `processCode`. The package-level `command`, `debug` and `variables` are threaded explicitly as a `State` value, starting from `Init = State(false, false, [])` for each run.
- `Extraction` (extraction.dfy): `processData`, the per-node dispatch folded over the selection, and `getCommandsAndActions` after parsing.
- `Emitter` (emitter.dfy): the entries `generateBashScript` writes, one per `Fprintln`.
- `Loader` (loader.dfy): the input-format test of `readInputFile`, as written and as intended.
- `Pipeline` (pipeline.dfy): `convertTutorialIntoBashScript`.
- `Scenarios` (scenarios.dfy): the expectations of `main_test.go`, derived for the model.

Reading the input file, rendering Markdown and parsing HTML are parameters
(`read`, `render`, `parse`). So are the bluemonday strict sanitizer and
`html.UnescapeString` (the `Filters` datatype). Writing the script file is
left out: the model yields the entries that would be written, one per
`Fprintln`. The model starts
from an already-built node tree.

## Model

| member | source | states |
|---|---|---|
| GoStrings.ContainsOccurrence | main.go:199 | `strings.Contains` holds exactly when the pattern occurs at some index of the text |
| GoStrings.RemoveAll | main.go:192-193 | `strings.Replace(s, pat, "", -1)` never lengthens the text |
| GoStrings.RemoveAllUnchanged | main.go:192-193 | the deletion leaves the text as it is exactly when the pattern does not occur in it, and otherwise makes it strictly shorter |
| GoStrings.TrimSpace | main.go:194 | `strings.TrimSpace` leaves no leading or trailing space, and leaves a text unchanged exactly when it has none |
| GoStrings.TrimSpaceCut | main.go:194 | the trim is the slice of the text between a run of leading spaces and a run of trailing spaces, with a non-space character at each end of the slice |
| GoStrings.TrimSpaceUnique | main.go:194 | any slice that cuts away exactly the leading and trailing spaces is the trim |
| GoStrings.SplitJoinLines | main.go:178 | splitting lines joined by `strings.Join(xs, "\n")` at the line feeds gives the lines back, when no line holds a line feed |
| Document.SliceContains | main.go:279-286 | the search answers true exactly when the value is one of the slice's entries |
| Document.VisitChildrenIsOutermost | main.go:234-244 | walking a run of siblings appends to `dst` exactly the nodes a full pre-order traversal meets with a kept name and no kept ancestor, in traversal order |
| Document.SelectIsOutermost | main.go:24-30 | the selection under the document body is the pre-order list of nodes named `code`, `#comment`, `h1`, `h2` or `h3` that have no such ancestor: a kept node is never descended into, every other node is searched |
| Document.VisitNodesAppends | main.go:234-244 | the walk keeps what `dst` held in front, and every node it appends has a kept name |
| Document.OutermostSelectable | main.go:236-237 | every node of the reference selection has a kept name |
| Annotations.ApplyAnnotation | main.go:196-216 | a comment never clears a pending flag, and only a `command` body (raising `command`) or a `debug` body (raising both) raises one; only a `bash` body emits, and then the state is unchanged; the guards grow by exactly the body's own guard (one for a `var` body, none otherwise); `debug ⇒ command` is preserved |
| Annotations.ProcessComment | main.go:191-217 | the same facts for a raw comment, stated on its body after both delimiters are deleted and the text trimmed: a pending `command` or `debug` is never cleared, only a `command` or `debug` body raises a flag, consistency is kept, only a body holding `bash` emits (and then leaves the state alone), and the guards grow by exactly the body's own guard |
| Annotations.ProcessCode | main.go:219-232 | after a code block no command is pending; `debug` survives only if it was pending without `command`; the guards are untouched; nothing is emitted exactly when no command was pending, or a plain command's code trims to nothing |
| Annotations.CommentCommand | main.go:197-198 | the body `command` sets `command`, leaves `debug` and the guards alone, and emits nothing |
| Annotations.CommentDebug | main.go:203-205 | the body `debug` sets both flags, leaves the guards alone, and emits nothing |
| Annotations.CommentBash | main.go:199-202 | a body other than `command` that contains `bash` emits itself with every `bash` deleted and trimmed, and leaves the state alone; the result has no outer space |
| Annotations.CommentVar | main.go:206-213 | a `var` body that is no earlier annotation emits nothing and appends exactly one guard for the body with `var` deleted and trimmed, with no deduplication; the flags are unchanged |
| Annotations.CommentOther | main.go:216 | any other body emits nothing and changes nothing |
| Annotations.CodeCases | main.go:222-231 | the three code cases: wrapped in the `$DEBUG` test and both flags reset; emitted trimmed and `command` reset; dropped with the state unchanged |
| Annotations.CommandReleasesOneCode | main.go:226-229 | from any state, after one `command` annotation the first of two code blocks is emitted (wrapped in the `$DEBUG` test when a `debug` was already pending) and the second is dropped, leaving both flags lowered and the guards unchanged |
| Annotations.DebugReleasesOneCode | main.go:222-225 | after one `debug` annotation, the first code block is wrapped in the `$DEBUG` test and the second is dropped |
| Annotations.VarGuardLines | main.go:210 | for a one-line name, the guard is the four-line `if [ -z "$NAME" ]` block naming the variable twice |
| Annotations.DebugGuardLines | main.go:225 | for one-line code, the debug wrapper is the three-line `if [ "$DEBUG" = "true" ]` block around the code |
| Extraction.ProcessNode | main.go:155-181 | one node's step preserves `debug ⇒ command`; only a comment can raise a flag and only a code block can lower one; the guards grow by the node's own guard |
| Extraction.RunSteps | main.go:146 | step i of the fold processes node i in the state step i-1 left, and step 0 starts from the initial state |
| Extraction.RunLast | main.go:146 | the state after the fold is the state the last step left |
| Extraction.NoAnnotationNoCode | main.go:191-231 | along a run that starts with no flag pending and meets no `command` or `debug` comment, no flag is ever raised and every code block yields nothing |
| Extraction.RunConsistent | main.go:203-205 | from a state with `debug ⇒ command`, every step of the fold and its final state keep `debug ⇒ command` |
| Extraction.FinalVariables | main.go:212 | the guards after a run are the starting ones followed by one per `var` comment among the nodes, in node order, whatever the flags did |
| Extraction.Emitted | main.go:183-185 | no statement is empty, and there are never more statements than nodes |
| Extraction.SourcesPick | main.go:183-185 | the k-th statement is the result of the node at the k-th source position |
| Extraction.SourcesIncreasing | main.go:146 | the source positions strictly increase: statements keep the order of the nodes that produced them |
| Extraction.SourcesComplete | main.go:183-185 | every node with a non-empty result is a source: only empty results are dropped |
| Extraction.HeadingStep | main.go:165-178 | any heading neither reads nor changes the state, and yields the 69-dash rule, `echo "<text>"`, the rule and `echo ""`, joined by line feeds |
| Extraction.HeadingLines | main.go:165-178 | when the heading's filtered text holds no line feed, splitting its output at the line feeds gives back exactly those four lines |
| Extraction.OtherStep | main.go:179-180 | a node of any other name contributes nothing and changes nothing |
| Extraction.ProcessData | main.go:142-189 | the loop computes the statements of the fold from the initial state and the state it leaves; no statement is empty; the final state keeps `debug ⇒ command`; its guards are exactly those of the `var` comments |
| Extraction.GetCommandsAndActions | main.go:130-137 | the statements are those of the fold over the selection of the body |
| Emitter.SpacedAt | main.go:261-268 | entry k sits at entry 2k and entry 2k+1 is blank |
| Emitter.GenerateBashScript | main.go:253-269 | the writing loops produce the preamble, then each guard and a blank line, then each statement and a blank line |
| Emitter.ScriptLayout | main.go:254-269 | counted in entries (one `Fprintln` each, which for a guard or a heading banner holds several lines): the script has 4 + 2·guards + 2·statements entries; the preamble comes first; guard k is entry 4+2k and statement k entry 4+2m+2k for m guards, each followed by a blank entry; so every guard precedes every statement |
| Loader.FormatAsWritten | main.go:80-91 | the test as the lines write it: for a name with a `.`, Markdown exactly when the field after the FIRST `.` (up to the end or the next `.`) is `md`, HTML exactly when it is `html` |
| Loader.SecondPieceField | main.go:80 | the second piece of `strings.Split(name, ".")` is `w` exactly when the field after the first `.` is `w` |
| Loader.ExtensionIs | main.go:80 | for the intended, corrected classifier (not what the line does): a name has extension `e` after a `.` exactly when it ends in `.e` |
| Loader.InputFormat | main.go:80-100 | the intended, corrected classifier (not what the lines do): Markdown exactly for names ending in `.md`, HTML exactly for names ending in `.html`, unsupported otherwise |
| Loader.AsWrittenSingleDot | main.go:80-91 | with a single `.` in the name, the test on the second `.`-separated piece agrees with the test on the extension |
| Loader.AsWrittenRefusesDotSlash | main.go:80-99 | the test as written refuses `./tutorial.md`, a Markdown file by its extension |
| Loader.AsWrittenRefusesVersionedName | main.go:80-99 | the test as written refuses `guide.v2.md`, a Markdown file by its extension |
| Loader.ReadAs | main.go:80-100 | once the format is known: a Markdown file is read and rendered, an HTML file is read as is, success needs a successful read, and an unsupported format fails with the unsupported-format message |
| Loader.ReadInputFile | main.go:77-103 | as written: a name without `.` fails with the runtime's index-out-of-range message; a name whose field after the first `.` is `md` is read and rendered, one whose field is `html` is read as is, a read or render failure is passed on, and any other name fails with the unsupported-format message |
| Loader.ReadInputFileIntended | main.go:77-103 | the same with the corrected classifier: names ending in `.md` are read and rendered, names ending in `.html` are read as is, and every other name fails with the unsupported-format message |
| Pipeline.ScriptGuards | main.go:246-269 | the script holds the preamble, then exactly the guards of the selected `var` comments in document order, then the statements |
| Pipeline.ConvertHtml | main.go:58-75 | once the HTML is obtained, the conversion fails exactly when obtaining or parsing it failed, passing the message on, and otherwise yields the script of the parsed body |
| Pipeline.ConvertTutorial | main.go:56-75 | with the format test as written, the conversion fails exactly when reading or parsing fails and otherwise yields the script of the parsed body; a name without `.` fails with the index-out-of-range message, and one whose field after the first `.` is neither `md` nor `html` fails with the unsupported-format message |
| Pipeline.ConvertTutorialIntended | main.go:56-75 | the same with the corrected format test: a name ending in neither `.md` nor `.html` fails with the unsupported-format message |
| Scenarios.CommandComment | main.go:191-198 | `<!-- command -->` sets `command` and emits nothing |
| Scenarios.BashComment | main.go:191-202 | `<!--`, spaces, `bash`, spaces, CMD, spaces, `-->` emits CMD and leaves the state alone, for any non-empty trimmed CMD that does not contain `bash` and holds no `<` or `-` |
| Scenarios.VarComment | main.go:206-213 | the same layout around `var NAME` emits nothing and appends the guard for NAME, for any non-empty trimmed NAME that contains neither `bash` nor `var` and holds no `<` or `-` |
| Scenarios.DocumentationComment | main.go:191-216 | a comment whose trimmed body is neither `command` nor `debug`, contains neither `bash` nor `var`, and holds no `<` or `-`, emits nothing and changes nothing |
| Scenarios.BashBlock | main.go:191-202 | `<!-- bash`, a line feed, CMD, a line feed and `-->` emits CMD, under the conditions of `BashComment` |
| Scenarios.CaseEchoTest | main_test.go:57 | `<!-- bash echo test -->` yields `echo test` |
| Scenarios.CaseGetPods | main_test.go:58 | `<!-- bash kubectl get pods -->` yields `kubectl get pods` (the `b` of `kubectl` is no `bash`) |
| Scenarios.CaseWaitFor | main_test.go:59 | `<!-- bash wait_for_deployment_with_image_in_namespace -->` yields the command |
| Scenarios.CaseTenant | main_test.go:60 | `<!-- var DT_TENANT -->` yields nothing and declares the `DT_TENANT` guard |
| Scenarios.CaseApiToken | main_test.go:61 | `<!-- var DT_API_TOKEN -->` yields nothing and declares the `DT_API_TOKEN` guard |
| Scenarios.SampleTutorial | main_test.go:11-22 | from a state with no flag pending, the seven nodes of the sample tutorial give `kubectl get ns`, the two-line `echo "Hello World!"` block, and `kubectl get ns` again, and declare one guard, for `DT_TENANT` |
| Scenarios.SampleTutorialFromInit | main_test.go:37-48 | the same from the initial state: the expected commands, and exactly the `DT_TENANT` guard |

## Left out

- The command line (`main`, main.go:32-54): flag parsing, the default output name and the usage message are I/O plumbing.
- Files and output (main.go:81, 92, 247-276). Reading is the `read` parameter. `os.Create`, the buffered writer, `os.Chmod` and `Flush` are side effects, so only the written entries are modelled, one per `Fprintln`; an entry can hold several lines (a guard, a heading banner, a multi-line command). The line feed after each entry is implied by the sequence. Failures of `os.Create`, `os.Chmod` and `Flush` (main.go:247-250, 271-276) are not outcomes of the model, so "fails exactly when reading or parsing fails" in the Pipeline rows speaks of the conversion up to the written entries, not of the program's exit status.
- Markdown rendering with goldmark (main.go:105-121) is the `render` parameter. HTML parsing with goquery and finding the body (main.go:124-131) is the `parse` parameter.
- bluemonday's strict policy and `html.UnescapeString` (main.go:153, 158, 161-162, 166-167) are the uninterpreted `Filters` functions. The scenarios state what the filters must return for their nodes.
- `goquery.OuterHtml` failing (main.go:149-151) is not modelled: a node's text is its outer HTML.
- Deduplication in goquery's `AddSelection` is not modelled, because a node is never met twice in the walk.
- The diagnostic `Println` of the unreachable `default` branch (main.go:180) is not modelled.
- The leak of the package-level state across calls (main.go:20-22) is not modelled: every run starts from `Init`.
- Loader.ReadInputFile: an unsupported name stops the whole process in the source (`log.Fatal`, main.go:99). Here it is a `Fail` outcome carrying the same message. A name without `.` makes the source panic on the index at main.go:80. Here that is a `Fail` carrying the Go runtime's index-out-of-range message.
- Loader.FormatAsWritten requires a `.` in the name, because without one the source's index is out of range. `Loader.ReadInputFile` handles that case before calling it.
- Pipeline.ConvertTutorial: the `log.Fatal` and the panic above end the process in the source. Here they are the `Fail` outcomes of `Loader.ReadInputFile`, passed on.
- Go strings are UTF-8 bytes, and the model works on code points (`seq<char>`). The two agree on valid UTF-8: every pattern the program searches for or deletes is ASCII, and `strings.TrimSpace` decodes runes. Invalid UTF-8 is not modelled.
- Scenarios.BashComment, Scenarios.VarComment, Scenarios.DocumentationComment and Scenarios.BashBlock do not cover a command, name or body holding `<` or `-`. Deleting `<!--` and `-->` could then reach into that text, and the lemmas do not describe that interaction. `Annotations.ProcessComment` and `Annotations.CommentBash` describe comments of any content.
- Scenarios.SampleTutorial: the HTML rendering and parsing of the test document are not modelled. The lemma starts from the seven selected nodes and states each node's name and filtered text. Long literal texts are written as concatenations of pieces.

## Findings

| source | as written | input that shows it | evidently intended | confidence | as-written member | corrected member |
|---|---|---|---|---|---|---|
| main.go:80-99 | the format is decided by the second `.`-separated piece of the name (`strings.Split(fileName, ".")[1]`) | `./tutorial.md` (second piece `/tutorial`) and `guide.v2.md` (second piece `v2`) are refused as unsupported; a name without `.` panics | the format is decided by the extension after the last `.`, as the error message ("either and md or html file") suggests | medium, not executed | Loader.AsWrittenRefusesDotSlash | Loader.InputFormat |

The as-written test is `Loader.FormatAsWritten`. `Loader.AsWrittenRefusesVersionedName` gives a second counterexample. `Loader.AsWrittenSingleDot` shows that the two tests agree on names with a single `.`. `Loader.ReadInputFile` and `Pipeline.ConvertTutorial` model the code as written. `Loader.ReadInputFileIntended` and `Pipeline.ConvertTutorialIntended` use the corrected test.
