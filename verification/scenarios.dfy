/**
 The behaviours the repository's tests expect (main_test.go), derived for
 the model: the comment cases of `TestProcessComment` and the statements
 of the sample tutorial of `TestGetCommandsAndActionsWithBashInput`.
 */
module Scenarios {
  import opened GoStrings
  import opened Annotations
  import opened Document
  import opened Extraction

  /** Every character of `s` is a space. */
  predicate Blank(s: string) {
    forall i | 0 <= i < |s| :: IsSpace(s[i])
  }

  /** A non-space character does not occur in a blank text. */
  lemma BlankLacks(s: string, ch: char)
    requires Blank(s) && !IsSpace(ch)
    ensures ch !in s
  {
  }

  /** A comment's delimiters are deleted and nothing else, when the text
      between them holds no `<` and no `-`. */
  lemma Unwrapped(x: string)
    requires '<' !in x && '-' !in x
    ensures RemoveAll(RemoveAll("<!--" + x + "-->", "<!--"), "-->") == x
  {
    assert "<!--" + x + "-->" == "<!--" + (x + "-->");
    RemoveAllLeading("<!--", x + "-->");
    RemoveAllKeep(x, "-->", "<!--");
    AbsentCharNotContained("-->", "<!--", 0);
    RemoveAllUnchanged("-->", "<!--");
    RemoveAllKeep(x, "-->", "-->");
    RemoveAllLeading("-->", "");
    assert "-->" + "" == "-->";
    assert x + "" == x;
  }

  /** Between the delimiters, spaces around a trimmed text holding no `<`
      and no `-` leave that text as the comment's body. */
  lemma CommentBodyOf(a: string, body: string, c: string)
    requires Blank(a) && Blank(c)
    requires NoOuterSpace(body) && '<' !in body && '-' !in body
    ensures CommentBody("<!--" + a + body + c + "-->") == body
  {
    var x := a + body + c;
    assert "<!--" + a + body + c + "-->" == "<!--" + x + "-->";
    BlankLacks(a, '<');
    BlankLacks(c, '<');
    BlankLacks(a, '-');
    BlankLacks(c, '-');
    Unwrapped(x);
    TrimSpaceAround(a, body, c);
  }

  /** The body of a comment holding a `word`, spaces and a trimmed
      argument, all between spaces, is the word, the spaces and the
      argument, when neither the word nor the argument holds `<` or `-`. */
  lemma AnnotatedBody(a: string, word: string, b: string, arg: string, c: string)
    requires Blank(a) && Blank(b) && Blank(c)
    requires |word| > 0 && !IsSpace(word[0]) && '<' !in word && '-' !in word
    requires arg != [] && NoOuterSpace(arg) && '<' !in arg && '-' !in arg
    ensures CommentBody("<!--" + a + word + b + arg + c + "-->") == word + b + arg
  {
    var body := word + b + arg;
    BlankLacks(b, '<');
    BlankLacks(b, '-');
    assert body[0] == word[0] && body[|body| - 1] == arg[|arg| - 1];
    assert "<!--" + a + word + b + arg + c + "-->" == "<!--" + a + body + c + "-->";
    CommentBodyOf(a, body, c);
  }

  /** Deleting a leading `word` and trimming leaves the trimmed text after
      the spaces, when `word` occurs nowhere else. */
  lemma StripLeading(word: string, b: string, x: string)
    requires |word| > 0 && Blank(b) && NoOuterSpace(x)
    requires word[0] !in b && !Contains(x, word)
    ensures Strip(word + b + x, word) == x
  {
    assert word + b + x == word + (b + x);
    RemoveAllLeading(word, b + x);
    ContainsSkip(b, x, word);
    RemoveAllUnchanged(b + x, word);
    TrimSpaceAround(b, x, "");
    assert b + x + "" == b + x;
  }

  /** A `bash` body followed by spaces and a trimmed CMD without `bash`
      emits CMD and leaves the state alone. */
  lemma BashBody(b: string, cmd: string, st: State)
    requires Blank(b)
    requires NoOuterSpace(cmd) && !Contains(cmd, "bash")
    ensures ApplyAnnotation("bash" + b + cmd, st) == Step(cmd, st)
  {
    var body := "bash" + b + cmd;
    assert body[0] == 'b';
    assert IsPrefix("bash", body);
    CommentBash(body, st);
    BlankLacks(b, 'b');
    StripLeading("bash", b, cmd);
  }

  /** A `var` body followed by spaces and a trimmed NAME that holds neither
      `bash` nor `var` emits nothing and appends the guard for NAME. */
  lemma VarBody(b: string, name: string, st: State)
    requires Blank(b)
    requires NoOuterSpace(name) && !Contains(name, "bash") && !Contains(name, "var")
    ensures ApplyAnnotation("var" + b + name, st)
         == Step("", State(st.command, st.debug, st.variables + [VarGuard(name)]))
  {
    var lead := "var" + b;
    assert 'b' !in lead by {
      BlankLacks(b, 'b');
      assert forall i | 0 <= i < |lead| :: lead[i] != 'b';
    }
    ContainsSkip(lead, name, "bash");
    var body := lead + name;
    assert body[0] == 'v';
    assert IsPrefix("var", body);
    CommentVar(body, st);
    BlankLacks(b, 'v');
    StripLeading("var", b, name);
  }

  /** `<!-- bash CMD -->`, with any spaces around the parts, emits CMD and
      leaves the state alone, provided CMD is trimmed, holds no `bash`, and
      holds no `<` or `-` that would interact with the delimiters. */
  lemma BashComment(a: string, b: string, c: string, cmd: string, st: State)
    requires Blank(a) && Blank(b) && Blank(c)
    requires cmd != [] && NoOuterSpace(cmd) && !Contains(cmd, "bash")
    requires '<' !in cmd && '-' !in cmd
    ensures ProcessComment("<!--" + a + "bash" + b + cmd + c + "-->", st) == Step(cmd, st)
  {
    AnnotatedBody(a, "bash", b, cmd, c);
    BashBody(b, cmd, st);
  }

  /** `<!-- var NAME -->`, with any spaces around the parts, emits nothing
      and appends the guard for NAME, provided NAME is trimmed, holds neither
      `bash` nor `var`, and holds no `<` or `-`. */
  lemma VarComment(a: string, b: string, c: string, name: string, st: State)
    requires Blank(a) && Blank(b) && Blank(c)
    requires name != [] && NoOuterSpace(name)
    requires !Contains(name, "bash") && !Contains(name, "var")
    requires '<' !in name && '-' !in name
    ensures ProcessComment("<!--" + a + "var" + b + name + c + "-->", st)
         == Step("", State(st.command, st.debug, st.variables + [VarGuard(name)]))
  {
    AnnotatedBody(a, "var", b, name, c);
    VarBody(b, name, st);
  }

  /** A comment whose trimmed body is no annotation, since it is neither
      `command` nor `debug` and holds neither `bash` nor `var`, emits
      nothing and changes nothing; the body holds no `<` or `-`. */
  lemma DocumentationComment(a: string, body: string, c: string, st: State)
    requires Blank(a) && Blank(c)
    requires NoOuterSpace(body) && '<' !in body && '-' !in body
    requires body != "command" && body != "debug"
    requires !Contains(body, "bash") && !Contains(body, "var")
    ensures ProcessComment("<!--" + a + body + c + "-->", st) == Step("", st)
  {
    CommentBodyOf(a, body, c);
    CommentOther(body, st);
  }

  /** `<!-- bash CMD -->` with single spaces emits CMD. */
  lemma BashSpaced(cmd: string, st: State)
    requires cmd != [] && NoOuterSpace(cmd) && !Contains(cmd, "bash")
    requires '<' !in cmd && '-' !in cmd
    ensures ProcessComment("<!-- bash " + cmd + " -->", st) == Step(cmd, st)
  {
    BashParts(cmd);
    BashComment(" ", " ", " ", cmd, st);
  }

  /** `<!-- var NAME -->` with single spaces appends the guard for NAME. */
  lemma VarSpaced(name: string, st: State)
    requires name != [] && NoOuterSpace(name)
    requires !Contains(name, "bash") && !Contains(name, "var")
    requires '<' !in name && '-' !in name
    ensures ProcessComment("<!-- var " + name + " -->", st)
         == Step("", State(st.command, st.debug, st.variables + [VarGuard(name)]))
  {
    VarParts(name);
    VarComment(" ", " ", " ", name, st);
  }

  /** A text lacking some letter of `bash` holds no `bash`. */
  lemma CommandText(cmd: string, k: int)
    requires 0 <= k < 4
    requires forall i | 0 <= i < |cmd| :: cmd[i] != "bash"[k] && cmd[i] != '<' && cmd[i] != '-'
    ensures !Contains(cmd, "bash") && '<' !in cmd && '-' !in cmd
  {
    AbsentCharNotContained(cmd, "bash", k);
  }

  /** A name without `b` and `v` holds neither `bash` nor `var`. */
  lemma NameText(name: string)
    requires forall i | 0 <= i < |name| :: name[i] != 'b' && name[i] != 'v' && name[i] != '<' && name[i] != '-'
    ensures !Contains(name, "bash") && !Contains(name, "var") && '<' !in name && '-' !in name
  {
    AbsentCharNotContained(name, "bash", 0);
    AbsentCharNotContained(name, "var", 0);
  }

  /** `BashSpaced` for a command given letter by letter: the concrete test
      cases state which letters their commands lack, so that no statement
      about a literal command mentions `Contains`, which the verifier would
      otherwise evaluate on the literal. */
  lemma BashSpacedLacking(cmd: string, k: int, st: State)
    requires cmd != [] && NoOuterSpace(cmd) && 0 <= k < 4
    requires forall i | 0 <= i < |cmd| :: cmd[i] != "bash"[k] && cmd[i] != '<' && cmd[i] != '-'
    ensures ProcessComment("<!-- bash " + cmd + " -->", st) == Step(cmd, st)
  {
    CommandText(cmd, k);
    BashSpaced(cmd, st);
  }

  /** `VarSpaced` for a name given letter by letter. */
  lemma VarSpacedLacking(name: string, st: State)
    requires name != [] && NoOuterSpace(name)
    requires forall i | 0 <= i < |name| :: name[i] != 'b' && name[i] != 'v' && name[i] != '<' && name[i] != '-'
    ensures ProcessComment("<!-- var " + name + " -->", st)
         == Step("", State(st.command, st.debug, st.variables + [VarGuard(name)]))
  {
    NameText(name);
    VarSpaced(name, st);
  }

  /** The layouts of the comments above, regrouped into delimiters, spaces
      and parts; kept apart from any statement about `Contains`, so that the
      literals here are not evaluated against it. */
  lemma BashParts(cmd: string)
    ensures "<!-- bash " + cmd + " -->" == "<!--" + " " + "bash" + " " + cmd + " " + "-->"
  {
  }

  lemma VarParts(name: string)
    ensures "<!-- var " + name + " -->" == "<!--" + " " + "var" + " " + name + " " + "-->"
  {
  }

  lemma BlockParts(cmd: string)
    ensures "<!-- bash\n" + cmd + "\n-->" == "<!--" + " " + "bash" + "\n" + cmd + "\n" + "-->"
  {
  }

  lemma DocumentationParts(body: string)
    ensures "<!-- " + body + " -->" == "<!--" + " " + body + " " + "-->"
  {
  }

  /** `<!-- command -->` arms the next code block and emits nothing. */
  lemma CommandComment(comment: string, st: State)
    requires comment == "<!-- command -->"
    ensures ProcessComment(comment, st) == Step("", State(true, st.debug, st.variables))
  {
    assert comment == "<!--" + " " + "command" + " " + "-->";
    CommentBodyOf(" ", "command", " ");
    CommentCommand("command", st);
  }

  /** `TestProcessComment`, first case. */
  lemma CaseEchoTest(comment: string, st: State)
    requires comment == "<!-- bash " + "echo test" + " -->"
    ensures ProcessComment(comment, st) == Step("echo test", st)
  {
    var cmd := "echo test";
    assert forall i | 0 <= i < |cmd| :: cmd[i] != 'b' && cmd[i] != '<' && cmd[i] != '-';
    BashSpacedLacking(cmd, 0, st);
  }

  /** `TestProcessComment`, second case: the `b` of `kubectl` is no `bash`. */
  lemma CaseGetPods(comment: string, st: State)
    requires comment == "<!-- bash " + "kubectl get pods" + " -->"
    ensures ProcessComment(comment, st) == Step("kubectl get pods", st)
  {
    var cmd := "kubectl get pods";
    assert forall i | 0 <= i < |cmd| :: cmd[i] != 'a' && cmd[i] != '<' && cmd[i] != '-';
    BashSpacedLacking(cmd, 1, st);
  }

  /** The command of the third case of `TestProcessComment` is trimmed. */
  lemma WaitForTrimmed(wait: string)
    requires wait == "wait_for_deployment" + "_with_image_in_namespace"
    ensures wait != [] && NoOuterSpace(wait)
  {
    assert wait[0] == 'w' && wait[|wait| - 1] == 'e';
  }

  /** The command of the third case of `TestProcessComment` holds none of
      `b`, `<` and `-`. */
  lemma WaitForLacks(wait: string)
    requires wait == "wait_for_deployment" + "_with_image_in_namespace"
    ensures forall i | 0 <= i < |wait| :: wait[i] != "bash"[0] && wait[i] != '<' && wait[i] != '-'
  {
    assert forall i | 0 <= i < |wait| :: wait[i] != 'b' && wait[i] != '<' && wait[i] != '-';
  }

  /** `TestProcessComment`, third case. The command is the one text
      `wait_for_deployment_with_image_in_namespace`, written in two halves
      only so that no single literal is long for the verifier. */
  lemma CaseWaitFor(comment: string, st: State)
    requires comment == "<!-- bash " + ("wait_for_deployment" + "_with_image_in_namespace") + " -->"
    ensures ProcessComment(comment, st) == Step("wait_for_deployment" + "_with_image_in_namespace", st)
  {
    var wait := "wait_for_deployment" + "_with_image_in_namespace";
    WaitForTrimmed(wait);
    WaitForLacks(wait);
    BashSpacedLacking(wait, 0, st);
  }

  /** `TestProcessComment`, fourth case: nothing is emitted, and the guard
      for `DT_TENANT` is declared. */
  lemma CaseTenant(comment: string, st: State)
    requires comment == "<!-- var " + "DT_TENANT" + " -->"
    ensures ProcessComment(comment, st)
         == Step("", State(st.command, st.debug, st.variables + [VarGuard("DT_TENANT")]))
  {
    var name := "DT_TENANT";
    assert forall i | 0 <= i < |name| :: name[i] != 'b' && name[i] != 'v' && name[i] != '<' && name[i] != '-';
    VarSpacedLacking(name, st);
  }

  /** `TestProcessComment`, fifth case. */
  lemma CaseApiToken(comment: string, st: State)
    requires comment == "<!-- var " + "DT_API_TOKEN" + " -->"
    ensures ProcessComment(comment, st)
         == Step("", State(st.command, st.debug, st.variables + [VarGuard("DT_API_TOKEN")]))
  {
    var name := "DT_API_TOKEN";
    assert forall i | 0 <= i < |name| :: name[i] != 'b' && name[i] != 'v' && name[i] != '<' && name[i] != '-';
    VarSpacedLacking(name, st);
  }

  /** A text cut into HEAD, which lacks `h`, and TAIL, which lacks `b`, and
      starting TAIL with a letter outside `bash`, holds no `bash`: no
      occurrence fits in either part, and none can straddle the cut. Without
      `v`, `<` and `-` in either part, and with TAIL longer than `command`,
      the text meets the conditions of a documentation comment's body. */
  lemma DocumentationText(head: string, tail: string)
    requires |head| > 0 && |tail| > 7 && tail[0] != 'a' && tail[0] != 's' && tail[0] != 'h'
    requires !IsSpace(head[0]) && !IsSpace(tail[|tail| - 1])
    requires forall i | 0 <= i < |head| :: head[i] != 'h' && head[i] != 'v' && head[i] != '<' && head[i] != '-'
    requires forall i | 0 <= i < |tail| :: tail[i] != 'b' && tail[i] != 'v' && tail[i] != '<' && tail[i] != '-'
    ensures var body := head + tail;
            NoOuterSpace(body) && '<' !in body && '-' !in body && body != "command" && body != "debug"
            && !Contains(body, "bash") && !Contains(body, "var")
  {
    var body := head + tail;
    assert forall i | 0 <= i < |body| :: body[i] != 'v' && body[i] != '<' && body[i] != '-';
    assert body[0] == head[0] && body[|body| - 1] == tail[|tail| - 1];
    AbsentCharNotContained(body, "var", 0);
    AbsentCharNotContained(head, "bash", 3);
    AbsentCharNotContained(tail, "bash", 0);
    NotContainsJoin(head, tail, "bash");
  }

  /** A multi-line `bash` comment: the delimiters and the word `bash` on
      lines of their own around the commands. */
  lemma BashBlock(cmd: string, st: State)
    requires cmd != [] && NoOuterSpace(cmd) && !Contains(cmd, "bash")
    requires '<' !in cmd && '-' !in cmd
    ensures ProcessComment("<!-- bash\n" + cmd + "\n-->", st) == Step(cmd, st)
  {
    BlockParts(cmd);
    BashComment(" ", "\n", "\n", cmd, st);
  }

  /** A run that starts at a code block whose filtered text is the trimmed,
      non-empty CMD, with a plain command pending. */
  lemma AtCode(sel: seq<Node>, i: nat, f: Filters, st: State, cmd: string)
    requires i < |sel| && sel[i].name == "code" && f.unescape(f.sanitize(sel[i].text)) == cmd
    requires cmd != [] && NoOuterSpace(cmd) && st.command && !st.debug
    ensures var next := State(false, false, st.variables);
            Emitted(Run(sel[i..], f, st)) == [cmd] + Emitted(Run(sel[i + 1..], f, next))
            && Final(sel[i..], f, st) == Final(sel[i + 1..], f, next)
  {
    RunStep(sel, i, f, st);
  }

  /** A run that starts at a code block with nothing pending. */
  lemma AtIdleCode(sel: seq<Node>, i: nat, f: Filters, st: State)
    requires i < |sel| && sel[i].name == "code" && !st.command
    ensures Emitted(Run(sel[i..], f, st)) == Emitted(Run(sel[i + 1..], f, st))
            && Final(sel[i..], f, st) == Final(sel[i + 1..], f, st)
  {
    RunStep(sel, i, f, st);
  }

  /** A run that starts at `<!-- var NAME -->`. */
  lemma AtVar(sel: seq<Node>, i: nat, f: Filters, st: State, name: string)
    requires i < |sel| && sel[i].name == "#comment" && f.unescape(sel[i].text) == "<!-- var " + name + " -->"
    requires name != [] && NoOuterSpace(name)
    requires !Contains(name, "bash") && !Contains(name, "var") && '<' !in name && '-' !in name
    ensures var next := State(st.command, st.debug, st.variables + [VarGuard(name)]);
            Emitted(Run(sel[i..], f, st)) == Emitted(Run(sel[i + 1..], f, next))
            && Final(sel[i..], f, st) == Final(sel[i + 1..], f, next)
  {
    VarSpaced(name, st);
    RunStep(sel, i, f, st);
  }

  /** A run that starts at a documentation comment. */
  lemma AtDocumentation(sel: seq<Node>, i: nat, f: Filters, st: State, body: string)
    requires i < |sel| && sel[i].name == "#comment" && f.unescape(sel[i].text) == "<!-- " + body + " -->"
    requires NoOuterSpace(body) && '<' !in body && '-' !in body
    requires body != "command" && body != "debug"
    requires !Contains(body, "bash") && !Contains(body, "var")
    ensures Emitted(Run(sel[i..], f, st)) == Emitted(Run(sel[i + 1..], f, st))
            && Final(sel[i..], f, st) == Final(sel[i + 1..], f, st)
  {
    DocumentationParts(body);
    DocumentationComment(" ", body, " ", st);
    RunStep(sel, i, f, st);
  }

  /** A run that starts at a multi-line `bash` comment around CMD. */
  lemma AtBashBlock(sel: seq<Node>, i: nat, f: Filters, st: State, cmd: string)
    requires i < |sel| && sel[i].name == "#comment" && f.unescape(sel[i].text) == "<!-- bash\n" + cmd + "\n-->"
    requires cmd != [] && NoOuterSpace(cmd) && !Contains(cmd, "bash")
    requires '<' !in cmd && '-' !in cmd
    ensures Emitted(Run(sel[i..], f, st)) == [cmd] + Emitted(Run(sel[i + 1..], f, st))
            && Final(sel[i..], f, st) == Final(sel[i + 1..], f, st)
  {
    BashBlock(cmd, st);
    RunStep(sel, i, f, st);
  }

  lemma Regroup(p: string, x: string, y: string, q: string)
    ensures p + x + y + q == p + (x + y) + q
  {
  }

  /** `AtVar` for a name given letter by letter. */
  lemma AtVarLacking(sel: seq<Node>, i: nat, f: Filters, st: State, name: string)
    requires i < |sel| && sel[i].name == "#comment" && f.unescape(sel[i].text) == "<!-- var " + name + " -->"
    requires name != [] && NoOuterSpace(name)
    requires forall j | 0 <= j < |name| :: name[j] != 'b' && name[j] != 'v' && name[j] != '<' && name[j] != '-'
    ensures var next := State(st.command, st.debug, st.variables + [VarGuard(name)]);
            Emitted(Run(sel[i..], f, st)) == Emitted(Run(sel[i + 1..], f, next))
            && Final(sel[i..], f, st) == Final(sel[i + 1..], f, next)
  {
    NameText(name);
    AtVar(sel, i, f, st, name);
  }

  /** `AtBashBlock` for a command lacking `a`, given letter by letter. */
  lemma AtBashBlockLacking(sel: seq<Node>, i: nat, f: Filters, st: State, cmd: string)
    requires i < |sel| && sel[i].name == "#comment" && f.unescape(sel[i].text) == "<!-- bash\n" + cmd + "\n-->"
    requires cmd != [] && NoOuterSpace(cmd)
    requires forall j | 0 <= j < |cmd| :: cmd[j] != 'a' && cmd[j] != '<' && cmd[j] != '-'
    ensures Emitted(Run(sel[i..], f, st)) == [cmd] + Emitted(Run(sel[i + 1..], f, st))
            && Final(sel[i..], f, st) == Final(sel[i + 1..], f, st)
  {
    CommandText(cmd, 1);
    AtBashBlock(sel, i, f, st, cmd);
  }

  /** `AtDocumentation` for a body given as a HEAD and a TAIL as in
      `DocumentationText`. */
  lemma AtDocumentationSplit(sel: seq<Node>, i: nat, f: Filters, st: State, head: string, tail: string)
    requires i < |sel| && sel[i].name == "#comment" && f.unescape(sel[i].text) == "<!-- " + head + tail + " -->"
    requires |head| > 0 && |tail| > 7 && tail[0] != 'a' && tail[0] != 's' && tail[0] != 'h'
    requires !IsSpace(head[0]) && !IsSpace(tail[|tail| - 1])
    requires forall j | 0 <= j < |head| :: head[j] != 'h' && head[j] != 'v' && head[j] != '<' && head[j] != '-'
    requires forall j | 0 <= j < |tail| :: tail[j] != 'b' && tail[j] != 'v' && tail[j] != '<' && tail[j] != '-'
    ensures Emitted(Run(sel[i..], f, st)) == Emitted(Run(sel[i + 1..], f, st))
            && Final(sel[i..], f, st) == Final(sel[i + 1..], f, st)
  {
    DocumentationText(head, tail);
    Regroup("<!-- ", head, tail, " -->");
    AtDocumentation(sel, i, f, st, head + tail);
  }

  /** The code blocks of the sample tutorial: the first is released by the
      pending `command`, the second is dropped. */
  lemma SampleCodes(sel: seq<Node>, f: Filters, st: State)
    requires |sel| == 7 && st.command && !st.debug
    requires sel[1].name == "code" && f.unescape(f.sanitize(sel[1].text)) == "kubectl get ns"
    requires sel[2].name == "code"
    ensures var next := State(false, false, st.variables);
            Emitted(Run(sel[1..], f, st)) == ["kubectl get ns"] + Emitted(Run(sel[3..], f, next))
            && Final(sel[1..], f, st) == Final(sel[3..], f, next)
  {
    AtCode(sel, 1, f, st, "kubectl get ns");
    AtIdleCode(sel, 2, f, State(false, false, st.variables));
  }

  /** The `var DT_TENANT` comment of the sample tutorial. */
  lemma SampleTenant(sel: seq<Node>, f: Filters, st: State)
    requires |sel| == 7
    requires sel[3].name == "#comment" && f.unescape(sel[3].text) == "<!-- var " + "DT_TENANT" + " -->"
    ensures var next := State(st.command, st.debug, st.variables + [VarGuard("DT_TENANT")]);
            Emitted(Run(sel[3..], f, st)) == Emitted(Run(sel[4..], f, next))
            && Final(sel[3..], f, st) == Final(sel[4..], f, next)
  {
    var name := "DT_TENANT";
    assert forall j | 0 <= j < |name| :: name[j] != 'b' && name[j] != 'v' && name[j] != '<' && name[j] != '-';
    AtVarLacking(sel, 3, f, st, name);
  }

  /** The documentation comment of the sample tutorial. Its text is cut
      after `code b`: the part before holds no `h` and the part after no
      `b`, which is how `DocumentationText` sees that it holds no `bash`,
      although it holds each letter of the word. */
  lemma SampleTodo(sel: seq<Node>, f: Filters, st: State)
    requires |sel| == 7
    requires sel[4].name == "#comment"
    requires f.unescape(sel[4].text) == "<!-- " + "TODO: Add support for code b" + "locks with language" + " -->"
    ensures Emitted(Run(sel[4..], f, st)) == Emitted(Run(sel[5..], f, st))
            && Final(sel[4..], f, st) == Final(sel[5..], f, st)
  {
    var head, tail := "TODO: Add support for code b", "locks with language";
    assert forall j | 0 <= j < |head| :: head[j] != 'h' && head[j] != 'v' && head[j] != '<' && head[j] != '-';
    assert forall j | 0 <= j < |tail| :: tail[j] != 'b' && tail[j] != 'v' && tail[j] != '<' && tail[j] != '-';
    AtDocumentationSplit(sel, 4, f, st, head, tail);
  }

  /** The two `bash` blocks that end the sample tutorial. */
  lemma SampleBashBlocks(sel: seq<Node>, f: Filters, st: State)
    requires |sel| == 7
    requires sel[5].name == "#comment"
    requires f.unescape(sel[5].text) == "<!-- bash\n" + ("echo \"Hello World!\"" + "\nkubectl get pods") + "\n-->"
    requires sel[6].name == "#comment" && f.unescape(sel[6].text) == "<!-- bash\n" + "kubectl get ns" + "\n-->"
    ensures Emitted(Run(sel[5..], f, st)) == ["echo \"Hello World!\"" + "\nkubectl get pods", "kubectl get ns"]
    ensures Final(sel[5..], f, st) == st
  {
    SampleHello(sel, f, st);
    SampleGetNs(sel, f, st);
    assert sel[7..] == [];
  }

  /** The first `bash` block of the sample tutorial emits its two lines. */
  lemma SampleHello(sel: seq<Node>, f: Filters, st: State)
    requires |sel| == 7
    requires sel[5].name == "#comment"
    requires f.unescape(sel[5].text) == "<!-- bash\n" + ("echo \"Hello World!\"" + "\nkubectl get pods") + "\n-->"
    ensures Emitted(Run(sel[5..], f, st)) == ["echo \"Hello World!\"" + "\nkubectl get pods"] + Emitted(Run(sel[6..], f, st))
            && Final(sel[5..], f, st) == Final(sel[6..], f, st)
  {
    var hello := "echo \"Hello World!\"" + "\nkubectl get pods";
    assert forall j | 0 <= j < |hello| :: hello[j] != 'a' && hello[j] != '<' && hello[j] != '-';
    assert hello[0] == 'e' && hello[|hello| - 1] == 's';
    AtBashBlockLacking(sel, 5, f, st, hello);
  }

  /** The last `bash` block of the sample tutorial. */
  lemma SampleGetNs(sel: seq<Node>, f: Filters, st: State)
    requires |sel| == 7
    requires sel[6].name == "#comment" && f.unescape(sel[6].text) == "<!-- bash\n" + "kubectl get ns" + "\n-->"
    ensures Emitted(Run(sel[6..], f, st)) == ["kubectl get ns"] + Emitted(Run(sel[7..], f, st))
            && Final(sel[6..], f, st) == Final(sel[7..], f, st)
  {
    var ns := "kubectl get ns";
    assert forall j | 0 <= j < |ns| :: ns[j] != 'a' && ns[j] != '<' && ns[j] != '-';
    AtBashBlockLacking(sel, 6, f, st, ns);
  }

  /** The sample tutorial from its `var` comment on. */
  lemma SampleFromTenant(sel: seq<Node>, f: Filters, st: State)
    requires |sel| == 7
    requires sel[3].name == "#comment" && f.unescape(sel[3].text) == "<!-- var " + "DT_TENANT" + " -->"
    requires sel[4].name == "#comment"
    requires f.unescape(sel[4].text) == "<!-- " + "TODO: Add support for code b" + "locks with language" + " -->"
    requires sel[5].name == "#comment"
    requires f.unescape(sel[5].text) == "<!-- bash\n" + ("echo \"Hello World!\"" + "\nkubectl get pods") + "\n-->"
    requires sel[6].name == "#comment" && f.unescape(sel[6].text) == "<!-- bash\n" + "kubectl get ns" + "\n-->"
    ensures Emitted(Run(sel[3..], f, st)) == ["echo \"Hello World!\"" + "\nkubectl get pods", "kubectl get ns"]
    ensures Final(sel[3..], f, st) == State(st.command, st.debug, st.variables + [VarGuard("DT_TENANT")])
  {
    var next := State(st.command, st.debug, st.variables + [VarGuard("DT_TENANT")]);
    SampleTenant(sel, f, st);
    SampleTodo(sel, f, next);
    SampleBashBlocks(sel, f, next);
  }

  /** The run over the nodes that the sample tutorial of
      `TestGetCommandsAndActionsWithBashInput` selects, from a state with
      nothing pending: `command`, two code blocks, `var DT_TENANT`, a
      documentation comment, and two multi-line `bash` comments. Each node
      is given by its name and its text after sanitizing and unescaping,
      since the HTML library and the filters are not part of this model.
      Long texts are written in pieces. */
  lemma SampleTutorial(sel: seq<Node>, f: Filters, st: State)
    requires |sel| == 7 && !st.command && !st.debug
    requires sel[0].name == "#comment" && f.unescape(sel[0].text) == "<!-- command -->"
    requires sel[1].name == "code" && f.unescape(f.sanitize(sel[1].text)) == "kubectl get ns"
    requires sel[2].name == "code" && f.unescape(f.sanitize(sel[2].text)) == "kubectl get pods"
    requires sel[3].name == "#comment" && f.unescape(sel[3].text) == "<!-- var " + "DT_TENANT" + " -->"
    requires sel[4].name == "#comment"
    requires f.unescape(sel[4].text) == "<!-- " + "TODO: Add support for code b" + "locks with language" + " -->"
    requires sel[5].name == "#comment"
    requires f.unescape(sel[5].text) == "<!-- bash\n" + ("echo \"Hello World!\"" + "\nkubectl get pods") + "\n-->"
    requires sel[6].name == "#comment" && f.unescape(sel[6].text) == "<!-- bash\n" + "kubectl get ns" + "\n-->"
    ensures Emitted(Run(sel, f, st)) == ["kubectl get ns", "echo \"Hello World!\"" + "\nkubectl get pods", "kubectl get ns"]
    ensures Final(sel, f, st).variables == st.variables + [VarGuard("DT_TENANT")]
  {
    SampleFromCodes(sel, f, State(true, false, st.variables));
    CommandNode(sel, f, st);
    FromCommand(sel, f, st, Emitted(Run(sel[1..], f, State(true, false, st.variables))),
                Final(sel[1..], f, State(true, false, st.variables)).variables);
  }

  /** The first node of the sample tutorial is the `command` comment. */
  lemma CommandNode(sel: seq<Node>, f: Filters, st: State)
    requires |sel| > 0 && sel[0].name == "#comment" && f.unescape(sel[0].text) == "<!-- command -->"
    ensures ProcessNode(sel[0], f, st) == Step("", State(true, st.debug, st.variables))
  {
    CommandComment(f.unescape(sel[0].text), st);
  }

  /** A run whose first step emits nothing and arms the command yields what
      the rest of the run yields with the command pending. */
  lemma FromCommand(sel: seq<Node>, f: Filters, st: State, es: seq<string>, vars: seq<string>)
    requires |sel| > 0 && ProcessNode(sel[0], f, st) == Step("", State(true, st.debug, st.variables))
    requires Emitted(Run(sel[1..], f, State(true, st.debug, st.variables))) == es
    requires Final(sel[1..], f, State(true, st.debug, st.variables)).variables == vars
    ensures Emitted(Run(sel, f, st)) == es && Final(sel, f, st).variables == vars
  {
    assert sel[0..] == sel;
    RunStep(sel, 0, f, st);
  }

  /** The sample tutorial from its first code block on, with a plain
      command pending. */
  lemma SampleFromCodes(sel: seq<Node>, f: Filters, st: State)
    requires |sel| == 7 && st.command && !st.debug
    requires sel[1].name == "code" && f.unescape(f.sanitize(sel[1].text)) == "kubectl get ns"
    requires sel[2].name == "code" && f.unescape(f.sanitize(sel[2].text)) == "kubectl get pods"
    requires sel[3].name == "#comment" && f.unescape(sel[3].text) == "<!-- var " + "DT_TENANT" + " -->"
    requires sel[4].name == "#comment"
    requires f.unescape(sel[4].text) == "<!-- " + "TODO: Add support for code b" + "locks with language" + " -->"
    requires sel[5].name == "#comment"
    requires f.unescape(sel[5].text) == "<!-- bash\n" + ("echo \"Hello World!\"" + "\nkubectl get pods") + "\n-->"
    requires sel[6].name == "#comment" && f.unescape(sel[6].text) == "<!-- bash\n" + "kubectl get ns" + "\n-->"
    ensures Emitted(Run(sel[1..], f, st))
         == ["kubectl get ns", "echo \"Hello World!\"" + "\nkubectl get pods", "kubectl get ns"]
    ensures Final(sel[1..], f, st) == State(false, false, st.variables + [VarGuard("DT_TENANT")])
  {
    SampleCodes(sel, f, st);
    SampleFromTenant(sel, f, State(false, false, st.variables));
  }

  /** Started from `Init`, the sample tutorial yields the three statements
      the test expects and declares the one guard for `DT_TENANT`. */
  lemma SampleTutorialFromInit(sel: seq<Node>, f: Filters)
    requires |sel| == 7
    requires sel[0].name == "#comment" && f.unescape(sel[0].text) == "<!-- command -->"
    requires sel[1].name == "code" && f.unescape(f.sanitize(sel[1].text)) == "kubectl get ns"
    requires sel[2].name == "code" && f.unescape(f.sanitize(sel[2].text)) == "kubectl get pods"
    requires sel[3].name == "#comment" && f.unescape(sel[3].text) == "<!-- var " + "DT_TENANT" + " -->"
    requires sel[4].name == "#comment"
    requires f.unescape(sel[4].text) == "<!-- " + "TODO: Add support for code b" + "locks with language" + " -->"
    requires sel[5].name == "#comment"
    requires f.unescape(sel[5].text) == "<!-- bash\n" + ("echo \"Hello World!\"" + "\nkubectl get pods") + "\n-->"
    requires sel[6].name == "#comment" && f.unescape(sel[6].text) == "<!-- bash\n" + "kubectl get ns" + "\n-->"
    ensures Emitted(Run(sel, f, Init)) == ["kubectl get ns", "echo \"Hello World!\"" + "\nkubectl get pods", "kubectl get ns"]
    ensures Final(sel, f, Init).variables == [VarGuard("DT_TENANT")]
  {
    SampleTutorial(sel, f, Init);
  }
}
