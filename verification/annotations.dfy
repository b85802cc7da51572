/**
 The annotation state machine of the script generator: the comment
 directives `command`, `debug`, `bash ...` and `var NAME`, and the code
 blocks that a pending `command` or `debug` turns into statements
 (`processComment` and `processCode` in main.go).
 */
module Annotations {
  import opened GoStrings

  /** The state carried from node to node during one extraction: whether the
      next code block is pending as a command, whether it is pending as a
      debug-only command, and the variable guards declared so far. */
  datatype State = State(command: bool, debug: bool, variables: seq<string>)

  /** Every extraction starts from this state. */
  const Init := State(false, false, [])

  /** `debug` is never pending without `command`. */
  predicate Consistent(st: State) {
    st.debug ==> st.command
  }

  /** What one node contributes: its statement text (`""` for none) and the
      state it leaves behind. */
  datatype Step = Step(emitted: string, state: State)

  /** The text of a comment with every `<!--` and `-->` deleted and the
      surrounding spaces trimmed. */
  function CommentBody(comment: string): string {
    TrimSpace(RemoveAll(RemoveAll(comment, "<!--"), "-->"))
  }

  /** `body` with every occurrence of `word` deleted, then trimmed. */
  function Strip(body: string, word: string): string
    requires |word| > 0
  {
    TrimSpace(RemoveAll(body, word))
  }

  /** The four lines of the guard emitted for `var NAME`: abort unless
      `$NAME` is set and non-empty. The second line is one line of the
      script; its text is written in pieces only to keep each literal
      short for the verifier. */
  function GuardLines(name: string): seq<string> {
    [ "if [ -z \"$" + name + "\" ]; then",
      " \techo \"Please supply a value" + " for the environment variable " + name + "\"",
      "\texit 1",
      "fi" ]
  }

  /** The guard block for `var NAME`, one text with its lines joined by
      line feeds. */
  function VarGuard(name: string): string {
    JoinLines(GuardLines(name))
  }

  /** The block that runs a debug-only command when `$DEBUG` is `true`. */
  function DebugGuard(code: string): string {
    JoinLines(["if [ \"$DEBUG\" = \"true\" ]; then ", code + "  ", "fi"])
  }

  /** Whether a comment body is a `var` annotation: it is not `command`,
      holds no `bash`, is not `debug`, and holds `var`. */
  predicate IsVarBody(body: string) {
    body != "command" && !Contains(body, "bash") && body != "debug" && Contains(body, "var")
  }

  /** The guard a comment body declares: one for a `var` annotation, none
      otherwise. */
  function BodyGuard(body: string): seq<string> {
    if IsVarBody(body) then [VarGuard(Strip(body, "var"))] else []
  }

  /** `processComment`: delete the delimiters, trim, and act on the body. */
  function ProcessComment(comment: string, st: State): (step: Step)
    ensures Consistent(st) ==> Consistent(step.state)
    ensures st.command ==> step.state.command
    ensures st.debug ==> step.state.debug
    ensures step.state.command ==> st.command || CommentBody(comment) in {"command", "debug"}
    ensures step.state.debug ==> st.debug || CommentBody(comment) == "debug"
    ensures step.emitted != "" ==> step.state == st && Contains(CommentBody(comment), "bash")
    ensures step.state.variables == st.variables + BodyGuard(CommentBody(comment))
  {
    ApplyAnnotation(CommentBody(comment), st)
  }

  /** The classification of a comment body, in the order the source tests it:
      exactly `command`, contains `bash`, exactly `debug`, contains `var`,
      anything else. A comment never clears a pending annotation, only a
      `bash` comment emits anything (and then leaves the state alone), only
      `command` and `debug` raise a flag, and at most one guard is appended:
      the body's own. */
  function ApplyAnnotation(body: string, st: State): (step: Step)
    ensures Consistent(st) ==> Consistent(step.state)
    ensures st.command ==> step.state.command
    ensures st.debug ==> step.state.debug
    ensures step.state.command ==> st.command || body in {"command", "debug"}
    ensures step.state.debug ==> st.debug || body == "debug"
    ensures step.emitted != "" ==> step.state == st && Contains(body, "bash")
    ensures step.state.variables == st.variables + BodyGuard(body)
  {
    if body == "command" then
      Step("", st.(command := true))
    else if Contains(body, "bash") then
      Step(Strip(body, "bash"), st)
    else if body == "debug" then
      Step("", st.(debug := true, command := true))
    else if Contains(body, "var") then
      Step("", st.(variables := st.variables + [VarGuard(Strip(body, "var"))]))
    else
      Step("", st)
  }

  /** `processCode`. Afterwards no command is pending; a pending debug flag
      survives only if it was (inconsistently) pending without a command; the
      guards are untouched; and nothing is emitted exactly when no command was
      pending, or a plain command's code trims to nothing. */
  function ProcessCode(code: string, st: State): (step: Step)
    ensures !step.state.command
    ensures step.state.debug <==> st.debug && !st.command
    ensures step.state.variables == st.variables
    ensures step.emitted == "" <==> !st.command || (!st.debug && TrimSpace(code) == "")
  {
    var c := TrimSpace(code);
    if st.command && st.debug then
      Step(DebugGuard(c), st.(command := false, debug := false))
    else if st.command then
      Step(c, st.(command := false))
    else
      Step("", st)
  }

  /** A body that is exactly `command` marks the next code block as a
      command and emits nothing; nothing else changes. */
  lemma CommentCommand(body: string, st: State)
    requires body == "command"
    ensures ApplyAnnotation(body, st) == Step("", State(true, st.debug, st.variables))
  {
  }

  /** A body that is exactly `debug` marks the next code block as a
      debug-only command and emits nothing; the guards are untouched. */
  lemma CommentDebug(body: string, st: State)
    requires body == "debug"
    ensures ApplyAnnotation(body, st) == Step("", State(true, true, st.variables))
  {
    AbsentCharNotContained("debug", "bash", 1);
  }

  /** A `bash` body emits itself with every `bash` deleted and the result
      trimmed, and neither reads nor changes the state. */
  lemma CommentBash(body: string, st: State)
    requires body != "command" && Contains(body, "bash")
    ensures ApplyAnnotation(body, st) == Step(Strip(body, "bash"), st)
    ensures NoOuterSpace(ApplyAnnotation(body, st).emitted)
  {
  }

  /** A `var` body that is no other annotation emits nothing and appends
      exactly one guard, for the body with every `var` deleted and trimmed,
      even when the same guard was declared before; the flags are untouched. */
  lemma CommentVar(body: string, st: State)
    requires body != "command" && body != "debug"
    requires !Contains(body, "bash") && Contains(body, "var")
    ensures ApplyAnnotation(body, st)
         == Step("", State(st.command, st.debug, st.variables + [VarGuard(Strip(body, "var"))]))
  {
  }

  /** Any other body is documentation: nothing is emitted or changed. */
  lemma CommentOther(body: string, st: State)
    requires body != "command" && body != "debug"
    requires !Contains(body, "bash") && !Contains(body, "var")
    ensures ApplyAnnotation(body, st) == Step("", st)
  {
  }

  /** The three behaviours of a code block: wrapped in the `$DEBUG` guard
      under a pending `debug`, emitted as is under a pending `command`, and
      dropped otherwise. */
  lemma CodeCases(code: string, st: State)
    ensures st.command && st.debug ==>
      ProcessCode(code, st) == Step(DebugGuard(TrimSpace(code)), State(false, false, st.variables))
    ensures st.command && !st.debug ==>
      ProcessCode(code, st) == Step(TrimSpace(code), State(false, false, st.variables))
    ensures !st.command ==> ProcessCode(code, st) == Step("", st)
  {
  }

  /** One `command` annotation releases exactly one code block: the first
      is emitted (wrapped in the `$DEBUG` guard if a `debug` was already
      pending) and the second of two consecutive code blocks is dropped. */
  lemma CommandReleasesOneCode(body: string, a: string, b: string, st: State)
    requires body == "command"
    ensures var s1 := ApplyAnnotation(body, st);
            var s2 := ProcessCode(a, s1.state);
            var s3 := ProcessCode(b, s2.state);
            && s2.emitted == (if st.debug then DebugGuard(TrimSpace(a)) else TrimSpace(a))
            && s3.emitted == "" && s3.state == State(false, false, st.variables)
  {
  }

  /** A `debug` annotation wraps the next code block in the `$DEBUG` guard
      and is then spent: a second code block is dropped. */
  lemma DebugReleasesOneCode(body: string, a: string, b: string, st: State)
    requires body == "debug"
    ensures var s1 := ApplyAnnotation(body, st);
            var s2 := ProcessCode(a, s1.state);
            var s3 := ProcessCode(b, s2.state);
            s2.emitted == DebugGuard(TrimSpace(a)) && s3.emitted == ""
            && s3.state == State(false, false, st.variables)
  {
    CommentDebug(body, st);
  }

  lemma GuardLinesSingle(name: string)
    requires '\n' !in name
    ensures forall k | 0 <= k < 4 :: '\n' !in GuardLines(name)[k]
  {
    var lines := GuardLines(name);
    assert '\n' !in lines[0];
    var please, forVar := " \techo \"Please supply a value", " for the environment variable ";
    assert forall i | 0 <= i < |please| :: please[i] != '\n';
    assert forall i | 0 <= i < |forVar| :: forVar[i] != '\n';
    assert lines[1] == please + forVar + name + "\"";
    assert '\n' !in lines[1];
    assert '\n' !in lines[2];
    assert '\n' !in lines[3];
  }

  /** The guard is the four-line shell `if` block naming the variable twice. */
  lemma VarGuardLines(name: string)
    requires '\n' !in name
    ensures SplitOn(VarGuard(name), '\n') == GuardLines(name)
  {
    GuardLinesSingle(name);
    SplitJoinLines(GuardLines(name));
  }

  /** The debug wrapper is a three-line shell `if` block around the code. */
  lemma DebugGuardLines(code: string)
    requires '\n' !in code
    ensures SplitOn(DebugGuard(code), '\n') == ["if [ \"$DEBUG\" = \"true\" ]; then ", code + "  ", "fi"]
  {
    var lines := ["if [ \"$DEBUG\" = \"true\" ]; then ", code + "  ", "fi"];
    assert '\n' !in lines[0];
    assert '\n' !in lines[2];
    SplitJoinLines(lines);
  }
}
