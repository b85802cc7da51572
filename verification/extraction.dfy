/**
 The reduction of the selected nodes to shell statements (`processData` in
 main.go): each node is dispatched on its name, the annotation state is
 threaded from node to node, and the non-empty results are collected in
 order.
 */
module Extraction {
  import opened GoStrings
  import opened Annotations
  import opened Document

  /** The two text filters applied to a node's outer HTML: the strict
      sanitizing policy (which strips the markup) and the decoding of HTML
      character references. Both come from libraries outside the model and
      are taken as given functions. */
  datatype Filters = Filters(sanitize: string -> string, unescape: string -> string)

  /** The 69 dashes of the heading banner's rule line, written as 35 and 34
      so that no single literal is long: the verifier evaluates string
      literals character by character. */
  const Dashes: string :=
    "-----------------------------------" + "----------------------------------"

  /** The rule line printed above and below a heading. */
  const Rule: string := "echo \"" + Dashes + "\""

  predicate IsHeading(name: string) {
    name == "h1" || name == "h2" || name == "h3"
  }

  /** The four lines of the banner printed for a heading with text `text`. */
  function BannerLines(text: string): seq<string> {
    [Rule, "echo \"" + text + "\"", Rule, "echo \"\""]
  }

  /** The banner as one text, its lines joined by line feeds. */
  function Banner(text: string): string {
    JoinLines(BannerLines(text))
  }

  /** The guard a node declares: one for a `var` comment, none otherwise.
      It depends on the node alone, never on the state. */
  function NodeGuard(n: Node, f: Filters): seq<string> {
    if n.name == "#comment" then BodyGuard(CommentBody(f.unescape(n.text))) else []
  }

  /** One iteration of `processData`: a comment is unescaped and read as an
      annotation; a code block is sanitized, unescaped and handed to the
      annotation state; a heading is sanitized, unescaped and printed as a
      banner; any other name contributes nothing. Only comments raise the
      flags, only code blocks lower them, and the guards a node appends are
      the node's own. */
  function ProcessNode(n: Node, f: Filters, st: State): (step: Step)
    ensures Consistent(st) ==> Consistent(step.state)
    ensures step.state.variables == st.variables + NodeGuard(n, f)
    ensures n.name != "code" ==> (st.command ==> step.state.command) && (st.debug ==> step.state.debug)
    ensures n.name != "#comment" ==> (step.state.command ==> st.command) && (step.state.debug ==> st.debug)
  {
    if n.name == "#comment" then
      ProcessComment(f.unescape(n.text), st)
    else if n.name == "code" then
      ProcessCode(f.unescape(f.sanitize(n.text)), st)
    else if IsHeading(n.name) then
      Step(Banner(f.unescape(f.sanitize(n.text))), st)
    else
      Step("", st)
  }

  /** The steps of a run over `sel` from state `st`: each node is processed
      in the state its predecessor left behind. */
  function Run(sel: seq<Node>, f: Filters, st: State): (steps: seq<Step>)
    ensures |steps| == |sel|
    decreases |sel|
  {
    if |sel| == 0 then []
    else
      var first := ProcessNode(sel[0], f, st);
      [first] + Run(sel[1..], f, first.state)
  }

  /** The state a run over `sel` from `st` leaves behind. */
  function Final(sel: seq<Node>, f: Filters, st: State): State
    decreases |sel|
  {
    if |sel| == 0 then st
    else Final(sel[1..], f, ProcessNode(sel[0], f, st).state)
  }

  /** The statements of a run: the non-empty results, in order. */
  function Emitted(steps: seq<Step>): (out: seq<string>)
    ensures |out| <= |steps|
    ensures forall k | 0 <= k < |out| :: out[k] != ""
  {
    if |steps| == 0 then []
    else (if steps[0].emitted != "" then [steps[0].emitted] else []) + Emitted(steps[1..])
  }

  /** The guards declared by the nodes of `sel`, in node order. */
  function Guards(sel: seq<Node>, f: Filters): seq<string>
    decreases |sel|
  {
    if |sel| == 0 then [] else NodeGuard(sel[0], f) + Guards(sel[1..], f)
  }

  /** The first step of a run processes the first node in the starting
      state, and the run continues from the state it leaves. */
  lemma RunFirst(sel: seq<Node>, f: Filters, st: State)
    requires |sel| > 0
    ensures var first := ProcessNode(sel[0], f, st);
            Run(sel, f, st) == [first] + Run(sel[1..], f, first.state)
            && Final(sel, f, st) == Final(sel[1..], f, first.state)
  {
  }

  /** The first step of a run processes its node in the starting state, and
      each later step processes its node in the state the previous step
      left. */
  lemma {:induction false} RunSteps(sel: seq<Node>, f: Filters, st: State)
    ensures |sel| > 0 ==> Run(sel, f, st)[0] == ProcessNode(sel[0], f, st)
    ensures var steps := Run(sel, f, st);
            forall i | 0 < i < |sel| :: steps[i] == ProcessNode(sel[i], f, steps[i - 1].state)
    decreases |sel|
  {
    if |sel| > 0 {
      var first := ProcessNode(sel[0], f, st);
      var tail := Run(sel[1..], f, first.state);
      RunFirst(sel, f, st);
      RunSteps(sel[1..], f, first.state);
      forall i | 0 < i < |sel|
        ensures Run(sel, f, st)[i] == ProcessNode(sel[i], f, Run(sel, f, st)[i - 1].state)
      {
        assert Run(sel, f, st)[i] == tail[i - 1];
        assert sel[1..][i - 1] == sel[i];
        if i > 1 {
          assert Run(sel, f, st)[i - 1] == tail[i - 2];
        }
      }
    }
  }

  /** A run ends in the state its last step leaves. */
  lemma {:induction false} RunLast(sel: seq<Node>, f: Filters, st: State)
    requires |sel| > 0
    ensures Final(sel, f, st) == Run(sel, f, st)[|sel| - 1].state
    decreases |sel|
  {
    var first := ProcessNode(sel[0], f, st);
    RunFirst(sel, f, st);
    if |sel| > 1 {
      RunLast(sel[1..], f, first.state);
    }
  }

  /** From a consistent state every step of a run leaves a consistent state:
      `debug` is never pending without `command`. */
  lemma {:induction false} RunConsistent(sel: seq<Node>, f: Filters, st: State)
    requires Consistent(st)
    ensures forall i | 0 <= i < |sel| :: Consistent(Run(sel, f, st)[i].state)
    ensures Consistent(Final(sel, f, st))
    decreases |sel|
  {
    if |sel| > 0 {
      var first := ProcessNode(sel[0], f, st);
      RunConsistent(sel[1..], f, first.state);
      assert Run(sel, f, st) == [first] + Run(sel[1..], f, first.state);
    }
  }

  /** Whether a node is a `command` or `debug` comment: the only nodes that
      raise a flag. */
  predicate RaisesFlag(n: Node, f: Filters) {
    n.name == "#comment" && CommentBody(f.unescape(n.text)) in {"command", "debug"}
  }

  /** Without a `command` or `debug` comment, no flag is ever raised along a
      run that starts with none, so every code block of the run is dropped. */
  lemma {:induction false} NoAnnotationNoCode(sel: seq<Node>, f: Filters, st: State)
    requires !st.command && !st.debug
    requires forall i | 0 <= i < |sel| :: !RaisesFlag(sel[i], f)
    ensures forall i | 0 <= i < |sel| :: !Run(sel, f, st)[i].state.command && !Run(sel, f, st)[i].state.debug
    ensures forall i | 0 <= i < |sel| && sel[i].name == "code" :: Run(sel, f, st)[i].emitted == ""
    decreases |sel|
  {
    if |sel| > 0 {
      var first := ProcessNode(sel[0], f, st);
      assert !RaisesFlag(sel[0], f);
      var rest := Run(sel[1..], f, first.state);
      NoAnnotationNoCode(sel[1..], f, first.state);
      assert Run(sel, f, st) == [first] + rest;
      forall i | 0 < i < |sel|
        ensures Run(sel, f, st)[i] == rest[i - 1] && sel[i] == sel[1..][i - 1]
      {
      }
    }
  }

  /** The guards a run leaves are the starting ones followed by those the
      `var` comments of `sel` declare, one per such comment and in order,
      whatever the flags were along the way (repeats included). */
  lemma {:induction false} FinalVariables(sel: seq<Node>, f: Filters, st: State)
    ensures Final(sel, f, st).variables == st.variables + Guards(sel, f)
    decreases |sel|
  {
    if |sel| > 0 {
      var next := ProcessNode(sel[0], f, st).state;
      FinalVariables(sel[1..], f, next);
      FinalVariablesStep(sel, f, st, next);
    } else {
      assert st.variables + [] == st.variables;
    }
  }

  /** The inductive step of `FinalVariables`: the first node's guard comes
      before those of the rest. */
  lemma FinalVariablesStep(sel: seq<Node>, f: Filters, st: State, next: State)
    requires |sel| > 0 && next == ProcessNode(sel[0], f, st).state
    requires Final(sel[1..], f, next).variables == next.variables + Guards(sel[1..], f)
    ensures Final(sel, f, st).variables == st.variables + Guards(sel, f)
  {
    assert next.variables == st.variables + NodeGuard(sel[0], f);
    AppendAssoc(st.variables, NodeGuard(sel[0], f), Guards(sel[1..], f));
  }

  lemma AppendAssoc(a: seq<string>, b: seq<string>, c: seq<string>)
    ensures a + b + c == a + (b + c)
  {
  }

  /** Every position moved one step to the right. */
  function Shift(idx: seq<nat>): (r: seq<nat>)
    ensures |r| == |idx|
    ensures forall k | 0 <= k < |idx| :: r[k] == idx[k] + 1
  {
    seq(|idx|, k requires 0 <= k < |idx| => idx[k] + 1)
  }

  /** The positions of the steps with a non-empty result, in order. */
  function Sources(steps: seq<Step>): (idx: seq<nat>)
    ensures |idx| == |Emitted(steps)|
    ensures forall k | 0 <= k < |idx| :: idx[k] < |steps|
    decreases |steps|
  {
    if |steps| == 0 then []
    else (if steps[0].emitted != "" then [0] else []) + Shift(Sources(steps[1..]))
  }

  /** `Sources` and `Emitted` at one index: a first step with a result is
      source 0 and gives statement 0; every later source is one of the
      rest's, moved one step right, and gives that source's statement. */
  lemma SourceAt(steps: seq<Step>, k: int)
    requires |steps| > 0 && 0 <= k < |Sources(steps)|
    ensures var h := if steps[0].emitted != "" then 1 else 0;
            && |Sources(steps)| == h + |Sources(steps[1..])|
            && (k < h ==> Sources(steps)[k] == 0 && Emitted(steps)[k] == steps[0].emitted)
            && (h <= k ==> Sources(steps)[k] == Sources(steps[1..])[k - h] + 1
                           && Emitted(steps)[k] == Emitted(steps[1..])[k - h])
  {
    var head: seq<nat> := if steps[0].emitted != "" then [0] else [];
    var said := if steps[0].emitted != "" then [steps[0].emitted] else [];
    var rest := Sources(steps[1..]);
    assert Sources(steps) == head + Shift(rest);
    assert Emitted(steps) == said + Emitted(steps[1..]);
    if |head| <= k {
      assert Sources(steps)[k] == Shift(rest)[k - |head|];
    }
  }

  /** The k-th statement is the result of the step at the k-th source. */
  lemma {:induction false} SourcesPick(steps: seq<Step>)
    ensures forall k | 0 <= k < |Sources(steps)| :: Emitted(steps)[k] == steps[Sources(steps)[k]].emitted
    decreases |steps|
  {
    if |steps| > 0 {
      var rest := steps[1..];
      SourcesPick(rest);
      forall k | 0 <= k < |Sources(steps)|
        ensures Emitted(steps)[k] == steps[Sources(steps)[k]].emitted
      {
        SourceAt(steps, k);
        var h := if steps[0].emitted != "" then 1 else 0;
        if h <= k {
          assert rest[Sources(rest)[k - h]] == steps[Sources(steps)[k]];
        }
      }
    }
  }

  /** The sources are strictly increasing: the statements keep the order of
      the nodes that produced them. */
  lemma {:induction false} SourcesIncreasing(steps: seq<Step>)
    ensures forall k, m | 0 <= k < m < |Sources(steps)| :: Sources(steps)[k] < Sources(steps)[m]
    decreases |steps|
  {
    if |steps| > 0 {
      SourcesIncreasing(steps[1..]);
      forall k, m | 0 <= k < m < |Sources(steps)|
        ensures Sources(steps)[k] < Sources(steps)[m]
      {
        SourceAt(steps, k);
        SourceAt(steps, m);
      }
    }
  }

  /** Every step with a non-empty result is a source: no statement is
      dropped. */
  lemma {:induction false} SourcesComplete(steps: seq<Step>)
    ensures forall j | 0 <= j < |steps| && steps[j].emitted != "" :: j in Sources(steps)
    decreases |steps|
  {
    if |steps| > 0 {
      var rest := steps[1..];
      SourcesComplete(rest);
      var h := if steps[0].emitted != "" then 1 else 0;
      forall j | 0 <= j < |steps| && steps[j].emitted != ""
        ensures j in Sources(steps)
      {
        if j == 0 {
          SourceAt(steps, 0);
        } else {
          assert rest[j - 1] == steps[j];
          var k :| 0 <= k < |Sources(rest)| && Sources(rest)[k] == j - 1;
          SourceAt(steps, k + h);
        }
      }
    }
  }

  /** A heading is printed as the four-line banner around its filtered text,
      and neither reads nor changes the annotation state. */
  lemma HeadingStep(n: Node, f: Filters, st: State)
    requires IsHeading(n.name)
    ensures var text := f.unescape(f.sanitize(n.text));
            ProcessNode(n, f, st)
            == Step(Rule + "\n" + ("echo \"" + text + "\"") + "\n" + Rule + "\n" + "echo \"\"", st)
  {
    JoinFour(Rule, "echo \"" + f.unescape(f.sanitize(n.text)) + "\"", Rule, "echo \"\"");
  }

  lemma JoinFour(a: string, b: string, c: string, d: string)
    ensures JoinLines([a, b, c, d]) == a + "\n" + b + "\n" + c + "\n" + d
  {
    assert [c, d][1..] == [d];
    assert JoinLines([c, d]) == c + "\n" + d;
    assert [b, c, d][1..] == [c, d];
    assert JoinLines([b, c, d]) == b + "\n" + (c + "\n" + d);
    assert [a, b, c, d][1..] == [b, c, d];
    assert JoinLines([a, b, c, d]) == a + "\n" + (b + "\n" + (c + "\n" + d));
  }

  /** Split at its line feeds, a heading's output gives back the four banner
      lines, provided the heading's text holds no line feed of its own. */
  lemma HeadingLines(n: Node, f: Filters, st: State)
    requires IsHeading(n.name)
    requires '\n' !in f.unescape(f.sanitize(n.text))
    ensures SplitOn(ProcessNode(n, f, st).emitted, '\n') == BannerLines(f.unescape(f.sanitize(n.text)))
  {
    var lines := BannerLines(f.unescape(f.sanitize(n.text)));
    assert '\n' !in lines[0];
    assert '\n' !in lines[1];
    assert '\n' !in lines[3];
    SplitJoinLines(lines);
  }

  /** A node of any other name contributes nothing and changes nothing. */
  lemma OtherStep(n: Node, f: Filters, st: State)
    requires n.name != "#comment" && n.name != "code" && !IsHeading(n.name)
    ensures ProcessNode(n, f, st) == Step("", st)
  {
  }

  /** A run from position `i` is the step at `i` followed by the run from
      `i + 1` in the state that step leaves. */
  lemma RunStep(sel: seq<Node>, i: nat, f: Filters, st: State)
    requires i < |sel|
    ensures var step := ProcessNode(sel[i], f, st);
            && Emitted(Run(sel[i..], f, st))
               == (if step.emitted != "" then [step.emitted] else []) + Emitted(Run(sel[i + 1..], f, step.state))
            && Final(sel[i..], f, st) == Final(sel[i + 1..], f, step.state)
  {
    assert sel[i..][0] == sel[i];
    assert sel[i..][1..] == sel[i + 1..];
  }

  /** `processData`: the statements of the selected nodes, and the state the
      run leaves (whose `variables` are the guards the script declares). */
  method ProcessData(sel: seq<Node>, f: Filters) returns (commands: seq<string>, final: State)
    ensures commands == Emitted(Run(sel, f, Init))
    ensures final == Final(sel, f, Init)
    ensures forall k | 0 <= k < |commands| :: commands[k] != ""
    ensures Consistent(final)
    ensures final.variables == Guards(sel, f)
  {
    FinalVariables(sel, f, Init);
    commands := [];
    var st := Init;
    var i := 0;
    assert sel[i..] == sel;
    while i < |sel|
      invariant 0 <= i <= |sel|
      invariant Consistent(st)
      invariant commands + Emitted(Run(sel[i..], f, st)) == Emitted(Run(sel, f, Init))
      invariant Final(sel[i..], f, st) == Final(sel, f, Init)
      decreases |sel| - i
    {
      var step := ProcessNode(sel[i], f, st);
      RunStep(sel, i, f, st);
      var now := if step.emitted != "" then [step.emitted] else [];
      var later := Emitted(Run(sel[i + 1..], f, step.state));
      AppendAssoc(commands, now, later);
      if step.emitted != "" {
        commands := commands + [step.emitted];
      } else {
        assert commands + now == commands;
      }
      st := step.state;
      i := i + 1;
    }
    assert sel[i..] == [];
    assert commands + [] == commands;
    final := st;
  }

  /** `getCommandsAndActions` after parsing: walk the children of the
      document body and reduce the selection. */
  method GetCommandsAndActions(body: Node, f: Filters) returns (commands: seq<string>, final: State)
    ensures commands == Emitted(Run(Select(body), f, Init))
    ensures final == Final(Select(body), f, Init)
    ensures forall k | 0 <= k < |commands| :: commands[k] != ""
    ensures Consistent(final)
  {
    var sel := VisitNodes(TagsToRead, [], body);
    commands, final := ProcessData(sel, f);
  }
}
