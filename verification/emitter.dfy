/**
 The layout of the generated script (`generateBashScript` in main.go): the
 entries written, in order, one per `Fprintln`, each followed by a line
 feed when written. An entry may itself hold line feeds (a guard, a
 heading banner, a multi-line command), so a script of n entries has at
 least n lines.
 */
module Emitter {

  /** The line that loads the shared shell helpers of the test suite. */
  const ImportUtils: string :=
    "source /dev/stdin <<<\"$( curl -sS "
    + "https://raw.githubusercontent.com/keptn/keptn/master/test/utils.sh)\""

  /** The four entries every script starts with, one line each. */
  const Preamble: seq<string> := ["#!/bin/bash", "set -e", ImportUtils, ""]

  /** Each entry followed by a blank entry. */
  function Spaced(xs: seq<string>): (r: seq<string>)
    ensures |r| == 2 * |xs|
    decreases |xs|
  {
    if |xs| == 0 then [] else [xs[0], ""] + Spaced(xs[1..])
  }

  /** Entry k of `xs` sits at entry 2k, and entry 2k + 1 is blank. */
  lemma {:induction false} SpacedAt(xs: seq<string>)
    ensures forall k | 0 <= k < |xs| :: Spaced(xs)[2 * k] == xs[k] && Spaced(xs)[2 * k + 1] == ""
    decreases |xs|
  {
    if |xs| > 0 {
      var rest := Spaced(xs[1..]);
      SpacedAt(xs[1..]);
      assert Spaced(xs) == [xs[0], ""] + rest;
      forall k | 1 <= k < |xs|
        ensures Spaced(xs)[2 * k] == xs[k] && Spaced(xs)[2 * k + 1] == ""
      {
        assert Spaced(xs)[2 * k] == rest[2 * (k - 1)];
        assert Spaced(xs)[2 * k + 1] == rest[2 * (k - 1) + 1];
        assert xs[1..][k - 1] == xs[k];
      }
    }
  }

  /** The entries of the script: the preamble, then every guard, then every
      statement, each of the latter followed by a blank entry. */
  function ScriptLines(variables: seq<string>, commands: seq<string>): seq<string> {
    Preamble + Spaced(variables) + Spaced(commands)
  }

  lemma {:induction false} SpacedAppend(a: seq<string>, b: seq<string>)
    ensures Spaced(a + b) == Spaced(a) + Spaced(b)
    decreases |a|
  {
    if |a| == 0 {
      assert a + b == b;
    } else {
      SpacedAppend(a[1..], b);
      assert (a + b)[1..] == a[1..] + b;
      assert [a[0], ""] + (Spaced(a[1..]) + Spaced(b)) == ([a[0], ""] + Spaced(a[1..])) + Spaced(b);
    }
  }

  /** The writing loops of `generateBashScript`: the preamble, then a guard
      and a blank entry per declared variable, then a statement and a blank
      entry per statement. */
  method GenerateBashScript(variables: seq<string>, commands: seq<string>) returns (lines: seq<string>)
    ensures lines == ScriptLines(variables, commands)
    ensures |lines| == 4 + 2 * |variables| + 2 * |commands|
  {
    lines := [];
    lines := lines + ["#!/bin/bash"];
    lines := lines + ["set -e"];
    lines := lines + [ImportUtils];
    lines := lines + [""];
    var i := 0;
    while i < |variables|
      invariant 0 <= i <= |variables|
      invariant lines == Preamble + Spaced(variables[..i])
    {
      SpacedAppend(variables[..i], [variables[i]]);
      assert variables[..i + 1] == variables[..i] + [variables[i]];
      lines := lines + [variables[i]];
      lines := lines + [""];
      i := i + 1;
    }
    assert variables[..i] == variables;
    var j := 0;
    while j < |commands|
      invariant 0 <= j <= |commands|
      invariant lines == Preamble + Spaced(variables) + Spaced(commands[..j])
    {
      SpacedAppend(commands[..j], [commands[j]]);
      assert commands[..j + 1] == commands[..j] + [commands[j]];
      lines := lines + [commands[j]];
      lines := lines + [""];
      j := j + 1;
    }
    assert commands[..j] == commands;
  }

  /** Where everything sits in the script, counted in entries (one
      `Fprintln` each; a guard or a heading banner is one entry holding
      several lines): the preamble first, the k-th guard at entry 4 + 2k,
      the k-th statement at entry 4 + 2m + 2k for m guards, and a blank
      entry after each; so every guard comes before every statement. */
  lemma ScriptLayout(variables: seq<string>, commands: seq<string>)
    ensures var lines := ScriptLines(variables, commands);
            && |lines| == 4 + 2 * |variables| + 2 * |commands|
            && lines[..4] == Preamble
            && (forall k | 0 <= k < |variables| :: lines[4 + 2 * k] == variables[k] && lines[5 + 2 * k] == "")
            && (forall k | 0 <= k < |commands| ::
                  lines[4 + 2 * |variables| + 2 * k] == commands[k] && lines[5 + 2 * |variables| + 2 * k] == "")
  {
    var lines := ScriptLines(variables, commands);
    var sv := Spaced(variables);
    var sc := Spaced(commands);
    SpacedAt(variables);
    SpacedAt(commands);
    assert lines == Preamble + sv + sc;
    forall k | 0 <= k < |variables|
      ensures lines[4 + 2 * k] == variables[k] && lines[5 + 2 * k] == ""
    {
      assert lines[4 + 2 * k] == sv[2 * k];
      assert lines[5 + 2 * k] == sv[2 * k + 1];
    }
    forall k | 0 <= k < |commands|
      ensures lines[4 + 2 * |variables| + 2 * k] == commands[k] && lines[5 + 2 * |variables| + 2 * k] == ""
    {
      assert lines[4 + 2 * |variables| + 2 * k] == sc[2 * k];
      assert lines[5 + 2 * |variables| + 2 * k] == sc[2 * k + 1];
    }
  }
}
