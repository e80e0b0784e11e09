/** Properties of the parse_file loop: it agrees with the parse-then-execute reference,
    every keyword consumes the lines and touches the state components the source says,
    transforms compose newest-leftmost, and nothing after `quit` has an effect. */
module Properties {
  import opened Tokenizer
  import opened Geometry
  import opened Interpreter
  import opened Commands

  /** One round of the loop is one parsed command executed. */
  lemma StepMatchesParse<N, M>(g: Primitives<N, M>, lines: seq<string>, st: State<M>)
    requires lines != []
    ensures var r := ParseCommand(g, lines);
      Step(g, lines, st) == if r.Bad? then Stuck(r.fault) else Next(Exec(g, r.command, st), r.rest)
  {
    if lines[0] != "" {
      var word := Strip(lines[0]);
      if TakesArgument(word) {
        var f := FetchArgument(word, lines[1..]);
        if f.read != "" {
          if word == "line" {
            StepLine(g, lines, f, st);
          } else if word == "scale" {
            StepScale(g, lines, f, st);
          } else if word == "move" {
            StepMove(g, lines, f, st);
          } else if word == "rotate" {
            StepRotate(g, lines, f, st);
          } else {
            StepSave(g, lines, f, st);
          }
        }
      }
    }
  }

  lemma StepLine<N, M>(g: Primitives<N, M>, lines: seq<string>, f: Fetched, st: State<M>)
    requires lines != [] && lines[0] != "" && Strip(lines[0]) == "line"
    requires f == FetchArgument("line", lines[1..]) && f.read != ""
    ensures var r := ParseArguments(g, "line", ParseArgs(Strip(f.read), Blank), f.rest);
      Step(g, lines, st) == if r.Bad? then Stuck(r.fault) else Next(Exec(g, r.command, st), r.rest)
  {
  }

  lemma StepScale<N, M>(g: Primitives<N, M>, lines: seq<string>, f: Fetched, st: State<M>)
    requires lines != [] && lines[0] != "" && Strip(lines[0]) == "scale"
    requires f == FetchArgument("scale", lines[1..]) && f.read != ""
    ensures var r := ParseArguments(g, "scale", ParseArgs(Strip(f.read), Blank), f.rest);
      Step(g, lines, st) == if r.Bad? then Stuck(r.fault) else Next(Exec(g, r.command, st), r.rest)
  {
  }

  lemma StepMove<N, M>(g: Primitives<N, M>, lines: seq<string>, f: Fetched, st: State<M>)
    requires lines != [] && lines[0] != "" && Strip(lines[0]) == "move"
    requires f == FetchArgument("move", lines[1..]) && f.read != ""
    ensures var r := ParseArguments(g, "move", ParseArgs(Strip(f.read), Blank), f.rest);
      Step(g, lines, st) == if r.Bad? then Stuck(r.fault) else Next(Exec(g, r.command, st), r.rest)
  {
  }

  lemma StepRotate<N, M>(g: Primitives<N, M>, lines: seq<string>, f: Fetched, st: State<M>)
    requires lines != [] && lines[0] != "" && Strip(lines[0]) == "rotate"
    requires f == FetchArgument("rotate", lines[1..]) && f.read != ""
    ensures var r := ParseArguments(g, "rotate", ParseArgs(Strip(f.read), Blank), f.rest);
      Step(g, lines, st) == if r.Bad? then Stuck(r.fault) else Next(Exec(g, r.command, st), r.rest)
  {
  }

  lemma StepSave<N, M>(g: Primitives<N, M>, lines: seq<string>, f: Fetched, st: State<M>)
    requires lines != [] && lines[0] != "" && Strip(lines[0]) == "save"
    requires f == FetchArgument("save", lines[1..]) && f.read != ""
    ensures var r := ParseArguments(g, "save", ParseArgs(Strip(f.read), Blank), f.rest);
      Step(g, lines, st) == if r.Bad? then Stuck(r.fault) else Next(Exec(g, r.command, st), r.rest)
  {
  }

  /** One round of the loop, then the loop on what is left. */
  lemma RunNext<N, M>(g: Primitives<N, M>, lines: seq<string>, st: State<M>)
    requires !st.halted && lines != []
    ensures var s := Step(g, lines, st);
      Run(g, lines, st) == if s.Stuck? then Faulted(s.fault) else Run(g, s.rest, s.state)
  {
  }

  lemma RunStep<N, M>(g: Primitives<N, M>, lines: seq<string>, st: State<M>)
    requires !st.halted && lines != []
    ensures var r := ParseCommand(g, lines);
      Run(g, lines, st) == if r.Bad? then Faulted(r.fault) else Run(g, r.rest, Exec(g, r.command, st))
  {
    StepMatchesParse(g, lines, st);
  }

  /** The loop of parse_file is the parser followed by the executor. */
  lemma {:induction false} RunMatchesParse<N, M>(g: Primitives<N, M>, lines: seq<string>, st: State<M>)
    ensures Run(g, lines, st) == Interpret(g, Parse(g, lines), st)
    decreases |lines|
  {
    if !st.halted && lines != [] {
      RunStep(g, lines, st);
      match ParseCommand(g, lines)
      case Bad(f) =>
      case Read(c, rest) =>
        RunMatchesParse(g, rest, Exec(g, c, st));
        var p := Parse(g, rest);
        assert ([c] + p.commands)[1..] == p.commands;
    }
  }

  /** Argument-line consumption: a command that reads defined arguments is followed by the
      line after its parameter line when it takes one, and by the very next line
      otherwise, so the line after `ident`, `apply`, `display` or an unknown keyword is
      dispatched as a command. */
  lemma RunConsumes<N, M>(g: Primitives<N, M>, lines: seq<string>, st: State<M>)
    requires !st.halted && lines != [] && ParseCommand(g, lines).Read?
    ensures lines[0] != ""
    ensures Run(g, lines, st) ==
      Run(g, lines[ArgumentLines(lines)..], Exec(g, ParseCommand(g, lines).command, st))
  {
    RunStep(g, lines, st);
  }

  /** `line` reads six numbers from its parameter line, appends one edge built from the
      first six tokens in order, and changes nothing else; with fewer tokens atof would
      read a NULL slot. */
  lemma RunLine<N, M>(g: Primitives<N, M>, k: string, arg: string, rest: seq<string>, st: State<M>)
    requires !st.halted && k != "" && Strip(k) == "line" && arg != ""
    ensures var ts := Tokens(Strip(arg), Blank);
      Run(g, [k, arg] + rest, st) ==
        if |ts| < 6 then Faulted(MissingArgument)
        else Run(g, rest, st.(edges := g.addEdge(st.edges,
                 g.atof(ts[0]), g.atof(ts[1]), g.atof(ts[2]),
                 g.atof(ts[3]), g.atof(ts[4]), g.atof(ts[5]))))
  {
    assert ([k, arg] + rest)[1..][1..] == rest;
    RunNext(g, [k, arg] + rest, st);
  }

  /** `ident` resets the transform and reads no parameter line. */
  lemma RunIdent<N, M>(g: Primitives<N, M>, k: string, rest: seq<string>, st: State<M>)
    requires !st.halted && k != "" && Strip(k) == "ident"
    ensures Run(g, [k] + rest, st) == Run(g, rest, st.(transform := g.identity))
  {
    assert ([k] + rest)[1..] == rest;
    RunNext(g, [k] + rest, st);
  }

  /** `scale` composes a scale matrix whose three factors all come from the first token. */
  lemma RunScale<N, M>(g: Primitives<N, M>, k: string, arg: string, rest: seq<string>, st: State<M>)
    requires !st.halted && k != "" && Strip(k) == "scale" && arg != ""
    ensures var ts := Tokens(Strip(arg), Blank);
      Run(g, [k, arg] + rest, st) ==
        if |ts| < 1 then Faulted(MissingArgument)
        else
          var s := g.atof(ts[0]);
          Run(g, rest, st.(transform := g.mult(g.makeScale(s, s, s), st.transform)))
  {
    assert ([k, arg] + rest)[1..][1..] == rest;
    RunNext(g, [k, arg] + rest, st);
  }

  /** `move` composes a translation built from the first three tokens. */
  lemma RunMove<N, M>(g: Primitives<N, M>, k: string, arg: string, rest: seq<string>, st: State<M>)
    requires !st.halted && k != "" && Strip(k) == "move" && arg != ""
    ensures var ts := Tokens(Strip(arg), Blank);
      Run(g, [k, arg] + rest, st) ==
        if |ts| < 3 then Faulted(MissingArgument)
        else
          var m := g.makeTranslate(g.atof(ts[0]), g.atof(ts[1]), g.atof(ts[2]));
          Run(g, rest, st.(transform := g.mult(m, st.transform)))
  {
    assert ([k, arg] + rest)[1..][1..] == rest;
    RunNext(g, [k, arg] + rest, st);
  }

  /** `rotate` picks the constructor by the first token and passes the second token's
      value unconverted; any other axis leaves the rotate matrix uninitialised. */
  lemma RunRotate<N, M>(g: Primitives<N, M>, k: string, arg: string, rest: seq<string>, st: State<M>)
    requires !st.halted && k != "" && Strip(k) == "rotate" && arg != ""
    ensures var ts := Tokens(Strip(arg), Blank);
      Run(g, [k, arg] + rest, st) ==
        if |ts| < 2 then Faulted(MissingArgument)
        else
          var theta := g.atof(ts[1]);
          if ts[0] == "x" then Run(g, rest, st.(transform := g.mult(g.makeRotX(theta), st.transform)))
          else if ts[0] == "y" then Run(g, rest, st.(transform := g.mult(g.makeRotY(theta), st.transform)))
          else if ts[0] == "z" then Run(g, rest, st.(transform := g.mult(g.makeRotZ(theta), st.transform)))
          else Faulted(BadAxis)
  {
    assert ([k, arg] + rest)[1..][1..] == rest;
    RunNext(g, [k, arg] + rest, st);
  }

  /** `apply` multiplies the transform onto the edges and keeps the transform. */
  lemma RunApply<N, M>(g: Primitives<N, M>, k: string, rest: seq<string>, st: State<M>)
    requires !st.halted && k != "" && Strip(k) == "apply"
    ensures Run(g, [k] + rest, st) == Run(g, rest, st.(edges := g.mult(st.transform, st.edges)))
  {
    assert ([k] + rest)[1..] == rest;
    RunNext(g, [k] + rest, st);
  }

  /** `display` only draws the current edges; transform and edges stay. */
  lemma RunDisplay<N, M>(g: Primitives<N, M>, k: string, rest: seq<string>, st: State<M>)
    requires !st.halted && k != "" && Strip(k) == "display"
    ensures Run(g, [k] + rest, st) == Run(g, rest, st.(renders := st.renders + [Drawn(st.edges)]))
  {
    assert ([k] + rest)[1..] == rest;
    RunNext(g, [k] + rest, st);
  }

  /** `save` draws the edges and saves under the first token (NULL when there is none);
      transform and edges stay. */
  lemma RunSave<N, M>(g: Primitives<N, M>, k: string, arg: string, rest: seq<string>, st: State<M>)
    requires !st.halted && k != "" && Strip(k) == "save" && arg != ""
    ensures var ts := Tokens(Strip(arg), Blank);
      var name := if ts == [] then None else Some(ts[0]);
      Run(g, [k, arg] + rest, st) == Run(g, rest, st.(renders := st.renders + [Saved(st.edges, name)]))
  {
    assert ([k, arg] + rest)[1..][1..] == rest;
    RunNext(g, [k, arg] + rest, st);
  }

  /** An unrecognised keyword changes nothing and reads no parameter line. */
  lemma RunUnknown<N, M>(g: Primitives<N, M>, k: string, rest: seq<string>, st: State<M>)
    requires !st.halted && k != "" && !IsKeyword(Strip(k))
    ensures Run(g, [k] + rest, st) == Run(g, rest, st)
  {
    assert ([k] + rest)[1..] == rest;
    RunNext(g, [k] + rest, st);
  }

  /** `quit` ends the run: no later line has any effect, whatever it holds. */
  lemma RunQuit<N, M>(g: Primitives<N, M>, k: string, rest: seq<string>, st: State<M>)
    requires !st.halted && k != "" && Strip(k) == "quit"
    ensures Run(g, [k] + rest, st) == Finished(st.(halted := true))
  {
    assert ([k] + rest)[1..] == rest;
    RunNext(g, [k] + rest, st);
  }

  /** `scale` on the last line: the failed fgets leaves the stripped keyword in the
      buffer, which is stripped once more, so the factor is atof("scal"). */
  lemma RunScaleAtEndOfInput<N, M>(g: Primitives<N, M>, k: string, st: State<M>)
    requires !st.halted && k != "" && Strip(k) == "scale"
    ensures var s := g.atof("scal");
      Run(g, [k], st) == Finished(st.(transform := g.mult(g.makeScale(s, s, s), st.transform)))
  {
    LastKeywordArgument(k, "scal");
  }

  /** `save` on the last line saves under "sav", read the same way. */
  lemma RunSaveAtEndOfInput<N, M>(g: Primitives<N, M>, k: string, st: State<M>)
    requires !st.halted && k != "" && Strip(k) == "save"
    ensures Run(g, [k], st) == Finished(st.(renders := st.renders + [Saved(st.edges, Some("sav"))]))
  {
    LastKeywordArgument(k, "sav");
  }

  /** `line`, `move` and `rotate` on the last line read a single token where they need
      more, so atof reads a NULL slot. */
  lemma RunOthersAtEndOfInput<N, M>(g: Primitives<N, M>, k: string, st: State<M>)
    requires !st.halted && k != "" && (Strip(k) == "line" || Strip(k) == "move" || Strip(k) == "rotate")
    ensures Run(g, [k], st) == Faulted(MissingArgument)
  {
    LastKeywordArgument(k, Strip(Strip(k)));
  }

  lemma LastKeywordArgument(k: string, w: string)
    requires k != "" && TakesArgument(Strip(k)) && w == Strip(Strip(k))
    ensures w != "" && ParseArgs(w, Blank)[0] == Some(w) && ParseArgs(w, Blank)[1] == None
    ensures Strip(k) == "scale" ==> w == "scal"
    ensures Strip(k) == "save" ==> w == "sav"
  {
    assert Strip("scale") == "scal";
    assert Strip("save") == "sav";
    assert w != [] && DelimiterFree(w, Blank);
    TokensOfWord(w, Blank);
  }

  /** The composition of the elementary matrices of `cs` onto `t`, the last command's
      matrix leftmost. */
  function Composition<N, M>(g: Primitives<N, M>, cs: seq<Command<N>>, t: M): M
    requires forall i :: 0 <= i < |cs| ==> Composes(cs[i])
  {
    if cs == [] then t
    else g.mult(Elementary(g, cs[|cs| - 1]), Composition(g, cs[..|cs| - 1], t))
  }

  lemma {:induction false} ExecAllAppend<N, M>(g: Primitives<N, M>, cs: seq<Command<N>>, c: Command<N>, st: State<M>)
    requires !ExecAll(g, cs, st).halted
    ensures ExecAll(g, cs + [c], st) == Exec(g, c, ExecAll(g, cs, st))
    decreases |cs|
  {
    if cs == [] {
      assert [] + [c] == [c];
    } else {
      assert (cs + [c])[1..] == cs[1..] + [c];
      ExecAllAppend(g, cs[1..], c, Exec(g, cs[0], st));
    }
  }

  /** A run of scale, move and rotate commands leaves the product of their matrices in
      issue order, each new one multiplied on the left of the running transform. */
  lemma {:induction false} TransformIsComposition<N, M>(g: Primitives<N, M>, cs: seq<Command<N>>, st: State<M>)
    requires !st.halted
    requires forall i :: 0 <= i < |cs| ==> Composes(cs[i])
    ensures ExecAll(g, cs, st).transform == Composition(g, cs, st.transform)
    ensures ExecAll(g, cs, st).edges == st.edges
    decreases |cs|
  {
    if cs != [] {
      var init := cs[..|cs| - 1];
      var c := cs[|cs| - 1];
      assert cs == init + [c];
      TransformIsComposition(g, init, st);
      ExecAllAppend(g, init, c, st);
    }
  }

  /** `ident` forgets everything composed before it: afterwards the transform is the
      composition of the later elementary matrices onto the identity. */
  lemma IdentResets<N, M>(g: Primitives<N, M>, before: seq<Command<N>>, after: seq<Command<N>>, st: State<M>)
    requires !st.halted
    requires forall i :: 0 <= i < |before| ==> !before[i].Quit?
    requires forall i :: 0 <= i < |after| ==> Composes(after[i])
    ensures ExecAll(g, before + [Ident] + after, st).transform == Composition(g, after, g.identity)
  {
    var mid := ExecAll(g, before + [Ident], st);
    ExecAllAppend(g, before, Ident, st);
    ExecAllSplit(g, before + [Ident], after, st);
    TransformIsComposition(g, after, mid);
  }

  lemma {:induction false} ExecAllSplit<N, M>(g: Primitives<N, M>, a: seq<Command<N>>, b: seq<Command<N>>, st: State<M>)
    ensures ExecAll(g, a + b, st) == ExecAll(g, b, ExecAll(g, a, st))
    decreases |a|
  {
    if a == [] {
      assert a + b == b;
    } else if !st.halted {
      assert (a + b)[1..] == a[1..] + b;
      ExecAllSplit(g, a[1..], b, Exec(g, a[0], st));
    }
  }

  /** A script none of whose lines is `ident`, `scale`, `move` or `rotate` leaves the
      transform as it found it. */
  lemma {:induction false} RunKeepsTransform<N, M>(g: Primitives<N, M>, lines: seq<string>, st: State<M>)
    requires forall i :: 0 <= i < |lines| && lines[i] != "" ==>
      var w := Strip(lines[i]); w != "ident" && w != "scale" && w != "move" && w != "rotate"
    ensures Run(g, lines, st).Finished? ==> Run(g, lines, st).state.transform == st.transform
    decreases |lines|
  {
    if !st.halted && lines != [] {
      RunStep(g, lines, st);
      match ParseCommand(g, lines)
      case Bad(_) =>
      case Read(c, rest) =>
        assert !SetsTransform(c);
        RunKeepsTransform(g, rest, Exec(g, c, st));
    }
  }
}
