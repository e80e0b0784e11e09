/** Whole scripts run through the loop of parse_file, with their outcome worked out. */
module Scenarios {
  import opened Tokenizer
  import opened Geometry
  import opened Interpreter
  import opened Commands
  import opened Properties

  /** Tokenizing a parameter line written as words separated by single blanks. */
  lemma ParameterLine(arg: string, ws: seq<string>)
    requires arg != "" && Strip(arg) == Join(ws, ' ')
    requires forall i :: 0 <= i < |ws| ==> ws[i] != "" && DelimiterFree(ws[i], Blank)
    ensures Tokens(Strip(arg), Blank) == ws
  {
    TokensOfJoin(ws, ' ', Blank);
  }

  lemma SixNumbers()
    ensures Tokens(Strip("1 0 0 0 1 0\n"), Blank) == ["1", "0", "0", "0", "1", "0"]
  {
    var ws := ["1", "0", "0", "0", "1", "0"];
    assert Join(ws[5..], ' ') == "0";
    assert Join(ws[4..], ' ') == "1 0" by { assert ws[4..][1..] == ws[5..]; }
    assert Join(ws[3..], ' ') == "0 1 0" by { assert ws[3..][1..] == ws[4..]; }
    assert Join(ws[2..], ' ') == "0 0 1 0" by { assert ws[2..][1..] == ws[3..]; }
    assert Join(ws[1..], ' ') == "0 0 0 1 0" by { assert ws[1..][1..] == ws[2..]; }
    assert Join(ws, ' ') == "1 0 0 0 1 0" by { assert ws[1..] == ws[1..]; }
    ParameterLine("1 0 0 0 1 0\n", ws);
  }

  /** ident; scale 2 2 2; line 1 0 0 0 1 0; apply; quit: the edge (1,0,0)-(0,1,0) is
      added untransformed and `apply` multiplies the composed scale onto it. */
  lemma ScaleThenApply<N, M>(g: Primitives<N, M>, st: State<M>)
    requires !st.halted
    ensures
      var script := ["ident\n", "scale\n", "2 2 2\n", "line\n", "1 0 0 0 1 0\n", "apply\n", "quit\n"];
      var two, one, zero := g.atof("2"), g.atof("1"), g.atof("0");
      var t := g.mult(g.makeScale(two, two, two), g.identity);
      var e := g.addEdge(st.edges, one, zero, zero, zero, one, zero);
      Run(g, script, st) == Finished(State(t, g.mult(t, e), st.renders, true))
  {
    var two, one, zero := g.atof("2"), g.atof("1"), g.atof("0");
    var s1 := st.(transform := g.identity);
    var s2 := s1.(transform := g.mult(g.makeScale(two, two, two), s1.transform));
    var s3 := s2.(edges := g.addEdge(s2.edges, one, zero, zero, zero, one, zero));
    var s4 := s3.(edges := g.mult(s3.transform, s3.edges));
    ScriptShape("ident\n", "scale\n", "2 2 2\n", "line\n", "1 0 0 0 1 0\n", "apply\n", "quit\n");
    IdentCommand(g, ["scale\n", "2 2 2\n", "line\n", "1 0 0 0 1 0\n", "apply\n", "quit\n"], st);
    ScaleByTwo(g, ["line\n", "1 0 0 0 1 0\n", "apply\n", "quit\n"], s1);
    UnitEdge(g, ["apply\n", "quit\n"], s2);
    ApplyCommand(g, ["quit\n"], s3);
    QuitCommand(g, [], s4);
  }

  /** How a seven-line script of one-, two-, two-, one- and one-line commands splits. */
  lemma ScriptShape(a: string, b: string, c: string, d: string, e: string, f: string, h: string)
    ensures [a] + [b, c, d, e, f, h] == [a, b, c, d, e, f, h]
    ensures [b, c] + [d, e, f, h] == [b, c, d, e, f, h]
    ensures [d, e] + [f, h] == [d, e, f, h]
    ensures [f] + [h] == [f, h] && [h] + [] == [h]
  {
  }

  lemma IdentCommand<N, M>(g: Primitives<N, M>, rest: seq<string>, st: State<M>)
    requires !st.halted
    ensures Run(g, ["ident\n"] + rest, st) == Run(g, rest, st.(transform := g.identity))
  {
    assert Strip("ident\n") == "ident";
    RunIdent(g, "ident\n", rest, st);
  }

  lemma ScaleByTwo<N, M>(g: Primitives<N, M>, rest: seq<string>, st: State<M>)
    requires !st.halted
    ensures var two := g.atof("2");
      Run(g, ["scale\n", "2 2 2\n"] + rest, st)
        == Run(g, rest, st.(transform := g.mult(g.makeScale(two, two, two), st.transform)))
  {
    assert Strip("scale\n") == "scale";
    ThreeTwos();
    RunScale(g, "scale\n", "2 2 2\n", rest, st);
  }

  lemma UnitEdge<N, M>(g: Primitives<N, M>, rest: seq<string>, st: State<M>)
    requires !st.halted
    ensures var one, zero := g.atof("1"), g.atof("0");
      Run(g, ["line\n", "1 0 0 0 1 0\n"] + rest, st)
        == Run(g, rest, st.(edges := g.addEdge(st.edges, one, zero, zero, zero, one, zero)))
  {
    assert Strip("line\n") == "line";
    SixNumbers();
    RunLine(g, "line\n", "1 0 0 0 1 0\n", rest, st);
  }

  lemma ApplyCommand<N, M>(g: Primitives<N, M>, rest: seq<string>, st: State<M>)
    requires !st.halted
    ensures Run(g, ["apply\n"] + rest, st) == Run(g, rest, st.(edges := g.mult(st.transform, st.edges)))
  {
    assert Strip("apply\n") == "apply";
    RunApply(g, "apply\n", rest, st);
  }

  lemma QuitCommand<N, M>(g: Primitives<N, M>, rest: seq<string>, st: State<M>)
    requires !st.halted
    ensures Run(g, ["quit\n"] + rest, st) == Finished(st.(halted := true))
  {
    assert Strip("quit\n") == "quit";
    RunQuit(g, "quit\n", rest, st);
  }

  lemma ThreeTwos()
    ensures Tokens(Strip("2 2 2\n"), Blank) == ["2", "2", "2"]
  {
    var ws := ["2", "2", "2"];
    assert Join(ws[2..], ' ') == "2";
    assert Join(ws[1..], ' ') == "2 2" by { assert ws[1..][1..] == ws[2..]; }
    assert Join(ws, ' ') == "2 2 2";
    ParameterLine("2 2 2\n", ws);
  }

  /** rotate w 45: the axis is neither x, y nor z, so the C code would multiply an
      uninitialised matrix into the transform. */
  lemma RotateBadAxis<N, M>(g: Primitives<N, M>, st: State<M>)
    requires !st.halted
    ensures Run(g, ["rotate\n", "w 45\n"], st) == Faulted(BadAxis)
  {
    assert Strip("rotate\n") == "rotate";
    ParameterLine("w 45\n", ["w", "45"]);
    RunRotate(g, "rotate\n", "w 45\n", [], st);
    assert ["rotate\n", "w 45\n"] + [] == ["rotate\n", "w 45\n"];
  }

  /** quit; ident; apply: neither later command executes. */
  lemma QuitStopsPending<N, M>(g: Primitives<N, M>, st: State<M>)
    requires !st.halted
    ensures Run(g, ["quit\n", "ident\n", "apply\n"], st) == Finished(st.(halted := true))
  {
    assert Strip("quit\n") == "quit";
    RunQuit(g, "quit\n", ["ident\n", "apply\n"], st);
    assert ["quit\n"] + ["ident\n", "apply\n"] == ["quit\n", "ident\n", "apply\n"];
  }
}
