/** A second description of the same interpreter, split the way a command language
    usually is: a parser turns the script into tagged commands that carry their parsed
    arguments (all undefined-behaviour paths surface here), and an executor folds the
    commands over the state. `RunMatchesParse` proves the loop of parse_file is exactly
    this parser followed by this executor. */
module Commands {
  import opened Tokenizer
  import opened Geometry
  import opened Interpreter

  datatype Axis = X | Y | Z

  datatype Command<N> =
    | AddLine(x0: N, y0: N, z0: N, x1: N, y1: N, z1: N)
    | Ident
    | Scale(sx: N, sy: N, sz: N)
    | Move(dx: N, dy: N, dz: N)
    | Rotate(axis: Axis, angle: N)
    | Apply
    | Display
    | Save(name: Option<string>)
    | Quit
    | Unknown(word: string)

  /** The keywords whose command reads a parameter line. */
  predicate TakesArgument(word: string)
  {
    word == "line" || word == "scale" || word == "move" || word == "rotate" || word == "save"
  }

  predicate IsKeyword(word: string)
  {
    TakesArgument(word) || word == "ident" || word == "apply" || word == "display" || word == "quit"
  }

  /** Commands that replace the running transform; the other commands never touch it. */
  predicate SetsTransform<N>(c: Command<N>)
  {
    c.Ident? || c.Scale? || c.Move? || c.Rotate?
  }

  /** Commands that replace the edge matrix; the other commands never touch it. */
  predicate SetsEdges<N>(c: Command<N>)
  {
    c.AddLine? || c.Apply?
  }

  /** Commands that compose an elementary matrix onto the running transform. */
  predicate Composes<N>(c: Command<N>)
  {
    c.Scale? || c.Move? || c.Rotate?
  }

  /** The keyword line a command is read from. */
  function Keyword<N>(c: Command<N>): string
  {
    match c
    case AddLine(_, _, _, _, _, _) => "line"
    case Ident => "ident"
    case Scale(_, _, _) => "scale"
    case Move(_, _, _) => "move"
    case Rotate(_, _) => "rotate"
    case Apply => "apply"
    case Display => "display"
    case Save(_) => "save"
    case Quit => "quit"
    case Unknown(word) => word
  }

  /** The outcome of reading one command off the head of the script. */
  datatype Read<N> = Read(command: Command<N>, rest: seq<string>) | Bad(fault: Fault)

  /** Reads one command: its keyword line and, for a keyword that takes one, its parameter
      line, turned into typed arguments with atof. */
  function ParseCommand<N, M>(g: Primitives<N, M>, lines: seq<string>): (r: Read<N>)
    requires lines != []
    ensures lines[0] == "" ==> r == Bad(EmptyRead)
    ensures r.Bad? ==> lines[0] == "" || TakesArgument(Strip(lines[0]))
    ensures r.Read? ==> lines[0] != "" && r.rest == lines[ArgumentLines(lines)..]
    ensures r.Read? ==> Keyword(r.command) == Strip(lines[0])
    ensures r.Read? ==> (r.command.Unknown? <==> !IsKeyword(Strip(lines[0])))
  {
    if lines[0] == "" then Bad(EmptyRead)
    else
      var word := Strip(lines[0]);
      if !TakesArgument(word) then
        Read(if word == "ident" then Ident
             else if word == "apply" then Apply
             else if word == "display" then Display
             else if word == "quit" then Quit
             else Unknown(word), lines[1..])
      else
        var f := FetchArgument(word, lines[1..]);
        if f.read == "" then Bad(EmptyRead)
        else
          ParseArguments(g, word, ParseArgs(Strip(f.read), Blank), f.rest)
  }

  /** The number of lines a well-formed command occupies at the head of `lines`: two for a
      keyword that takes a parameter line when one follows, one otherwise. */
  function ArgumentLines(lines: seq<string>): (n: nat)
    requires lines != [] && lines[0] != ""
    ensures 1 <= n <= |lines|
  {
    if TakesArgument(Strip(lines[0])) && |lines| > 1 then 2 else 1
  }

  /** The typed command of a keyword that takes arguments, from the argument slots of its
      parameter line; Bad where the C code would read a NULL slot or use the uninitialised
      rotate matrix. */
  function ParseArguments<N, M>(g: Primitives<N, M>, word: string, a: seq<Option<string>>,
                                rest: seq<string>): (r: Read<N>)
    requires TakesArgument(word) && |a| == MaxArgs
    requires forall i, j :: 0 <= j < i < MaxArgs && a[i].Some? ==> a[j].Some?
    ensures r.Read? ==> r.rest == rest && Keyword(r.command) == word
    ensures r.Bad? ==> r.fault == MissingArgument || (word == "rotate" && r.fault == BadAxis)
    ensures word == "line" ==> (r.Bad? <==> a[5].None?)
    ensures word == "scale" ==> (r.Bad? <==> a[0].None?)
    ensures word == "move" ==> (r.Bad? <==> a[2].None?)
    ensures word == "rotate" ==> (r.Bad? <==> a[1].None? || a[0].value !in ["x", "y", "z"])
    ensures word == "save" ==> r == Read(Save(a[0]), rest)
  {
    if word == "line" then
      if a[5].None? then Bad(MissingArgument)
      else Read(AddLine(g.atof(a[0].value), g.atof(a[1].value), g.atof(a[2].value),
                        g.atof(a[3].value), g.atof(a[4].value), g.atof(a[5].value)), rest)
    else if word == "scale" then
      if a[0].None? then Bad(MissingArgument)
      else Read(Scale(g.atof(a[0].value), g.atof(a[0].value), g.atof(a[0].value)), rest)
    else if word == "move" then
      if a[2].None? then Bad(MissingArgument)
      else Read(Move(g.atof(a[0].value), g.atof(a[1].value), g.atof(a[2].value)), rest)
    else if word == "rotate" then
      if a[1].None? then Bad(MissingArgument)
      else if a[0].value == "x" then Read(Rotate(X, g.atof(a[1].value)), rest)
      else if a[0].value == "y" then Read(Rotate(Y, g.atof(a[1].value)), rest)
      else if a[0].value == "z" then Read(Rotate(Z, g.atof(a[1].value)), rest)
      else Bad(BadAxis)
    else
      Read(Save(a[0]), rest)
  }

  /** Why parsing stopped: the script ran out, or a command has no defined behaviour. */
  datatype Ending = EndOfInput | Stopped(fault: Fault)

  datatype Parsed<N> = Parsed(commands: seq<Command<N>>, ending: Ending)

  /** The whole script as commands, up to the first one without defined behaviour. */
  function Parse<N, M>(g: Primitives<N, M>, lines: seq<string>): (p: Parsed<N>)
    ensures |p.commands| <= |lines|
    decreases |lines|
  {
    if lines == [] then Parsed([], EndOfInput)
    else
      match ParseCommand(g, lines)
      case Bad(f) => Parsed([], Stopped(f))
      case Read(c, rest) =>
        var p := Parse(g, rest);
        Parsed([c] + p.commands, p.ending)
  }

  /** The elementary matrix a composing command builds. */
  function Elementary<N, M>(g: Primitives<N, M>, c: Command<N>): M
    requires Composes(c)
  {
    match c
    case Scale(sx, sy, sz) => g.makeScale(sx, sy, sz)
    case Move(dx, dy, dz) => g.makeTranslate(dx, dy, dz)
    case Rotate(X, theta) => g.makeRotX(theta)
    case Rotate(Y, theta) => g.makeRotY(theta)
    case Rotate(Z, theta) => g.makeRotZ(theta)
  }

  /** The effect of one command on the state. */
  function Exec<N, M>(g: Primitives<N, M>, c: Command<N>, st: State<M>): (r: State<M>)
    ensures r.halted == (st.halted || c.Quit?)
    ensures !SetsTransform(c) ==> r.transform == st.transform
    ensures !SetsEdges(c) ==> r.edges == st.edges
    ensures r.renders == st.renders + match c
      case Display => [Drawn(st.edges)]
      case Save(name) => [Saved(st.edges, name)]
      case _ => []
  {
    match c
    case AddLine(x0, y0, z0, x1, y1, z1) => st.(edges := g.addEdge(st.edges, x0, y0, z0, x1, y1, z1))
    case Ident => st.(transform := g.identity)
    case Scale(_, _, _) => st.(transform := g.mult(Elementary(g, c), st.transform))
    case Move(_, _, _) => st.(transform := g.mult(Elementary(g, c), st.transform))
    case Rotate(_, _) => st.(transform := g.mult(Elementary(g, c), st.transform))
    case Apply => st.(edges := g.mult(st.transform, st.edges))
    case Display => st.(renders := st.renders + [Drawn(st.edges)])
    case Save(name) => st.(renders := st.renders + [Saved(st.edges, name)])
    case Quit => st.(halted := true)
    case Unknown(_) => st
  }

  /** The commands executed in order until one halts. */
  function ExecAll<N, M>(g: Primitives<N, M>, cs: seq<Command<N>>, st: State<M>): (r: State<M>)
    ensures st.halted ==> r == st
    ensures (forall i :: 0 <= i < |cs| ==> !SetsTransform(cs[i])) ==> r.transform == st.transform
    ensures (forall i :: 0 <= i < |cs| ==> !SetsEdges(cs[i])) ==> r.edges == st.edges
    ensures r.halted <==> st.halted || exists i :: 0 <= i < |cs| && cs[i].Quit?
    decreases |cs|
  {
    if st.halted || cs == [] then st
    else ExecAll(g, cs[1..], Exec(g, cs[0], st))
  }

  /** The outcome the parsed script has: the executed state, unless parsing stopped at a
      fault before a `quit` took effect. */
  function Interpret<N, M>(g: Primitives<N, M>, p: Parsed<N>, st: State<M>): Outcome<M>
  {
    var s := ExecAll(g, p.commands, st);
    if s.halted then Finished(s)
    else match p.ending
      case EndOfInput => Finished(s)
      case Stopped(f) => Faulted(f)
  }
}
