/** The command loop of `parse_file` (parser.c), as a pure function over the lines the
    loop's fgets calls return. Each line loses its last character, is compared with the
    keywords in the order the source tests them, and `line`, `scale`, `move`, `rotate`
    and `save` read one more line as their arguments. Paths on which the C code has no
    defined behaviour end in `Faulted`. */
module Interpreter {
  import opened Tokenizer
  import opened Geometry

  /** Why a run has no defined behaviour from some point on. */
  datatype Fault =
    | EmptyRead        // `line[strlen(line)-1]` on a read whose C string is empty
    | MissingArgument  // atof of a NULL argument slot
    | BadAxis          // the rotate matrix is used uninitialised after "BAD AXIS"

  datatype Outcome<M> = Finished(state: State<M>) | Faulted(fault: Fault)

  /** The buffer after `line[strlen(line)-1] = '\0'`. */
  function Strip(read: string): (s: string)
    requires |read| > 0
    ensures |s| == |read| - 1 && read == s + [read[|read| - 1]]
  {
    read[..|read| - 1]
  }

  /** What an argument fgets leaves in the buffer, and the lines still unread. At end of
      input fgets returns NULL without touching the buffer, which still holds the keyword
      it just stripped. */
  datatype Fetched = Fetched(read: string, rest: seq<string>)

  function FetchArgument(keyword: string, rest: seq<string>): (f: Fetched)
    ensures |f.rest| == if rest == [] then 0 else |rest| - 1
    ensures rest != [] ==> f.rest == rest[1..]
    ensures f.read == if rest == [] then keyword else rest[0]
  {
    if rest == [] then Fetched(keyword, []) else Fetched(rest[0], rest[1..])
  }

  /** One round of the loop body: the command at the head of `lines` and, where it takes
      one, its parameter line. */
  datatype Stepped<M> = Next(state: State<M>, rest: seq<string>) | Stuck(fault: Fault)

  function Step<N, M>(g: Primitives<N, M>, lines: seq<string>, st: State<M>): (r: Stepped<M>)
    requires lines != []
    ensures r.Next? ==> |r.rest| < |lines| && st.renders <= r.state.renders
    ensures r.Next? ==> lines[0] != "" && (r.state.halted == (st.halted || Strip(lines[0]) == "quit"))
  {
    if lines[0] == "" then Stuck(EmptyRead)
    else
      var word := Strip(lines[0]);
      var rest := lines[1..];
      if word == "line" then
        var f := FetchArgument(word, rest);
        if f.read == "" then Stuck(EmptyRead)
        else
          var a := ParseArgs(Strip(f.read), Blank);
          if a[5].None? then Stuck(MissingArgument)
          else
            var e := g.addEdge(st.edges,
                               g.atof(a[0].value), g.atof(a[1].value), g.atof(a[2].value),
                               g.atof(a[3].value), g.atof(a[4].value), g.atof(a[5].value));
            Next(st.(edges := e), f.rest)
      else if word == "ident" then
        Next(st.(transform := g.identity), rest)
      else if word == "scale" then
        var f := FetchArgument(word, rest);
        if f.read == "" then Stuck(EmptyRead)
        else
          var a := ParseArgs(Strip(f.read), Blank);
          if a[0].None? then Stuck(MissingArgument)
          else
            // every factor is read from the first slot
            var k := g.atof(a[0].value);
            Next(st.(transform := g.mult(g.makeScale(k, k, k), st.transform)), f.rest)
      else if word == "move" then
        var f := FetchArgument(word, rest);
        if f.read == "" then Stuck(EmptyRead)
        else
          var a := ParseArgs(Strip(f.read), Blank);
          if a[2].None? then Stuck(MissingArgument)
          else
            var m := g.makeTranslate(g.atof(a[0].value), g.atof(a[1].value), g.atof(a[2].value));
            Next(st.(transform := g.mult(m, st.transform)), f.rest)
      else if word == "rotate" then
        var f := FetchArgument(word, rest);
        if f.read == "" then Stuck(EmptyRead)
        else
          var a := ParseArgs(Strip(f.read), Blank);
          if a[1].None? then Stuck(MissingArgument)
          else
            // the angle goes to the constructor as read
            var theta := g.atof(a[1].value);
            var axis := a[0].value;
            if axis == "x" then Next(st.(transform := g.mult(g.makeRotX(theta), st.transform)), f.rest)
            else if axis == "y" then Next(st.(transform := g.mult(g.makeRotY(theta), st.transform)), f.rest)
            else if axis == "z" then Next(st.(transform := g.mult(g.makeRotZ(theta), st.transform)), f.rest)
            else Stuck(BadAxis)
      else if word == "apply" then
        Next(st.(edges := g.mult(st.transform, st.edges)), rest)
      else if word == "display" then
        Next(st.(renders := st.renders + [Drawn(st.edges)]), rest)
      else if word == "save" then
        var f := FetchArgument(word, rest);
        if f.read == "" then Stuck(EmptyRead)
        else
          var a := ParseArgs(Strip(f.read), Blank);
          Next(st.(renders := st.renders + [Saved(st.edges, a[0])]), f.rest)
      else if word == "quit" then
        // exit(0)
        Next(st.(halted := true), rest)
      else
        Next(st, rest)
  }

  /** The `while (fgets(...) != NULL)` loop from state `st` over the remaining `lines`;
      it stops at end of input and once `quit` has halted the process. */
  function Run<N, M>(g: Primitives<N, M>, lines: seq<string>, st: State<M>): (r: Outcome<M>)
    ensures st.halted ==> r == Finished(st)
    ensures r.Finished? ==> st.renders <= r.state.renders
    decreases |lines|
  {
    if st.halted || lines == [] then Finished(st)
    else
      match Step(g, lines, st)
      case Stuck(f) => Faulted(f)
      case Next(st', rest) => Run(g, rest, st')
  }
}
