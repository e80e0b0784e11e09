/** The collaborators parse_file calls but does not define, kept abstract, and the state
    the command loop threads through a script. */
module Geometry {
  import opened Tokenizer

  /** The number and matrix primitives of the rendering library, as opaque operations over
      a number type `N` (what atof returns) and a matrix type `M`. Every property of the
      interpreter is proved for all choices of these operations.
      - `mult(a, b)` is the matrix `matrix_mult(a, b)` leaves in its second argument;
      - `addEdge(e, x0, y0, z0, x1, y1, z1)` is the edge matrix `e` after `add_edge`
        appends the two points. */
  datatype Primitives<!N, !M> = Primitives(
    atof: string -> N,
    makeScale: (N, N, N) -> M,
    makeTranslate: (N, N, N) -> M,
    makeRotX: N -> M,
    makeRotY: N -> M,
    makeRotZ: N -> M,
    identity: M,
    mult: (M, M) -> M,
    addEdge: (M, N, N, N, N, N, N) -> M
  )

  /** One call into the screen sink: `display` clears the screen and draws the edges;
      `save` clears, draws and hands the first argument slot (possibly NULL) to
      save_extension. */
  datatype Render<M> = Drawn(edges: M) | Saved(edges: M, name: Option<string>)

  /** The interpreter state: the running transform, the edge matrix, the sink calls made
      so far, and whether `quit` ended the process. */
  datatype State<M> = State(transform: M, edges: M, renders: seq<Render<M>>, halted: bool)
}
