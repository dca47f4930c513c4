/** What the flags of a declared vertex make of its processor's return code. */
module Outcomes {
  import opened VertexResults
  import opened GraphDecl
  import opened SetupGraph
  import opened RuntimeGraph
  import opened Protocol
  import opened Branches
  import opened WhileGeneration

  /** Nothing that happens to this vertex ends the graph, and its failures are forgotten: it ignores errors, evaluates no
      condition, and no vertex is its `if` or `else`. */
  predicate Forgiving(f: GraphDef, p: nat)
    requires p < |f.vertices|
  {
    var v := f.vertices[p];
    && v.ignoreError && !v.earlyExit && !f.earlyExit
    && v.decl.cond == "" && v.decl.consequent == [] && v.decl.alternative == []
  }

  /** In every state of every run of a declared graph, a vertex that ran has ended OK with code 0 if its processor
      returned 0 or it is forgiving, and ERR with the code that was returned otherwise. */
  lemma DeclaredOutcome(env: Env, f: GraphDef, settings: Settings, starts: seq<nat>, r: Run, v: nat)
    requires Accepted(env, DeclsOf(f)) && SetUpFrom(env, f, settings, starts) && !f.isWhile
    requires WellFormed(GraphOf(env, DeclsOf(f), settings)) && Schedule(GraphOf(env, DeclsOf(f), settings), r)
    requires v < |OrderOf(env, DeclsOf(f))| && OrderOf(env, DeclsOf(f))[v] < |f.vertices| && Returned(r, v).Some?
    ensures var s, rc := After(GraphOf(env, DeclsOf(f), settings), r), Returned(r, v).value;
            && v < |s.vs|
            && (if rc == 0 || Forgiving(f, OrderOf(env, DeclsOf(f))[v])
                then s.vs[v].code == 0 && s.vs[v].result == V_RESULT_OK
                else s.vs[v].code == rc && s.vs[v].result == V_RESULT_ERR)
  {
    ReturnIsRecorded(GraphOf(env, DeclsOf(f), settings), r, v);
  }
}
