/** Go-to-definition, rename and find-references agree (tools/ylc_lsp_server.c): a use is reported for a
    definition exactly when the cursor search on it resolves to that definition. */
module NameAgreement {
  import opened Wrappers
  import opened Scopes
  import opened Collectors

  // ---- The named nodes of a tree -----------------------------------------------------------

  function PatternIds(p: Ast): set<nat>
    decreases p
  {
    match p
    case Let(_, _, binding, _, _) => PatternIds(binding)
    case Ident(id, _, _, _) => {id}
    case Parts(_, shape, parts) => if shape.Plain? then {} else PatternsIds(parts)
    case _ => {}
  }

  function PatternsIds(ps: seq<Ast>): set<nat>
    decreases ps
  {
    if ps == [] then {} else PatternIds(ps[0]) + PatternsIds(ps[1..])
  }

  /** Every node that a search can end on or a walk can report. */
  function Ids(t: Ast): set<nat>
    decreases t
  {
    match t
    case Ident(id, _, _, _) => {id}
    case Body(_, stmts) => AllIds(stmts)
    case Import(id, _, _, _) => {id}
    case Let(id, _, binding, expr, inExpr) => {id} + PatternIds(binding) + Ids(expr) + Ids(inExpr)
    case Lambda(_, _, params, body) => ParamIds(params) + Ids(body)
    case Match(_, subject, branches) => Ids(subject) + BranchesIds(branches)
    case Record(_, record, member) => Ids(record) + MemberIds(member)
    case Parts(_, _, parts) => AllIds(parts)
    case _ => {}
  }

  function MemberIds(member: Ast): set<nat> {
    if member.Ident? then {member.id} else {}
  }

  function AllIds(ts: seq<Ast>): set<nat>
    decreases ts
  {
    if ts == [] then {} else Ids(ts[0]) + AllIds(ts[1..])
  }

  function DefaultIds(param: Ast): set<nat>
    decreases param
  {
    if param.Let? then Ids(param.expr) else {}
  }

  function ParamIds(params: seq<Ast>): set<nat>
    decreases params
  {
    if params == [] then {} else PatternIds(params[0]) + DefaultIds(params[0]) + ParamIds(params[1..])
  }

  function BranchIds(b: Branch): set<nat>
    decreases b
  {
    PatternIds(b.pattern) + Ids(b.body)
  }

  function BranchesIds(branches: seq<Branch>): set<nat>
    decreases branches
  {
    if branches == [] then {} else BranchIds(branches[0]) + BranchesIds(branches[1..])
  }

  /** The uses: identifiers as expressions and record members. */
  function Uses(t: Ast): set<nat>
    decreases t
  {
    match t
    case Ident(id, _, _, _) => {id}
    case Body(_, stmts) => AllUses(stmts)
    case Let(_, _, _, expr, inExpr) => Uses(expr) + Uses(inExpr)
    case Lambda(_, _, params, body) => ParamUses(params) + Uses(body)
    case Match(_, subject, branches) => Uses(subject) + BranchesUses(branches)
    case Record(_, record, member) => Uses(record) + MemberIds(member)
    case Parts(_, _, parts) => AllUses(parts)
    case _ => {}
  }

  function AllUses(ts: seq<Ast>): set<nat>
    decreases ts
  {
    if ts == [] then {} else Uses(ts[0]) + AllUses(ts[1..])
  }

  function DefaultUses(param: Ast): set<nat>
    decreases param
  {
    if param.Let? then Uses(param.expr) else {}
  }

  function ParamUses(params: seq<Ast>): set<nat>
    decreases params
  {
    if params == [] then {} else DefaultUses(params[0]) + ParamUses(params[1..])
  }

  function BranchUses(b: Branch): set<nat>
    decreases b
  {
    Uses(b.body)
  }

  function BranchesUses(branches: seq<Branch>): set<nat>
    decreases branches
  {
    if branches == [] then {} else BranchUses(branches[0]) + BranchesUses(branches[1..])
  }

  // ---- Every node in one place ----------------------------------------------------------------

  predicate Apart(t: Ast)
    decreases t
  {
    match t
    case Body(_, stmts) => AllApart(stmts)
    case Let(id, _, binding, expr, inExpr) =>
      && Apart(expr) && Apart(inExpr)
      && id !in PatternIds(binding) + Ids(expr) + Ids(inExpr)
      && PatternIds(binding) !! Ids(expr) + Ids(inExpr) && Ids(expr) !! Ids(inExpr)
    case Lambda(_, _, params, body) => ParamsApart(params) && Apart(body) && ParamIds(params) !! Ids(body)
    case Match(_, subject, branches) => Apart(subject) && BranchesApart(branches)
        && Ids(subject) !! BranchesIds(branches)
    case Record(_, record, member) => Apart(record) && Ids(record) !! MemberIds(member)
    case Parts(_, _, parts) => AllApart(parts)
    case _ => true
  }

  predicate AllApart(ts: seq<Ast>)
    decreases ts
  {
    ts == [] || (Apart(ts[0]) && AllApart(ts[1..]) && Ids(ts[0]) !! AllIds(ts[1..]))
  }

  predicate DefaultApart(param: Ast)
    decreases param
  {
    param.Let? ==> Apart(param.expr)
  }

  predicate ParamsApart(params: seq<Ast>)
    decreases params
  {
    params == []
    || (&& DefaultApart(params[0]) && ParamsApart(params[1..]) && PatternIds(params[0]) !! DefaultIds(params[0])
        && PatternIds(params[0]) + DefaultIds(params[0]) !! ParamIds(params[1..]))
  }

  predicate BranchApart(b: Branch)
    decreases b
  {
    Apart(b.body) && PatternIds(b.pattern) !! Ids(b.body)
  }

  predicate BranchesApart(branches: seq<Branch>)
    decreases branches
  {
    branches == []
    || (BranchApart(branches[0]) && BranchesApart(branches[1..])
        && BranchIds(branches[0]) !! BranchesIds(branches[1..]))
  }

  // ---- The cursor is on its target only ---------------------------------------------------------

  predicate SharpIdent(c: Cursor, t: Ast) {
    On(c, t) ==> t.id == c.target
  }

  predicate SharpPattern(c: Cursor, p: Ast)
    decreases p
  {
    match p
    case Let(_, _, binding, _, _) => SharpPattern(c, binding)
    case Ident(_, _, _, _) => SharpIdent(c, p)
    case Parts(_, shape, parts) => shape.Plain? || SharpPatterns(c, parts)
    case _ => true
  }

  predicate SharpPatterns(c: Cursor, ps: seq<Ast>)
    decreases ps
  {
    ps == [] || (SharpPattern(c, ps[0]) && SharpPatterns(c, ps[1..]))
  }

  /** No identifier but the target lies under the cursor. */
  predicate Sharp(c: Cursor, t: Ast)
    decreases t
  {
    match t
    case Ident(_, _, _, _) => SharpIdent(c, t)
    case Body(_, stmts) => AllSharp(c, stmts)
    case Let(_, _, binding, expr, inExpr) => SharpPattern(c, binding) && Sharp(c, expr) && Sharp(c, inExpr)
    case Lambda(_, _, params, body) => ParamsSharp(c, params) && Sharp(c, body)
    case Match(_, subject, branches) => Sharp(c, subject) && BranchesSharp(c, branches)
    case Record(_, record, member) => Sharp(c, record) && SharpIdent(c, member)
    case Parts(_, _, parts) => AllSharp(c, parts)
    case _ => true
  }

  predicate AllSharp(c: Cursor, ts: seq<Ast>)
    decreases ts
  {
    ts == [] || (Sharp(c, ts[0]) && AllSharp(c, ts[1..]))
  }

  predicate DefaultSharp(c: Cursor, param: Ast)
    decreases param
  {
    param.Let? ==> Sharp(c, param.expr)
  }

  predicate ParamsSharp(c: Cursor, params: seq<Ast>)
    decreases params
  {
    params == [] || (SharpPattern(c, params[0]) && DefaultSharp(c, params[0]) && ParamsSharp(c, params[1..]))
  }

  predicate BranchSharp(c: Cursor, b: Branch)
    decreases b
  {
    SharpPattern(c, b.pattern) && Sharp(c, b.body)
  }

  predicate BranchesSharp(c: Cursor, branches: seq<Branch>)
    decreases branches
  {
    branches == [] || (BranchSharp(c, branches[0]) && BranchesSharp(c, branches[1..]))
  }

  // ---- The two ways to build an environment agree -------------------------------------------------

  lemma {:induction false} RenamePushEnv(env: Env, p: Ast, value: Ast, d: nat)
    ensures RenamePush(env, p, value, d).0 == PushPattern(env, p, value)
    decreases p
  {
    match p
    case Let(_, _, binding, expr, _) => RenamePushEnv(env, binding, expr, d);
    case Parts(_, shape, parts) =>
      if !shape.Plain? {
        RenamePushAllEnv(env, parts, d);
      }
    case _ =>
  }

  lemma {:induction false} RenamePushAllEnv(env: Env, ps: seq<Ast>, d: nat)
    ensures RenamePushAll(env, ps, d).0 == PushPatterns(env, ps)
    decreases ps
  {
    if ps != [] {
      RenamePushEnv(env, ps[0], Nil, d);
      RenamePushAllEnv(PushPattern(env, ps[0], Nil), ps[1..], d);
    }
  }

  lemma {:induction false} RenameParamsEnv(mods: Modules, env: Env, params: seq<Ast>, d: nat)
    ensures RenameParams(mods, env, params, d).0 == PushParams(env, params)
    decreases |params|
  {
    hide RenameDefault;
    if params != [] {
      RenamePushEnv(env, params[0], Nil, d);
      RenameParamsEnv(mods, PushPattern(env, params[0], Nil), params[1..], d);
    }
  }

  // ---- Only nodes of the tree are reported --------------------------------------------------------

  predicate Within(xs: seq<nat>, ids: set<nat>) {
    forall x :: x in xs ==> x in ids
  }

  lemma {:induction false} PushWithin(env: Env, p: Ast, value: Ast, d: nat)
    ensures Within(RenamePush(env, p, value, d).1, PatternIds(p))
    decreases p
  {
    match p
    case Let(_, _, binding, expr, _) => PushWithin(env, binding, expr, d);
    case Parts(_, shape, parts) =>
      if !shape.Plain? {
        PushAllWithin(env, parts, d);
      }
    case _ =>
  }

  lemma {:induction false} PushAllWithin(env: Env, ps: seq<Ast>, d: nat)
    ensures Within(RenamePushAll(env, ps, d).1, PatternsIds(ps))
    decreases ps
  {
    if ps != [] {
      PushWithin(env, ps[0], Nil, d);
      PushAllWithin(RenamePush(env, ps[0], Nil, d).0, ps[1..], d);
    }
  }

  lemma {:induction false} ExprWithin(mods: Modules, env: Env, t: Ast, d: nat)
    ensures Within(RenameExpr(mods, env, t, d), Ids(t))
    decreases t
  {
    match t
    case Body(_, stmts) => StmtsWithin(mods, env, stmts, d);
    case Let(id, _, binding, expr, inExpr) =>
      PushWithin(env, binding, StmtValue(mods, t), d);
      ExprWithin(mods, ExprEnv(env, t), expr, d);
      ExprWithin(mods, RenamePush(env, binding, StmtValue(mods, t), d).0, inExpr, d);
    case Lambda(_, _, params, body) =>
      ParamsWithin(mods, env, params, d);
      ExprWithin(mods, RenameParams(mods, env, params, d).0, body, d);
    case Match(_, subject, branches) =>
      ExprWithin(mods, env, subject, d);
      BranchesWithin(mods, env, branches, d);
    case Record(_, record, member) => ExprWithin(mods, env, record, d);
    case Parts(_, _, parts) => AllWithin(mods, env, parts, d);
    case _ =>
  }

  lemma {:induction false} AllWithin(mods: Modules, env: Env, ts: seq<Ast>, d: nat)
    ensures Within(RenameAll(mods, env, ts, d), AllIds(ts))
    decreases ts
  {
    if ts != [] {
      ExprWithin(mods, env, ts[0], d);
      AllWithin(mods, env, ts[1..], d);
    }
  }

  lemma {:induction false} StmtsWithin(mods: Modules, env: Env, stmts: seq<Ast>, d: nat)
    ensures Within(RenameStmts(mods, env, stmts, d), AllIds(stmts))
    decreases stmts
  {
    if stmts != [] {
      ExprWithin(mods, env, stmts[0], d);
      StmtsWithin(mods, PushStmt(mods, env, stmts[0]), stmts[1..], d);
    }
  }

  lemma {:induction false} DefaultWithin(mods: Modules, env: Env, param: Ast, d: nat)
    ensures Within(RenameDefault(mods, env, param, d), DefaultIds(param))
    decreases param
  {
    if param.Let? {
      ExprWithin(mods, env, param.expr, d);
    }
  }

  lemma {:induction false} ParamsWithin(mods: Modules, env: Env, params: seq<Ast>, d: nat)
    ensures Within(RenameParams(mods, env, params, d).1, ParamIds(params))
    decreases params
  {
    if params != [] {
      PushWithin(env, params[0], Nil, d);
      DefaultWithin(mods, env, params[0], d);
      ParamsWithin(mods, RenamePush(env, params[0], Nil, d).0, params[1..], d);
    }
  }

  lemma {:induction false} BranchWithin(mods: Modules, env: Env, b: Branch, d: nat)
    ensures Within(RenameBranch(mods, env, b, d), BranchIds(b))
    decreases b
  {
    PushWithin(env, b.pattern, Nil, d);
    ExprWithin(mods, RenamePush(env, b.pattern, Nil, d).0, b.body, d);
  }

  lemma {:induction false} BranchesWithin(mods: Modules, env: Env, branches: seq<Branch>, d: nat)
    ensures Within(RenameBranches(mods, env, branches, d), BranchesIds(branches))
    decreases branches
  {
    if branches != [] {
      BranchWithin(mods, env, branches[0], d);
      BranchesWithin(mods, env, branches[1..], d);
    }
  }

  // ---- The search passes over a tree without its target --------------------------------------------

  lemma {:induction false} PatternMissed(c: Cursor, p: Ast)
    requires c.target !in PatternIds(p) && SharpPattern(c, p)
    ensures InPattern(c, p) == Going
    decreases p
  {
    match p
    case Let(_, _, binding, _, _) => PatternMissed(c, binding);
    case Parts(_, shape, parts) =>
      if !shape.Plain? {
        PatternsMissed(c, parts);
      }
    case _ =>
  }

  lemma {:induction false} PatternsMissed(c: Cursor, ps: seq<Ast>)
    requires c.target !in PatternsIds(ps) && SharpPatterns(c, ps)
    ensures InPatterns(c, ps) == Going
    decreases ps
  {
    if ps != [] {
      PatternMissed(c, ps[0]);
      PatternsMissed(c, ps[1..]);
    }
  }

  lemma BindingMissed(c: Cursor, t: Ast)
    requires t.Let? && c.target != t.id && c.target !in PatternIds(t.binding) && SharpPattern(c, t.binding)
    ensures AtBinding(c, t) == Going
  {
    PatternMissed(c, t.binding);
  }

  lemma {:induction false} Missed(mods: Modules, c: Cursor, env: Env, t: Ast)
    requires c.target !in Ids(t) && Sharp(c, t)
    ensures Resolve(mods, c, env, t) == Going
    decreases t
  {
    match t
    case Body(_, stmts) => StmtsMissed(mods, c, env, stmts);
    case Let(_, _, binding, expr, inExpr) =>
      BindingMissed(c, t);
      Missed(mods, c, ExprEnv(env, t), expr);
      Missed(mods, c, PushPattern(env, binding, StmtValue(mods, t)), inExpr);
    case Lambda(_, _, params, body) =>
      ParamsMissed(mods, c, env, params);
      Missed(mods, c, PushParams(env, params), body);
    case Match(_, subject, branches) =>
      Missed(mods, c, env, subject);
      BranchesMissed(mods, c, env, branches);
    case Record(_, record, member) => Missed(mods, c, env, record);
    case Parts(_, _, parts) => AllMissed(mods, c, env, parts);
    case _ =>
  }

  lemma {:induction false} AllMissed(mods: Modules, c: Cursor, env: Env, ts: seq<Ast>)
    requires c.target !in AllIds(ts) && AllSharp(c, ts)
    ensures ResolveAll(mods, c, env, ts) == Going
    decreases ts
  {
    if ts != [] {
      Missed(mods, c, env, ts[0]);
      AllMissed(mods, c, env, ts[1..]);
    }
  }

  lemma {:induction false} StmtsMissed(mods: Modules, c: Cursor, env: Env, stmts: seq<Ast>)
    requires c.target !in AllIds(stmts) && AllSharp(c, stmts)
    ensures ResolveStmts(mods, c, env, stmts) == Going
    decreases stmts
  {
    if stmts != [] {
      Missed(mods, c, env, stmts[0]);
      StmtsMissed(mods, c, PushStmt(mods, env, stmts[0]), stmts[1..]);
    }
  }

  lemma {:induction false} DefaultMissed(mods: Modules, c: Cursor, env: Env, param: Ast)
    requires c.target !in DefaultIds(param) && DefaultSharp(c, param)
    ensures ResolveDefault(mods, c, env, param) == Going
    decreases param
  {
    if param.Let? {
      Missed(mods, c, env, param.expr);
    }
  }

  lemma {:induction false} ParamsMissed(mods: Modules, c: Cursor, env: Env, params: seq<Ast>)
    requires c.target !in ParamIds(params) && ParamsSharp(c, params)
    ensures ResolveParams(mods, c, env, params) == Going
    decreases params
  {
    if params != [] {
      PatternMissed(c, params[0]);
      DefaultMissed(mods, c, env, params[0]);
      ParamsMissed(mods, c, PushPattern(env, params[0], Nil), params[1..]);
    }
  }

  lemma {:induction false} BranchMissed(mods: Modules, c: Cursor, env: Env, b: Branch)
    requires c.target !in BranchIds(b) && BranchSharp(c, b)
    ensures ResolveBranch(mods, c, env, b) == Going
    decreases b
  {
    PatternMissed(c, b.pattern);
    Missed(mods, c, PushPattern(env, b.pattern, Nil), b.body);
  }

  lemma {:induction false} BranchesMissed(mods: Modules, c: Cursor, env: Env, branches: seq<Branch>)
    requires c.target !in BranchesIds(branches) && BranchesSharp(c, branches)
    ensures ResolveBranches(mods, c, env, branches) == Going
    decreases branches
  {
    if branches != [] {
      BranchMissed(mods, c, env, branches[0]);
      BranchesMissed(mods, c, env, branches[1..]);
    }
  }

  // ---- Uses are named nodes -----------------------------------------------------------------------------

  lemma {:induction false} UsesNamed(t: Ast)
    ensures Uses(t) <= Ids(t)
    decreases t
  {
    match t
    case Body(_, stmts) => AllUsesNamed(stmts);
    case Let(_, _, _, expr, inExpr) =>
      UsesNamed(expr);
      UsesNamed(inExpr);
    case Lambda(_, _, params, body) =>
      ParamUsesNamed(params);
      UsesNamed(body);
    case Match(_, subject, branches) =>
      UsesNamed(subject);
      BranchesUsesNamed(branches);
    case Record(_, record, _) => UsesNamed(record);
    case Parts(_, _, parts) => AllUsesNamed(parts);
    case _ =>
  }

  lemma {:induction false} AllUsesNamed(ts: seq<Ast>)
    ensures AllUses(ts) <= AllIds(ts)
    decreases ts
  {
    if ts != [] {
      UsesNamed(ts[0]);
      AllUsesNamed(ts[1..]);
    }
  }

  lemma {:induction false} DefaultUsesNamed(param: Ast)
    ensures DefaultUses(param) <= DefaultIds(param)
    decreases param
  {
    if param.Let? {
      UsesNamed(param.expr);
    }
  }

  lemma {:induction false} ParamUsesNamed(params: seq<Ast>)
    ensures ParamUses(params) <= ParamIds(params)
    decreases params
  {
    if params != [] {
      DefaultUsesNamed(params[0]);
      ParamUsesNamed(params[1..]);
    }
  }

  lemma {:induction false} BranchUsesNamed(b: Branch)
    ensures BranchUses(b) <= BranchIds(b)
    decreases b
  {
    UsesNamed(b.body);
  }

  lemma {:induction false} BranchesUsesNamed(branches: seq<Branch>)
    ensures BranchesUses(branches) <= BranchesIds(branches)
    decreases branches
  {
    if branches != [] {
      BranchUsesNamed(branches[0]);
      BranchesUsesNamed(branches[1..]);
    }
  }

  // ---- Agreement --------------------------------------------------------------------------------------------

  /** The walk's report and the search's result say the same of the cursor's target. */
  predicate Same(reported: seq<nat>, r: Outcome, c: Cursor, d: nat) {
    r.Found? && (c.target in reported <==> r.definition == Some(d))
  }

  /** For every tree and every use `n` in it: `n` is reported for the definition `d` exactly when the
      search with the cursor on `n` resolves to `d`. */
  lemma {:induction false} RenameAgrees(mods: Modules, c: Cursor, env: Env, t: Ast, d: nat)
    requires Apart(t) && Sharp(c, t) && c.target in Uses(t)
    ensures Same(RenameExpr(mods, env, t, d), Resolve(mods, c, env, t), c, d)
    decreases t, 1
  {
    match t
    case Ident(_, _, _, _) =>
    case Body(_, stmts) => StmtsAgree(mods, c, env, stmts, d);
    case Let(_, _, _, _, _) => LetAgrees(mods, c, env, t, d);
    case Lambda(_, _, _, _) => LambdaAgrees(mods, c, env, t, d);
    case Match(_, _, _) => MatchAgrees(mods, c, env, t, d);
    case Record(_, _, _) => RecordAgrees(mods, c, env, t, d);
    case Parts(_, _, parts) => AllAgree(mods, c, env, parts, d);
    case _ =>
  }

  lemma {:induction false} LetAgrees(mods: Modules, c: Cursor, env: Env, t: Ast, d: nat)
    requires t.Let? && Apart(t) && Sharp(c, t) && c.target in Uses(t)
    ensures Same(RenameExpr(mods, env, t, d), Resolve(mods, c, env, t), c, d)
    decreases t, 0
  {
    var value := StmtValue(mods, t);
    var bodyEnv := PushPattern(env, t.binding, value);
    UsesNamed(t.expr);
    UsesNamed(t.inExpr);
    BindingMissed(c, t);
    PushWithin(env, t.binding, value, d);
    RenamePushEnv(env, t.binding, value, d);
    if c.target in Uses(t.expr) {
      RenameAgrees(mods, c, ExprEnv(env, t), t.expr, d);
      ExprWithin(mods, bodyEnv, t.inExpr, d);
    } else {
      Missed(mods, c, ExprEnv(env, t), t.expr);
      ExprWithin(mods, ExprEnv(env, t), t.expr, d);
      RenameAgrees(mods, c, bodyEnv, t.inExpr, d);
    }
  }

  lemma {:induction false} LambdaAgrees(mods: Modules, c: Cursor, env: Env, t: Ast, d: nat)
    requires t.Lambda? && Apart(t) && Sharp(c, t) && c.target in Uses(t)
    ensures Same(RenameExpr(mods, env, t, d), Resolve(mods, c, env, t), c, d)
    decreases t, 0
  {
    var bodyEnv := PushParams(env, t.params);
    ParamUsesNamed(t.params);
    UsesNamed(t.body);
    RenameParamsEnv(mods, env, t.params, d);
    if c.target in ParamUses(t.params) {
      ParamsAgree(mods, c, env, t.params, d);
      ExprWithin(mods, bodyEnv, t.body, d);
    } else {
      ParamsMissed(mods, c, env, t.params);
      ParamsWithin(mods, env, t.params, d);
      RenameAgrees(mods, c, bodyEnv, t.body, d);
    }
  }

  lemma {:induction false} MatchAgrees(mods: Modules, c: Cursor, env: Env, t: Ast, d: nat)
    requires t.Match? && Apart(t) && Sharp(c, t) && c.target in Uses(t)
    ensures Same(RenameExpr(mods, env, t, d), Resolve(mods, c, env, t), c, d)
    decreases t, 0
  {
    UsesNamed(t.subject);
    BranchesUsesNamed(t.branches);
    if c.target in Uses(t.subject) {
      RenameAgrees(mods, c, env, t.subject, d);
      BranchesWithin(mods, env, t.branches, d);
    } else {
      Missed(mods, c, env, t.subject);
      ExprWithin(mods, env, t.subject, d);
      BranchesAgree(mods, c, env, t.branches, d);
    }
  }

  lemma {:induction false} RecordAgrees(mods: Modules, c: Cursor, env: Env, t: Ast, d: nat)
    requires t.Record? && Apart(t) && Sharp(c, t) && c.target in Uses(t)
    ensures Same(RenameExpr(mods, env, t, d), Resolve(mods, c, env, t), c, d)
    decreases t, 0
  {
    UsesNamed(t.record);
    if c.target in MemberIds(t.member) {
      ExprWithin(mods, env, t.record, d);
    } else {
      RenameAgrees(mods, c, env, t.record, d);
    }
  }

  lemma {:induction false} AllAgree(mods: Modules, c: Cursor, env: Env, ts: seq<Ast>, d: nat)
    requires AllApart(ts) && AllSharp(c, ts) && c.target in AllUses(ts)
    ensures Same(RenameAll(mods, env, ts, d), ResolveAll(mods, c, env, ts), c, d)
    decreases ts, 0
  {
    UsesNamed(ts[0]);
    AllUsesNamed(ts[1..]);
    if c.target in Uses(ts[0]) {
      RenameAgrees(mods, c, env, ts[0], d);
      AllWithin(mods, env, ts[1..], d);
    } else {
      Missed(mods, c, env, ts[0]);
      ExprWithin(mods, env, ts[0], d);
      AllAgree(mods, c, env, ts[1..], d);
    }
  }

  lemma {:induction false} StmtsAgree(mods: Modules, c: Cursor, env: Env, stmts: seq<Ast>, d: nat)
    requires AllApart(stmts) && AllSharp(c, stmts) && c.target in AllUses(stmts)
    ensures Same(RenameStmts(mods, env, stmts, d), ResolveStmts(mods, c, env, stmts), c, d)
    decreases stmts, 0
  {
    var env' := PushStmt(mods, env, stmts[0]);
    UsesNamed(stmts[0]);
    AllUsesNamed(stmts[1..]);
    if c.target in Uses(stmts[0]) {
      RenameAgrees(mods, c, env, stmts[0], d);
      StmtsWithin(mods, env', stmts[1..], d);
    } else {
      Missed(mods, c, env, stmts[0]);
      ExprWithin(mods, env, stmts[0], d);
      StmtsAgree(mods, c, env', stmts[1..], d);
    }
  }

  lemma {:induction false} DefaultAgrees(mods: Modules, c: Cursor, env: Env, param: Ast, d: nat)
    requires DefaultApart(param) && DefaultSharp(c, param) && c.target in DefaultUses(param)
    ensures Same(RenameDefault(mods, env, param, d), ResolveDefault(mods, c, env, param), c, d)
    decreases param, 0
  {
    RenameAgrees(mods, c, env, param.expr, d);
  }

  lemma {:induction false} ParamsAgree(mods: Modules, c: Cursor, env: Env, params: seq<Ast>, d: nat)
    requires ParamsApart(params) && ParamsSharp(c, params) && c.target in ParamUses(params)
    ensures Same(RenameParams(mods, env, params, d).1, ResolveParams(mods, c, env, params), c, d)
    decreases params, 0
  {
    var p := params[0];
    var env' := PushPattern(env, p, Nil);
    DefaultUsesNamed(p);
    ParamUsesNamed(params[1..]);
    PatternMissed(c, p);
    PushWithin(env, p, Nil, d);
    RenamePushEnv(env, p, Nil, d);
    if c.target in DefaultUses(p) {
      DefaultAgrees(mods, c, env, p, d);
      ParamsWithin(mods, env', params[1..], d);
    } else {
      DefaultMissed(mods, c, env, p);
      DefaultWithin(mods, env, p, d);
      ParamsAgree(mods, c, env', params[1..], d);
    }
  }

  lemma {:induction false} BranchAgrees(mods: Modules, c: Cursor, env: Env, b: Branch, d: nat)
    requires BranchApart(b) && BranchSharp(c, b) && c.target in BranchUses(b)
    ensures Same(RenameBranch(mods, env, b, d), ResolveBranch(mods, c, env, b), c, d)
    decreases b, 0
  {
    UsesNamed(b.body);
    PatternMissed(c, b.pattern);
    PushWithin(env, b.pattern, Nil, d);
    RenamePushEnv(env, b.pattern, Nil, d);
    RenameAgrees(mods, c, PushPattern(env, b.pattern, Nil), b.body, d);
  }

  lemma {:induction false} BranchesAgree(mods: Modules, c: Cursor, env: Env, branches: seq<Branch>, d: nat)
    requires BranchesApart(branches) && BranchesSharp(c, branches) && c.target in BranchesUses(branches)
    ensures Same(RenameBranches(mods, env, branches, d), ResolveBranches(mods, c, env, branches), c, d)
    decreases branches, 0
  {
    BranchUsesNamed(branches[0]);
    BranchesUsesNamed(branches[1..]);
    if c.target in BranchUses(branches[0]) {
      BranchAgrees(mods, c, env, branches[0], d);
      BranchesWithin(mods, env, branches[1..], d);
    } else {
      BranchMissed(mods, c, env, branches[0]);
      BranchWithin(mods, env, branches[0], d);
      BranchesAgree(mods, c, env, branches[1..], d);
    }
  }

  // ---- Rename and references ----------------------------------------------------------------------------------

  lemma {:induction false} PushesEqual(env: Env, p: Ast, value: Ast, d: nat)
    ensures ReferencePush(env, p, value, d, true) == RenamePush(env, p, value, d)
    decreases p
  {
    match p
    case Let(_, _, binding, expr, _) => PushesEqual(env, binding, expr, d);
    case Parts(_, shape, parts) =>
      if !shape.Plain? {
        PushAllEqual(env, parts, d);
      }
    case _ =>
  }

  lemma {:induction false} PushAllEqual(env: Env, ps: seq<Ast>, d: nat)
    ensures ReferencePushAll(env, ps, d, true) == RenamePushAll(env, ps, d)
    decreases ps
  {
    if ps != [] {
      PushesEqual(env, ps[0], Nil, d);
      PushAllEqual(RenamePush(env, ps[0], Nil, d).0, ps[1..], d);
    }
  }

  /** References with the declaration and rename report the same nodes in the same order. */
  lemma {:induction false} ReferencesAreRename(mods: Modules, env: Env, t: Ast, d: nat)
    ensures ReferenceExpr(mods, env, t, d, true) == RenameExpr(mods, env, t, d)
    decreases t
  {
    match t
    case Body(_, stmts) => StmtsEqual(mods, env, stmts, d);
    case Let(_, _, binding, expr, inExpr) =>
      PushesEqual(env, binding, StmtValue(mods, t), d);
      ReferencesAreRename(mods, ExprEnv(env, t), expr, d);
      ReferencesAreRename(mods, RenamePush(env, binding, StmtValue(mods, t), d).0, inExpr, d);
    case Lambda(_, _, params, body) =>
      ParamsEqual(mods, env, params, d);
      ReferencesAreRename(mods, RenameParams(mods, env, params, d).0, body, d);
    case Match(_, subject, branches) =>
      ReferencesAreRename(mods, env, subject, d);
      BranchesEqual(mods, env, branches, d);
    case Record(_, record, _) => ReferencesAreRename(mods, env, record, d);
    case Parts(_, _, parts) => AllEqual(mods, env, parts, d);
    case _ =>
  }

  lemma {:induction false} AllEqual(mods: Modules, env: Env, ts: seq<Ast>, d: nat)
    ensures ReferenceAll(mods, env, ts, d, true) == RenameAll(mods, env, ts, d)
    decreases ts
  {
    if ts != [] {
      ReferencesAreRename(mods, env, ts[0], d);
      AllEqual(mods, env, ts[1..], d);
    }
  }

  lemma {:induction false} StmtsEqual(mods: Modules, env: Env, stmts: seq<Ast>, d: nat)
    ensures ReferenceStmts(mods, env, stmts, d, true) == RenameStmts(mods, env, stmts, d)
    decreases stmts
  {
    if stmts != [] {
      ReferencesAreRename(mods, env, stmts[0], d);
      StmtsEqual(mods, PushStmt(mods, env, stmts[0]), stmts[1..], d);
    }
  }

  lemma {:induction false} DefaultEqual(mods: Modules, env: Env, param: Ast, d: nat)
    ensures ReferenceDefault(mods, env, param, d, true) == RenameDefault(mods, env, param, d)
    decreases param
  {
    if param.Let? {
      ReferencesAreRename(mods, env, param.expr, d);
    }
  }

  lemma {:induction false} ParamsEqual(mods: Modules, env: Env, params: seq<Ast>, d: nat)
    ensures ReferenceParams(mods, env, params, d, true) == RenameParams(mods, env, params, d)
    decreases params
  {
    if params != [] {
      PushesEqual(env, params[0], Nil, d);
      DefaultEqual(mods, env, params[0], d);
      ParamsEqual(mods, RenamePush(env, params[0], Nil, d).0, params[1..], d);
    }
  }

  lemma {:induction false} BranchEqual(mods: Modules, env: Env, b: Branch, d: nat)
    ensures ReferenceBranch(mods, env, b, d, true) == RenameBranch(mods, env, b, d)
    decreases b
  {
    PushesEqual(env, b.pattern, Nil, d);
    ReferencesAreRename(mods, RenamePush(env, b.pattern, Nil, d).0, b.body, d);
  }

  lemma {:induction false} BranchesEqual(mods: Modules, env: Env, branches: seq<Branch>, d: nat)
    ensures ReferenceBranches(mods, env, branches, d, true) == RenameBranches(mods, env, branches, d)
    decreases branches
  {
    if branches != [] {
      BranchEqual(mods, env, branches[0], d);
      BranchesEqual(mods, env, branches[1..], d);
    }
  }

  // ---- References without the declaration ----------------------------------------------------------------------

  lemma {:induction false} PushQuiet(env: Env, p: Ast, value: Ast, d: nat)
    ensures ReferencePush(env, p, value, d, false) == (PushPattern(env, p, value), [])
    decreases p
  {
    match p
    case Let(_, _, binding, expr, _) => PushQuiet(env, binding, expr, d);
    case Parts(_, shape, parts) =>
      if !shape.Plain? {
        PushAllQuiet(env, parts, d);
      }
    case _ =>
  }

  lemma {:induction false} PushAllQuiet(env: Env, ps: seq<Ast>, d: nat)
    ensures ReferencePushAll(env, ps, d, false) == (PushPatterns(env, ps), [])
    decreases ps
  {
    if ps != [] {
      PushQuiet(env, ps[0], Nil, d);
      PushAllQuiet(PushPattern(env, ps[0], Nil), ps[1..], d);
      var none: seq<nat> := [];
      assert none + none == none;
    }
  }

  /** `n` is listed without the declaration exactly when it is a use that a rename changes. */
  predicate Trimmed(n: nat, short: seq<nat>, full: seq<nat>, uses: set<nat>) {
    n in short <==> n in full && n in uses
  }

  lemma {:induction false} WithoutDeclaration(mods: Modules, env: Env, t: Ast, d: nat, n: nat)
    requires Apart(t)
    ensures Trimmed(n, ReferenceExpr(mods, env, t, d, false), RenameExpr(mods, env, t, d), Uses(t))
    decreases t, 1
  {
    match t
    case Body(_, stmts) => StmtsWithout(mods, env, stmts, d, n);
    case Let(_, _, _, _, _) => LetWithout(mods, env, t, d, n);
    case Lambda(_, _, params, body) =>
      ParamsWithout(mods, env, params, d, n);
      RenameParamsEnv(mods, env, params, d);
      WithoutDeclaration(mods, PushParams(env, params), body, d, n);
      ParamsWithin(mods, env, params, d);
      ExprWithin(mods, PushParams(env, params), body, d);
      ParamUsesNamed(params);
      UsesNamed(body);
    case Match(_, subject, branches) =>
      WithoutDeclaration(mods, env, subject, d, n);
      BranchesWithout(mods, env, branches, d, n);
      ExprWithin(mods, env, subject, d);
      BranchesWithin(mods, env, branches, d);
      UsesNamed(subject);
      BranchesUsesNamed(branches);
    case Record(_, record, _) =>
      WithoutDeclaration(mods, env, record, d, n);
      ExprWithin(mods, env, record, d);
      UsesNamed(record);
    case Parts(_, _, parts) => AllWithout(mods, env, parts, d, n);
    case _ =>
  }

  lemma {:induction false} LetWithout(mods: Modules, env: Env, t: Ast, d: nat, n: nat)
    requires t.Let? && Apart(t)
    ensures Trimmed(n, ReferenceExpr(mods, env, t, d, false), RenameExpr(mods, env, t, d), Uses(t))
    decreases t, 0
  {
    var value := StmtValue(mods, t);
    var bodyEnv := PushPattern(env, t.binding, value);
    PushQuiet(env, t.binding, value, d);
    PushWithin(env, t.binding, value, d);
    RenamePushEnv(env, t.binding, value, d);
    WithoutDeclaration(mods, ExprEnv(env, t), t.expr, d, n);
    WithoutDeclaration(mods, bodyEnv, t.inExpr, d, n);
    ExprWithin(mods, ExprEnv(env, t), t.expr, d);
    ExprWithin(mods, bodyEnv, t.inExpr, d);
    UsesNamed(t.expr);
    UsesNamed(t.inExpr);
  }

  lemma {:induction false} AllWithout(mods: Modules, env: Env, ts: seq<Ast>, d: nat, n: nat)
    requires AllApart(ts)
    ensures Trimmed(n, ReferenceAll(mods, env, ts, d, false), RenameAll(mods, env, ts, d), AllUses(ts))
    decreases ts, 0
  {
    if ts != [] {
      WithoutDeclaration(mods, env, ts[0], d, n);
      AllWithout(mods, env, ts[1..], d, n);
      ExprWithin(mods, env, ts[0], d);
      AllWithin(mods, env, ts[1..], d);
      UsesNamed(ts[0]);
      AllUsesNamed(ts[1..]);
    }
  }

  lemma {:induction false} StmtsWithout(mods: Modules, env: Env, stmts: seq<Ast>, d: nat, n: nat)
    requires AllApart(stmts)
    ensures Trimmed(n, ReferenceStmts(mods, env, stmts, d, false), RenameStmts(mods, env, stmts, d), AllUses(stmts))
    decreases stmts, 0
  {
    if stmts != [] {
      var env' := PushStmt(mods, env, stmts[0]);
      WithoutDeclaration(mods, env, stmts[0], d, n);
      StmtsWithout(mods, env', stmts[1..], d, n);
      ExprWithin(mods, env, stmts[0], d);
      StmtsWithin(mods, env', stmts[1..], d);
      UsesNamed(stmts[0]);
      AllUsesNamed(stmts[1..]);
    }
  }

  lemma {:induction false} DefaultWithout(mods: Modules, env: Env, param: Ast, d: nat, n: nat)
    requires DefaultApart(param)
    ensures Trimmed(n, ReferenceDefault(mods, env, param, d, false), RenameDefault(mods, env, param, d),
                    DefaultUses(param))
    decreases param, 0
  {
    if param.Let? {
      WithoutDeclaration(mods, env, param.expr, d, n);
    }
  }

  lemma {:induction false} ParamsWithout(mods: Modules, env: Env, params: seq<Ast>, d: nat, n: nat)
    requires ParamsApart(params)
    ensures ReferenceParams(mods, env, params, d, false).0 == PushParams(env, params)
    ensures Trimmed(n, ReferenceParams(mods, env, params, d, false).1, RenameParams(mods, env, params, d).1,
                    ParamUses(params))
    decreases params, 0
  {
    if params != [] {
      var p := params[0];
      var env' := PushPattern(env, p, Nil);
      PushQuiet(env, p, Nil, d);
      PushWithin(env, p, Nil, d);
      RenamePushEnv(env, p, Nil, d);
      DefaultWithout(mods, env, p, d, n);
      ParamsWithout(mods, env', params[1..], d, n);
      DefaultWithin(mods, env, p, d);
      ParamsWithin(mods, env', params[1..], d);
      DefaultUsesNamed(p);
      ParamUsesNamed(params[1..]);
    }
  }

  lemma {:induction false} BranchWithout(mods: Modules, env: Env, b: Branch, d: nat, n: nat)
    requires BranchApart(b)
    ensures Trimmed(n, ReferenceBranch(mods, env, b, d, false), RenameBranch(mods, env, b, d), BranchUses(b))
    decreases b, 0
  {
    PushQuiet(env, b.pattern, Nil, d);
    PushWithin(env, b.pattern, Nil, d);
    RenamePushEnv(env, b.pattern, Nil, d);
    WithoutDeclaration(mods, PushPattern(env, b.pattern, Nil), b.body, d, n);
    UsesNamed(b.body);
  }

  lemma {:induction false} BranchesWithout(mods: Modules, env: Env, branches: seq<Branch>, d: nat, n: nat)
    requires BranchesApart(branches)
    ensures Trimmed(n, ReferenceBranches(mods, env, branches, d, false), RenameBranches(mods, env, branches, d),
                    BranchesUses(branches))
    decreases branches, 0
  {
    if branches != [] {
      BranchWithout(mods, env, branches[0], d, n);
      BranchesWithout(mods, env, branches[1..], d, n);
      BranchWithin(mods, env, branches[0], d);
      BranchesWithin(mods, env, branches[1..], d);
      BranchUsesNamed(branches[0]);
      BranchesUsesNamed(branches[1..]);
    }
  }

  /** Go-to-definition on a use leads to `d` exactly when find-references for `d` lists the use, with the declaration
      or without. */
  lemma ReferencesAgree(mods: Modules, c: Cursor, root: Ast, d: nat, withDeclaration: bool)
    requires Apart(root) && Sharp(c, root) && c.target in Uses(root)
    ensures Same(ReferenceExpr(mods, [], root, d, withDeclaration), Resolve(mods, c, [], root), c, d)
  {
    UseListed(mods, root, d, c.target, withDeclaration);
    RenameAgrees(mods, c, [], root, d);
  }

  lemma UseListed(mods: Modules, root: Ast, d: nat, n: nat, withDeclaration: bool)
    requires Apart(root) && n in Uses(root)
    ensures n in ReferenceExpr(mods, [], root, d, withDeclaration) <==> n in RenameExpr(mods, [], root, d)
  {
    if withDeclaration {
      ReferencesAreRename(mods, [], root, d);
    } else {
      WithoutDeclaration(mods, [], root, d, n);
    }
  }
}
