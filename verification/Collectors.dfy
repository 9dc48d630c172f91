/** Rename and find-references in the language server (tools/ylc_lsp_server.c): two more walks over the
    scopes, each with its own handling of patterns. */
module Collectors {
  import opened Wrappers
  import opened Scopes

  /** `rename_push_pattern_bindings`: the environment, and the nodes reported on the way. */
  function RenamePush(env: Env, p: Ast, value: Ast, d: nat): (Env, seq<nat>)
    decreases p
  {
    match p
    case Let(_, _, binding, expr, _) => RenamePush(env, binding, expr, d)
    case Ident(id, name, _, _) =>
      if name != "_" then ([Binding(name, id, value)] + env, (if id == d then [id] else [])) else (env, [])
    case Parts(_, shape, parts) => if shape.Plain? then (env, []) else RenamePushAll(env, parts, d)
    case _ => (env, [])
  }

  function RenamePushAll(env: Env, ps: seq<Ast>, d: nat): (Env, seq<nat>)
    decreases ps
  {
    if ps == [] then (env, [])
    else
      var (env1, first) := RenamePush(env, ps[0], Nil, d);
      var (env2, rest) := RenamePushAll(env1, ps[1..], d);
      (env2, first + rest)
  }

  /** `rename_collect_expr` and the functions it calls: the nodes reported for the definition `d`. */
  function RenameExpr(mods: Modules, env: Env, t: Ast, d: nat): seq<nat>
    decreases t
  {
    match t
    case Ident(id, name, _, _) =>
      (match Lookup(env, name)
       case None => []
       case Some(b) => if b.definition == d then [id] else [])
    case Body(_, stmts) => RenameStmts(mods, env, stmts, d)
    case Let(id, _, binding, expr, inExpr) =>
      var (bodyEnv, declared) := RenamePush(env, binding, StmtValue(mods, t), d);
      (if id == d then [id] else [])
      + (if inExpr.Nil? then declared else [])
      + RenameExpr(mods, ExprEnv(env, t), expr, d)
      + (if inExpr.Nil? then [] else declared + RenameExpr(mods, bodyEnv, inExpr, d))
    case Lambda(_, _, params, body) =>
      var (bodyEnv, declared) := RenameParams(mods, env, params, d);
      declared + RenameExpr(mods, bodyEnv, body, d)
    case Match(_, subject, branches) =>
      RenameExpr(mods, env, subject, d) + RenameBranches(mods, env, branches, d)
    case Record(_, record, member) =>
      RenameExpr(mods, env, record, d)
      + (if member.Ident? && MemberDefinition(mods, env, record, member) == Some(d) then [member.id] else [])
    case Parts(_, _, parts) => RenameAll(mods, env, parts, d)
    case _ => []
  }

  function RenameAll(mods: Modules, env: Env, ts: seq<Ast>, d: nat): seq<nat>
    decreases ts
  {
    if ts == [] then [] else RenameExpr(mods, env, ts[0], d) + RenameAll(mods, env, ts[1..], d)
  }

  function RenameStmts(mods: Modules, env: Env, stmts: seq<Ast>, d: nat): seq<nat>
    decreases stmts
  {
    if stmts == [] then []
    else RenameExpr(mods, env, stmts[0], d) + RenameStmts(mods, PushStmt(mods, env, stmts[0]), stmts[1..], d)
  }

  function RenameParams(mods: Modules, env: Env, params: seq<Ast>, d: nat): (Env, seq<nat>)
    decreases params
  {
    if params == [] then (env, [])
    else
      var (env1, declared) := RenamePush(env, params[0], Nil, d);
      var (env2, rest) := RenameParams(mods, env1, params[1..], d);
      (env2, RenameDefault(mods, env, params[0], d) + declared + rest)
  }

  function RenameDefault(mods: Modules, env: Env, param: Ast, d: nat): seq<nat>
    decreases param
  {
    if param.Let? then RenameExpr(mods, env, param.expr, d) else []
  }

  function RenameBranches(mods: Modules, env: Env, branches: seq<Branch>, d: nat): seq<nat>
    decreases branches
  {
    if branches == [] then []
    else RenameBranch(mods, env, branches[0], d) + RenameBranches(mods, env, branches[1..], d)
  }

  function RenameBranch(mods: Modules, env: Env, b: Branch, d: nat): seq<nat>
    decreases b
  {
    var (branchEnv, declared) := RenamePush(env, b.pattern, Nil, d);
    declared + RenameExpr(mods, branchEnv, b.body, d)
  }

  /** `reference_push_pattern_bindings`: the environment, and the nodes reported on the way. */
  function ReferencePush(env: Env, p: Ast, value: Ast, d: nat, withDeclaration: bool): (Env, seq<nat>)
    decreases p
  {
    match p
    case Let(_, _, binding, expr, _) => ReferencePush(env, binding, expr, d, withDeclaration)
    case Ident(id, name, _, _) =>
      if name != "_" then ([Binding(name, id, value)] + env, (if withDeclaration && id == d then [id] else []))
          else (env, [])
    case Parts(_, shape, parts) => if shape.Plain? then (env, []) else ReferencePushAll(env, parts, d, withDeclaration)
    case _ => (env, [])
  }

  function ReferencePushAll(env: Env, ps: seq<Ast>, d: nat, withDeclaration: bool): (Env, seq<nat>)
    decreases ps
  {
    if ps == [] then (env, [])
    else
      var (env1, first) := ReferencePush(env, ps[0], Nil, d, withDeclaration);
      var (env2, rest) := ReferencePushAll(env1, ps[1..], d, withDeclaration);
      (env2, first + rest)
  }

  /** `reference_collect_expr` and the functions it calls: the nodes reported for the definition `d`. */
  function ReferenceExpr(mods: Modules, env: Env, t: Ast, d: nat, withDeclaration: bool): seq<nat>
    decreases t
  {
    match t
    case Ident(id, name, _, _) =>
      (match Lookup(env, name)
       case None => []
       case Some(b) => if b.definition == d then [id] else [])
    case Body(_, stmts) => ReferenceStmts(mods, env, stmts, d, withDeclaration)
    case Let(id, _, binding, expr, inExpr) =>
      var (bodyEnv, declared) := ReferencePush(env, binding, StmtValue(mods, t), d, withDeclaration);
      (if withDeclaration && id == d then [id] else [])
      + (if inExpr.Nil? then declared else [])
      + ReferenceExpr(mods, ExprEnv(env, t), expr, d, withDeclaration)
      + (if inExpr.Nil? then [] else declared + ReferenceExpr(mods, bodyEnv, inExpr, d, withDeclaration))
    case Lambda(_, _, params, body) =>
      var (bodyEnv, declared) := ReferenceParams(mods, env, params, d, withDeclaration);
      declared + ReferenceExpr(mods, bodyEnv, body, d, withDeclaration)
    case Match(_, subject, branches) =>
      ReferenceExpr(mods, env, subject, d, withDeclaration) + ReferenceBranches(mods, env, branches, d, withDeclaration)
    case Record(_, record, member) =>
      ReferenceExpr(mods, env, record, d, withDeclaration)
      + (if member.Ident? && MemberDefinition(mods, env, record, member) == Some(d) then [member.id] else [])
    case Parts(_, _, parts) => ReferenceAll(mods, env, parts, d, withDeclaration)
    case _ => []
  }

  function ReferenceAll(mods: Modules, env: Env, ts: seq<Ast>, d: nat, withDeclaration: bool): seq<nat>
    decreases ts
  {
    if ts == [] then []
    else ReferenceExpr(mods, env, ts[0], d, withDeclaration) + ReferenceAll(mods, env, ts[1..], d, withDeclaration)
  }

  function ReferenceStmts(mods: Modules, env: Env, stmts: seq<Ast>, d: nat, withDeclaration: bool): seq<nat>
    decreases stmts
  {
    if stmts == [] then []
    else ReferenceExpr(mods, env, stmts[0], d, withDeclaration)
         + ReferenceStmts(mods, PushStmt(mods, env, stmts[0]), stmts[1..], d, withDeclaration)
  }

  function ReferenceParams(mods: Modules, env: Env, params: seq<Ast>, d: nat, withDeclaration: bool): (Env, seq<nat>)
    decreases params
  {
    if params == [] then (env, [])
    else
      var (env1, declared) := ReferencePush(env, params[0], Nil, d, withDeclaration);
      var (env2, rest) := ReferenceParams(mods, env1, params[1..], d, withDeclaration);
      (env2, ReferenceDefault(mods, env, params[0], d, withDeclaration) + declared + rest)
  }

  function ReferenceDefault(mods: Modules, env: Env, param: Ast, d: nat, withDeclaration: bool): seq<nat>
    decreases param
  {
    if param.Let? then ReferenceExpr(mods, env, param.expr, d, withDeclaration) else []
  }

  function ReferenceBranches(mods: Modules, env: Env, branches: seq<Branch>, d: nat, withDeclaration: bool): seq<nat>
    decreases branches
  {
    if branches == [] then []
    else ReferenceBranch(mods, env, branches[0], d, withDeclaration)
         + ReferenceBranches(mods, env, branches[1..], d, withDeclaration)
  }

  function ReferenceBranch(mods: Modules, env: Env, b: Branch, d: nat, withDeclaration: bool): seq<nat>
    decreases b
  {
    var (branchEnv, declared) := ReferencePush(env, b.pattern, Nil, d, withDeclaration);
    declared + ReferenceExpr(mods, branchEnv, b.body, d, withDeclaration)
  }
}
