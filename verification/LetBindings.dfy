/** What go-to-definition answers on the name of a let, and what a rename started there reaches
    (tools/ylc_lsp_server.c): the uses of the name in the `in` part belong to another definition. */
module LetBindings {
  import opened Wrappers
  import opened Scopes
  import opened Collectors
  import opened Declarations
  import opened NameAgreement

  // ---- The uses a name has -------------------------------------------------------------------------

  /** The pattern binds the name. */
  predicate Binds(p: Ast, name: string) {
    PatternLast(p, Nil, name).Some?
  }

  /** Inside the bound expression of a let the name is the let's own. */
  predicate BindsItself(t: Ast, name: string) {
    OwnFunction(t, name).Some?
  }

  /** The identifiers of that name that nothing inside the tree binds. */
  function FreeUses(mods: Modules, t: Ast, name: string): (uses: set<nat>)
    ensures uses <= Uses(t)
    decreases t
  {
    match t
    case Ident(id, own, _, _) => if own == name then {id} else {}
    case Body(_, stmts) => FreeInStmts(mods, stmts, name)
    case Let(_, _, binding, expr, inExpr) =>
      (if BindsItself(t, name) then {} else FreeUses(mods, expr, name))
      + (if Binds(binding, name) then {} else FreeUses(mods, inExpr, name))
    case Lambda(_, _, params, body) =>
      FreeInParams(mods, params, name)
      + (if LastIn(params, name).Some? then {} else FreeUses(mods, body, name))
    case Match(_, subject, branches) => FreeUses(mods, subject, name) + FreeInBranches(mods, branches, name)
    case Record(_, record, _) => FreeUses(mods, record, name)
    case Parts(_, _, parts) => FreeInAll(mods, parts, name)
    case _ => {}
  }

  function FreeInAll(mods: Modules, ts: seq<Ast>, name: string): (uses: set<nat>)
    ensures uses <= AllUses(ts)
    decreases ts
  {
    if ts == [] then {} else FreeUses(mods, ts[0], name) + FreeInAll(mods, ts[1..], name)
  }

  function FreeInStmts(mods: Modules, stmts: seq<Ast>, name: string): (uses: set<nat>)
    ensures uses <= AllUses(stmts)
    decreases stmts
  {
    if stmts == [] then {}
    else
      FreeUses(mods, stmts[0], name)
      + (if StmtDeclares(mods, stmts[0], name).Some? then {} else FreeInStmts(mods, stmts[1..], name))
  }

  function FreeInDefault(mods: Modules, param: Ast, name: string): (uses: set<nat>)
    ensures uses <= DefaultUses(param)
    decreases param
  {
    if param.Let? then FreeUses(mods, param.expr, name) else {}
  }

  /** The defaults see the parameters before them. */
  function FreeInParams(mods: Modules, params: seq<Ast>, name: string): (uses: set<nat>)
    ensures uses <= ParamUses(params)
    decreases params
  {
    if params == [] then {}
    else
      FreeInDefault(mods, params[0], name)
      + (if Binds(params[0], name) then {} else FreeInParams(mods, params[1..], name))
  }

  function FreeInBranches(mods: Modules, branches: seq<Branch>, name: string): (uses: set<nat>)
    ensures uses <= BranchesUses(branches)
    decreases branches
  {
    if branches == [] then {} else FreeInBranch(mods, branches[0], name) + FreeInBranches(mods, branches[1..], name)
  }

  function FreeInBranch(mods: Modules, b: Branch, name: string): (uses: set<nat>)
    ensures uses <= BranchUses(b)
    decreases b
  {
    if Binds(b.pattern, name) then {} else FreeUses(mods, b.body, name)
  }

  // ---- A free use is reported for what its name stands for -------------------------------------------

  lemma PatternLookup(env: Env, p: Ast, value: Ast, name: string)
    requires !Binds(p, name)
    ensures Lookup(PushPattern(env, p, value), name) == Lookup(env, name)
  {
    PatternMeans(env, p, value, name);
    ValueAside(p, value, Nil, name);
  }

  lemma ParamsLookup(env: Env, params: seq<Ast>, name: string)
    requires LastIn(params, name).None?
    ensures Lookup(PushParams(env, params), name) == Lookup(env, name)
  {
    ParamsMean(env, params, name);
  }

  lemma StmtLookup(mods: Modules, env: Env, t: Ast, name: string)
    requires StmtDeclares(mods, t, name).None?
    ensures Lookup(PushStmt(mods, env, t), name) == Lookup(env, name)
  {
    StmtMeans(mods, env, t, name);
  }

  lemma ExprLookup(env: Env, t: Ast, name: string)
    requires !BindsItself(t, name)
    ensures Lookup(ExprEnv(env, t), name) == Lookup(env, name)
  {
    ExprMeans(env, t, name);
  }

  /** The report of a node and what its name stands for agree. */
  predicate Reported(n: nat, uses: set<nat>, nodes: seq<nat>, b: Option<Binding>, d: nat) {
    n in uses && (n in nodes <==> b.Some? && b.value.definition == d)
  }

  lemma {:induction false} FreeReported(mods: Modules, env: Env, t: Ast, name: string, d: nat, n: nat)
    requires Apart(t) && n in FreeUses(mods, t, name)
    ensures Reported(n, Uses(t), RenameExpr(mods, env, t, d), Lookup(env, name), d)
    decreases t, 1
  {
    match t
    case Ident(_, _, _, _) =>
    case Body(_, stmts) => StmtsReported(mods, env, stmts, name, d, n);
    case Let(_, _, _, _, _) => LetReported(mods, env, t, name, d, n);
    case Lambda(_, _, _, _) => LambdaReported(mods, env, t, name, d, n);
    case Match(_, subject, branches) =>
      if n in FreeUses(mods, subject, name) {
        FreeReported(mods, env, subject, name, d, n);
        UsesNamed(subject);
        BranchesWithin(mods, env, branches, d);
      } else {
        BranchesReported(mods, env, branches, name, d, n);
        BranchesUsesNamed(branches);
        ExprWithin(mods, env, subject, d);
      }
    case Record(_, record, _) =>
      FreeReported(mods, env, record, name, d, n);
      UsesNamed(record);
    case Parts(_, _, parts) => AllReported(mods, env, parts, name, d, n);
    case _ =>
  }

  lemma {:induction false} LetReported(mods: Modules, env: Env, t: Ast, name: string, d: nat, n: nat)
    requires t.Let? && Apart(t) && n in FreeUses(mods, t, name)
    ensures Reported(n, Uses(t), RenameExpr(mods, env, t, d), Lookup(env, name), d)
    decreases t, 0
  {
    var value := StmtValue(mods, t);
    var bodyEnv := PushPattern(env, t.binding, value);
    PushWithin(env, t.binding, value, d);
    RenamePushEnv(env, t.binding, value, d);
    if !BindsItself(t, name) && n in FreeUses(mods, t.expr, name) {
      ExprLookup(env, t, name);
      FreeReported(mods, ExprEnv(env, t), t.expr, name, d, n);
      UsesNamed(t.expr);
      ExprWithin(mods, bodyEnv, t.inExpr, d);
    } else {
      PatternLookup(env, t.binding, value, name);
      FreeReported(mods, bodyEnv, t.inExpr, name, d, n);
      UsesNamed(t.inExpr);
      ExprWithin(mods, ExprEnv(env, t), t.expr, d);
    }
  }

  lemma {:induction false} LambdaReported(mods: Modules, env: Env, t: Ast, name: string, d: nat, n: nat)
    requires t.Lambda? && Apart(t) && n in FreeUses(mods, t, name)
    ensures Reported(n, Uses(t), RenameExpr(mods, env, t, d), Lookup(env, name), d)
    decreases t, 0
  {
    var bodyEnv := PushParams(env, t.params);
    RenameParamsEnv(mods, env, t.params, d);
    if n in FreeInParams(mods, t.params, name) {
      ParamsReported(mods, env, t.params, name, d, n);
      ParamUsesNamed(t.params);
      ExprWithin(mods, bodyEnv, t.body, d);
    } else {
      ParamsLookup(env, t.params, name);
      FreeReported(mods, bodyEnv, t.body, name, d, n);
      UsesNamed(t.body);
      ParamsWithin(mods, env, t.params, d);
    }
  }

  lemma {:induction false} AllReported(mods: Modules, env: Env, ts: seq<Ast>, name: string, d: nat, n: nat)
    requires AllApart(ts) && n in FreeInAll(mods, ts, name)
    ensures Reported(n, AllUses(ts), RenameAll(mods, env, ts, d), Lookup(env, name), d)
    decreases ts, 0
  {
    if n in FreeUses(mods, ts[0], name) {
      FreeReported(mods, env, ts[0], name, d, n);
      UsesNamed(ts[0]);
      AllWithin(mods, env, ts[1..], d);
    } else {
      AllReported(mods, env, ts[1..], name, d, n);
      AllUsesNamed(ts[1..]);
      ExprWithin(mods, env, ts[0], d);
    }
  }

  lemma {:induction false} StmtsReported(mods: Modules, env: Env, stmts: seq<Ast>, name: string, d: nat, n: nat)
    requires AllApart(stmts) && n in FreeInStmts(mods, stmts, name)
    ensures Reported(n, AllUses(stmts), RenameStmts(mods, env, stmts, d), Lookup(env, name), d)
    decreases stmts, 0
  {
    var env' := PushStmt(mods, env, stmts[0]);
    if n in FreeUses(mods, stmts[0], name) {
      FreeReported(mods, env, stmts[0], name, d, n);
      UsesNamed(stmts[0]);
      StmtsWithin(mods, env', stmts[1..], d);
    } else {
      StmtLookup(mods, env, stmts[0], name);
      StmtsReported(mods, env', stmts[1..], name, d, n);
      AllUsesNamed(stmts[1..]);
      ExprWithin(mods, env, stmts[0], d);
    }
  }

  lemma {:induction false} DefaultReported(mods: Modules, env: Env, param: Ast, name: string, d: nat, n: nat)
    requires DefaultApart(param) && n in FreeInDefault(mods, param, name)
    ensures Reported(n, DefaultUses(param), RenameDefault(mods, env, param, d), Lookup(env, name), d)
    decreases param, 0
  {
    FreeReported(mods, env, param.expr, name, d, n);
    UsesNamed(param.expr);
  }

  lemma {:induction false} ParamsReported(mods: Modules, env: Env, params: seq<Ast>, name: string, d: nat, n: nat)
    requires ParamsApart(params) && n in FreeInParams(mods, params, name)
    ensures Reported(n, ParamUses(params), RenameParams(mods, env, params, d).1, Lookup(env, name), d)
    decreases params, 0
  {
    var p := params[0];
    var env' := PushPattern(env, p, Nil);
    PushWithin(env, p, Nil, d);
    RenamePushEnv(env, p, Nil, d);
    if n in FreeInDefault(mods, p, name) {
      DefaultReported(mods, env, p, name, d, n);
      DefaultUsesNamed(p);
      ParamsWithin(mods, env', params[1..], d);
    } else {
      PatternLookup(env, p, Nil, name);
      ParamsReported(mods, env', params[1..], name, d, n);
      ParamUsesNamed(params[1..]);
      DefaultWithin(mods, env, p, d);
    }
  }

  lemma {:induction false} BranchReported(mods: Modules, env: Env, b: Branch, name: string, d: nat, n: nat)
    requires BranchApart(b) && n in FreeInBranch(mods, b, name)
    ensures Reported(n, BranchUses(b), RenameBranch(mods, env, b, d), Lookup(env, name), d)
    decreases b, 0
  {
    PushWithin(env, b.pattern, Nil, d);
    RenamePushEnv(env, b.pattern, Nil, d);
    PatternLookup(env, b.pattern, Nil, name);
    FreeReported(mods, PushPattern(env, b.pattern, Nil), b.body, name, d, n);
    UsesNamed(b.body);
  }

  lemma {:induction false} BranchesReported(mods: Modules, env: Env, branches: seq<Branch>, name: string, d: nat,
                                            n: nat)
    requires BranchesApart(branches) && n in FreeInBranches(mods, branches, name)
    ensures Reported(n, BranchesUses(branches), RenameBranches(mods, env, branches, d), Lookup(env, name), d)
    decreases branches, 0
  {
    if n in FreeInBranch(mods, branches[0], name) {
      BranchReported(mods, env, branches[0], name, d, n);
      BranchUsesNamed(branches[0]);
      BranchesWithin(mods, env, branches[1..], d);
    } else {
      BranchesReported(mods, env, branches[1..], name, d, n);
      BranchesUsesNamed(branches[1..]);
      BranchWithin(mods, env, branches[0], d);
    }
  }

  // ---- A tree inside a document ------------------------------------------------------------------------

  /** The walks reach `t`, somewhere in `root`, with the scope `at`. */
  predicate Walked(mods: Modules, env: Env, root: Ast, at: Env, t: Ast)
    decreases root
  {
    || (root == t && env == at)
    || match root
       case Body(_, stmts) => WalkedStmts(mods, env, stmts, at, t)
       case Let(_, _, binding, expr, inExpr) =>
         || Walked(mods, ExprEnv(env, root), expr, at, t)
         || Walked(mods, PushPattern(env, binding, StmtValue(mods, root)), inExpr, at, t)
       case Lambda(_, _, params, body) =>
         WalkedParams(mods, env, params, at, t) || Walked(mods, PushParams(env, params), body, at, t)
       case Match(_, subject, branches) => Walked(mods, env, subject, at, t)
           || WalkedBranches(mods, env, branches, at, t)
       case Record(_, record, _) => Walked(mods, env, record, at, t)
       case Parts(_, _, parts) => WalkedAll(mods, env, parts, at, t)
       case _ => false
  }

  predicate WalkedAll(mods: Modules, env: Env, ts: seq<Ast>, at: Env, t: Ast)
    decreases ts
  {
    ts != [] && (Walked(mods, env, ts[0], at, t) || WalkedAll(mods, env, ts[1..], at, t))
  }

  predicate WalkedStmts(mods: Modules, env: Env, stmts: seq<Ast>, at: Env, t: Ast)
    decreases stmts
  {
    stmts != []
        && (Walked(mods, env, stmts[0], at, t) || WalkedStmts(mods, PushStmt(mods, env, stmts[0]), stmts[1..], at, t))
  }

  predicate WalkedDefault(mods: Modules, env: Env, param: Ast, at: Env, t: Ast)
    decreases param
  {
    param.Let? && Walked(mods, env, param.expr, at, t)
  }

  predicate WalkedParams(mods: Modules, env: Env, params: seq<Ast>, at: Env, t: Ast)
    decreases params
  {
    params != []
    && (WalkedDefault(mods, env, params[0], at, t)
        || WalkedParams(mods, PushPattern(env, params[0], Nil), params[1..], at, t))
  }

  predicate WalkedBranch(mods: Modules, env: Env, b: Branch, at: Env, t: Ast)
    decreases b
  {
    Walked(mods, PushPattern(env, b.pattern, Nil), b.body, at, t)
  }

  predicate WalkedBranches(mods: Modules, env: Env, branches: seq<Branch>, at: Env, t: Ast)
    decreases branches
  {
    branches != [] && (WalkedBranch(mods, env, branches[0], at, t) || WalkedBranches(mods, env, branches[1..], at, t))
  }

  /** What is named in a part is named in the document. */
  lemma {:induction false} WalkedIds(mods: Modules, env: Env, root: Ast, at: Env, t: Ast)
    requires Walked(mods, env, root, at, t)
    ensures Ids(t) <= Ids(root)
    decreases root
  {
    if root == t && env == at {
      return;
    }
    match root
    case Body(_, stmts) => StmtsIds(mods, env, stmts, at, t);
    case Let(_, _, binding, expr, inExpr) =>
      if Walked(mods, ExprEnv(env, root), expr, at, t) {
        WalkedIds(mods, ExprEnv(env, root), expr, at, t);
      } else {
        WalkedIds(mods, PushPattern(env, binding, StmtValue(mods, root)), inExpr, at, t);
      }
    case Lambda(_, _, params, body) =>
      if WalkedParams(mods, env, params, at, t) {
        ParamsIds(mods, env, params, at, t);
      } else {
        WalkedIds(mods, PushParams(env, params), body, at, t);
      }
    case Match(_, subject, branches) =>
      if Walked(mods, env, subject, at, t) {
        WalkedIds(mods, env, subject, at, t);
      } else {
        BranchIdsIn(mods, env, branches, at, t);
      }
    case Record(_, record, _) => WalkedIds(mods, env, record, at, t);
    case Parts(_, _, parts) => PartsIds(mods, env, parts, at, t);
  }

  lemma {:induction false} PartsIds(mods: Modules, env: Env, ts: seq<Ast>, at: Env, t: Ast)
    requires WalkedAll(mods, env, ts, at, t)
    ensures Ids(t) <= AllIds(ts)
    decreases ts
  {
    if Walked(mods, env, ts[0], at, t) {
      WalkedIds(mods, env, ts[0], at, t);
    } else {
      PartsIds(mods, env, ts[1..], at, t);
    }
  }

  lemma {:induction false} StmtsIds(mods: Modules, env: Env, stmts: seq<Ast>, at: Env, t: Ast)
    requires WalkedStmts(mods, env, stmts, at, t)
    ensures Ids(t) <= AllIds(stmts)
    decreases stmts
  {
    if Walked(mods, env, stmts[0], at, t) {
      WalkedIds(mods, env, stmts[0], at, t);
    } else {
      StmtsIds(mods, PushStmt(mods, env, stmts[0]), stmts[1..], at, t);
    }
  }

  lemma {:induction false} DefaultIdsIn(mods: Modules, env: Env, param: Ast, at: Env, t: Ast)
    requires WalkedDefault(mods, env, param, at, t)
    ensures Ids(t) <= DefaultIds(param)
    decreases param
  {
    WalkedIds(mods, env, param.expr, at, t);
  }

  lemma {:induction false} ParamsIds(mods: Modules, env: Env, params: seq<Ast>, at: Env, t: Ast)
    requires WalkedParams(mods, env, params, at, t)
    ensures Ids(t) <= ParamIds(params)
    decreases params
  {
    if WalkedDefault(mods, env, params[0], at, t) {
      DefaultIdsIn(mods, env, params[0], at, t);
    } else {
      ParamsIds(mods, PushPattern(env, params[0], Nil), params[1..], at, t);
    }
  }

  lemma {:induction false} OneBranchIds(mods: Modules, env: Env, b: Branch, at: Env, t: Ast)
    requires WalkedBranch(mods, env, b, at, t)
    ensures Ids(t) <= BranchIds(b)
    decreases b
  {
    WalkedIds(mods, PushPattern(env, b.pattern, Nil), b.body, at, t);
  }

  lemma {:induction false} BranchIdsIn(mods: Modules, env: Env, branches: seq<Branch>, at: Env, t: Ast)
    requires WalkedBranches(mods, env, branches, at, t)
    ensures Ids(t) <= BranchesIds(branches)
    decreases branches
  {
    if WalkedBranch(mods, env, branches[0], at, t) {
      OneBranchIds(mods, env, branches[0], at, t);
    } else {
      BranchIdsIn(mods, env, branches[1..], at, t);
    }
  }

  /** The cursor's node belongs to the part, and outside the part nothing is reported of it and, when the
      cursor is on no other identifier, nothing is found. */
  predicate Decided(c: Cursor, ids: set<nat>, uses: set<nat>, nodes: seq<nat>, sharp: bool, r: Outcome, inner: seq<nat>,
                    t: Ast, result: Outcome)
  {
    && c.target in ids && Apart(t) && (c.target in Uses(t) ==> c.target in uses)
    && (c.target in nodes <==> c.target in inner)
    && (sharp ==> Sharp(c, t) && r == result)
  }

  lemma {:induction false} WalkedDecides(mods: Modules, c: Cursor, env: Env, root: Ast, at: Env, t: Ast, d: nat)
    requires Apart(root) && Walked(mods, env, root, at, t) && c.target in Ids(t)
    ensures Decided(c, Ids(root), Uses(root), RenameExpr(mods, env, root, d), Sharp(c, root),
                    Resolve(mods, c, env, root), RenameExpr(mods, at, t, d), t, Resolve(mods, c, at, t))
    decreases root, 1
  {
    if root == t && env == at {
      return;
    }
    match root
    case Body(_, stmts) => StmtsDecide(mods, c, env, stmts, at, t, d);
    case Let(_, _, _, _, _) => LetDecides(mods, c, env, root, at, t, d);
    case Lambda(_, _, _, _) => LambdaDecides(mods, c, env, root, at, t, d);
    case Match(_, _, _) => MatchDecides(mods, c, env, root, at, t, d);
    case Record(_, record, _) => WalkedDecides(mods, c, env, record, at, t, d);
    case Parts(_, _, parts) => AllDecide(mods, c, env, parts, at, t, d);
  }

  lemma {:induction false} MatchDecides(mods: Modules, c: Cursor, env: Env, root: Ast, at: Env, t: Ast, d: nat)
    requires root.Match? && Apart(root) && c.target in Ids(t)
    requires Walked(mods, env, root.subject, at, t) || WalkedBranches(mods, env, root.branches, at, t)
    ensures Decided(c, Ids(root), Uses(root), RenameExpr(mods, env, root, d), Sharp(c, root),
                    Resolve(mods, c, env, root), RenameExpr(mods, at, t, d), t, Resolve(mods, c, at, t))
    decreases root, 0
  {
    if Walked(mods, env, root.subject, at, t) {
      WalkedDecides(mods, c, env, root.subject, at, t, d);
      BranchesWithin(mods, env, root.branches, d);
      if Sharp(c, root) {
        BranchesMissed(mods, c, env, root.branches);
      }
    } else {
      BranchesDecide(mods, c, env, root.branches, at, t, d);
      ExprWithin(mods, env, root.subject, d);
      if Sharp(c, root) {
        Missed(mods, c, env, root.subject);
      }
    }
  }

  lemma {:induction false} LetDecides(mods: Modules, c: Cursor, env: Env, root: Ast, at: Env, t: Ast, d: nat)
    requires root.Let? && Apart(root) && c.target in Ids(t)
    requires Walked(mods, ExprEnv(env, root), root.expr, at, t)
             || Walked(mods, PushPattern(env, root.binding, StmtValue(mods, root)), root.inExpr, at, t)
    ensures Decided(c, Ids(root), Uses(root), RenameExpr(mods, env, root, d), Sharp(c, root),
                    Resolve(mods, c, env, root), RenameExpr(mods, at, t, d), t, Resolve(mods, c, at, t))
    decreases root, 0
  {
    var value := StmtValue(mods, root);
    var exprEnv, bodyEnv := ExprEnv(env, root), PushPattern(env, root.binding, value);
    PushWithin(env, root.binding, value, d);
    RenamePushEnv(env, root.binding, value, d);
    if Walked(mods, exprEnv, root.expr, at, t) {
      WalkedDecides(mods, c, exprEnv, root.expr, at, t, d);
      ExprWithin(mods, bodyEnv, root.inExpr, d);
      if Sharp(c, root) {
        BindingMissed(c, root);
        Missed(mods, c, bodyEnv, root.inExpr);
      }
    } else {
      WalkedDecides(mods, c, bodyEnv, root.inExpr, at, t, d);
      ExprWithin(mods, exprEnv, root.expr, d);
      if Sharp(c, root) {
        BindingMissed(c, root);
        Missed(mods, c, exprEnv, root.expr);
      }
    }
  }

  lemma {:induction false} LambdaDecides(mods: Modules, c: Cursor, env: Env, root: Ast, at: Env, t: Ast, d: nat)
    requires root.Lambda? && Apart(root) && c.target in Ids(t)
    requires WalkedParams(mods, env, root.params, at, t) || Walked(mods, PushParams(env, root.params), root.body, at, t)
    ensures Decided(c, Ids(root), Uses(root), RenameExpr(mods, env, root, d), Sharp(c, root),
                    Resolve(mods, c, env, root), RenameExpr(mods, at, t, d), t, Resolve(mods, c, at, t))
    decreases root, 0
  {
    var bodyEnv := PushParams(env, root.params);
    RenameParamsEnv(mods, env, root.params, d);
    if WalkedParams(mods, env, root.params, at, t) {
      ParamsDecide(mods, c, env, root.params, at, t, d);
      ExprWithin(mods, bodyEnv, root.body, d);
      if Sharp(c, root) {
        Missed(mods, c, bodyEnv, root.body);
      }
    } else {
      WalkedDecides(mods, c, bodyEnv, root.body, at, t, d);
      ParamsWithin(mods, env, root.params, d);
      if Sharp(c, root) {
        ParamsMissed(mods, c, env, root.params);
      }
    }
  }

  lemma {:induction false} AllDecide(mods: Modules, c: Cursor, env: Env, ts: seq<Ast>, at: Env, t: Ast, d: nat)
    requires AllApart(ts) && WalkedAll(mods, env, ts, at, t) && c.target in Ids(t)
    ensures Decided(c, AllIds(ts), AllUses(ts), RenameAll(mods, env, ts, d), AllSharp(c, ts),
                    ResolveAll(mods, c, env, ts), RenameExpr(mods, at, t, d), t, Resolve(mods, c, at, t))
    decreases ts, 0
  {
    if Walked(mods, env, ts[0], at, t) {
      WalkedDecides(mods, c, env, ts[0], at, t, d);
      AllWithin(mods, env, ts[1..], d);
      if AllSharp(c, ts) {
        AllMissed(mods, c, env, ts[1..]);
      }
    } else {
      AllDecide(mods, c, env, ts[1..], at, t, d);
      ExprWithin(mods, env, ts[0], d);
      if AllSharp(c, ts) {
        Missed(mods, c, env, ts[0]);
      }
    }
  }

  lemma {:induction false} StmtsDecide(mods: Modules, c: Cursor, env: Env, stmts: seq<Ast>, at: Env, t: Ast, d: nat)
    requires AllApart(stmts) && WalkedStmts(mods, env, stmts, at, t) && c.target in Ids(t)
    ensures Decided(c, AllIds(stmts), AllUses(stmts), RenameStmts(mods, env, stmts, d), AllSharp(c, stmts),
                    ResolveStmts(mods, c, env, stmts), RenameExpr(mods, at, t, d), t, Resolve(mods, c, at, t))
    decreases stmts, 0
  {
    var env' := PushStmt(mods, env, stmts[0]);
    if Walked(mods, env, stmts[0], at, t) {
      WalkedDecides(mods, c, env, stmts[0], at, t, d);
      StmtsWithin(mods, env', stmts[1..], d);
      if AllSharp(c, stmts) {
        StmtsMissed(mods, c, env', stmts[1..]);
      }
    } else {
      StmtsDecide(mods, c, env', stmts[1..], at, t, d);
      ExprWithin(mods, env, stmts[0], d);
      if AllSharp(c, stmts) {
        Missed(mods, c, env, stmts[0]);
      }
    }
  }

  lemma {:induction false} DefaultDecides(mods: Modules, c: Cursor, env: Env, param: Ast, at: Env, t: Ast, d: nat)
    requires DefaultApart(param) && WalkedDefault(mods, env, param, at, t) && c.target in Ids(t)
    ensures Decided(c, DefaultIds(param), DefaultUses(param), RenameDefault(mods, env, param, d),
                    DefaultSharp(c, param),
                    ResolveDefault(mods, c, env, param), RenameExpr(mods, at, t, d), t, Resolve(mods, c, at, t))
    decreases param, 0
  {
    WalkedDecides(mods, c, env, param.expr, at, t, d);
  }

  lemma {:induction false} ParamsDecide(mods: Modules, c: Cursor, env: Env, params: seq<Ast>, at: Env, t: Ast, d: nat)
    requires ParamsApart(params) && WalkedParams(mods, env, params, at, t) && c.target in Ids(t)
    ensures Decided(c, ParamIds(params), ParamUses(params), RenameParams(mods, env, params, d).1,
                    ParamsSharp(c, params),
                    ResolveParams(mods, c, env, params), RenameExpr(mods, at, t, d), t, Resolve(mods, c, at, t))
    decreases params, 0
  {
    var p := params[0];
    var env' := PushPattern(env, p, Nil);
    PushWithin(env, p, Nil, d);
    RenamePushEnv(env, p, Nil, d);
    if WalkedDefault(mods, env, p, at, t) {
      DefaultDecides(mods, c, env, p, at, t, d);
      ParamsWithin(mods, env', params[1..], d);
      if ParamsSharp(c, params) {
        PatternMissed(c, p);
        ParamsMissed(mods, c, env', params[1..]);
      }
    } else {
      ParamsDecide(mods, c, env', params[1..], at, t, d);
      DefaultWithin(mods, env, p, d);
      if ParamsSharp(c, params) {
        PatternMissed(c, p);
        DefaultMissed(mods, c, env, p);
      }
    }
  }

  lemma {:induction false} BranchDecides(mods: Modules, c: Cursor, env: Env, b: Branch, at: Env, t: Ast, d: nat)
    requires BranchApart(b) && WalkedBranch(mods, env, b, at, t) && c.target in Ids(t)
    ensures Decided(c, BranchIds(b), BranchUses(b), RenameBranch(mods, env, b, d), BranchSharp(c, b),
                    ResolveBranch(mods, c, env, b), RenameExpr(mods, at, t, d), t, Resolve(mods, c, at, t))
    decreases b, 0
  {
    PushWithin(env, b.pattern, Nil, d);
    RenamePushEnv(env, b.pattern, Nil, d);
    WalkedDecides(mods, c, PushPattern(env, b.pattern, Nil), b.body, at, t, d);
    if BranchSharp(c, b) {
      PatternMissed(c, b.pattern);
    }
  }

  lemma {:induction false} BranchesDecide(mods: Modules, c: Cursor, env: Env, branches: seq<Branch>, at: Env, t: Ast,
                                          d: nat)
    requires BranchesApart(branches) && WalkedBranches(mods, env, branches, at, t) && c.target in Ids(t)
    ensures Decided(c, BranchesIds(branches), BranchesUses(branches), RenameBranches(mods, env, branches, d),
                    BranchesSharp(c, branches),
                    ResolveBranches(mods, c, env, branches), RenameExpr(mods, at, t, d), t, Resolve(mods, c, at, t))
    decreases branches, 0
  {
    if WalkedBranch(mods, env, branches[0], at, t) {
      BranchDecides(mods, c, env, branches[0], at, t, d);
      BranchesWithin(mods, env, branches[1..], d);
      if BranchesSharp(c, branches) {
        BranchesMissed(mods, c, env, branches[1..]);
      }
    } else {
      BranchesDecide(mods, c, env, branches[1..], at, t, d);
      BranchWithin(mods, env, branches[0], d);
      if BranchesSharp(c, branches) {
        BranchMissed(mods, c, env, branches[0]);
      }
    }
  }

  // ---- The declaration of a let -------------------------------------------------------------------------

  /** A let that binds one name. */
  predicate NamesOne(t: Ast) {
    t.Let? && t.binding.Ident? && t.binding.name != "_"
  }

  /** The uses the let binds: in its own expression, if it is a function, and in its `in` part. */
  function BoundUses(mods: Modules, t: Ast): set<nat>
    requires NamesOne(t)
  {
    (if BindsItself(t, t.binding.name) then FreeUses(mods, t.expr, t.binding.name) else {})
    + FreeUses(mods, t.inExpr, t.binding.name)
  }

  /** Inside the let: a use in its own expression belongs to the let, one in the `in` part to the name bound. */
  lemma BoundReported(mods: Modules, env: Env, t: Ast, d: nat, n: nat)
    requires NamesOne(t) && Apart(t) && n in BoundUses(mods, t)
    ensures n in Uses(t)
    ensures n in RenameExpr(mods, env, t, d)
            <==> d == if n in FreeUses(mods, t.inExpr, t.binding.name) then t.binding.id else t.id
  {
    var name, value := t.binding.name, StmtValue(mods, t);
    var bodyEnv := PushPattern(env, t.binding, value);
    RenamePushEnv(env, t.binding, value, d);
    PushWithin(env, t.binding, value, d);
    if n in FreeUses(mods, t.inExpr, name) {
      FreeReported(mods, bodyEnv, t.inExpr, name, d, n);
      UsesNamed(t.inExpr);
      ExprWithin(mods, ExprEnv(env, t), t.expr, d);
    } else {
      FreeReported(mods, ExprEnv(env, t), t.expr, name, d, n);
      UsesNamed(t.expr);
      ExprWithin(mods, bodyEnv, t.inExpr, d);
    }
  }

  /** On the name that a let binds, anywhere in a document, the search answers with the let. A rename started
      there, and find-references there, reach every use that the let binds if and only if its `in` part has
      no use of the name; they reach none of those in the `in` part, which all belong to the name itself. */
  lemma LetInDeclaration(mods: Modules, root: Ast, at: Env, t: Ast)
    requires Apart(root) && Walked(mods, [], root, at, t) && NamesOne(t)
    ensures forall c: Cursor :: c.target == t.binding.id && Sharp(c, root) && On(c, t.binding) ==>
              Resolve(mods, c, [], root) == Found(Some(t.id))
    ensures (forall n :: n in BoundUses(mods, t) ==> n in RenameExpr(mods, [], root, t.id))
       <==> FreeUses(mods, t.inExpr, t.binding.name) == {}
    ensures forall withDeclaration: bool ::
              (forall n :: n in BoundUses(mods, t) ==> n in ReferenceExpr(mods, [], root, t.id, withDeclaration))
              <==> FreeUses(mods, t.inExpr, t.binding.name) == {}
    ensures forall n :: n in FreeUses(mods, t.inExpr, t.binding.name) ==>
              n !in RenameExpr(mods, [], root, t.id) && n in RenameExpr(mods, [], root, t.binding.id)
  {
    hide Walked;
    hide RenameExpr;
    hide ReferenceExpr;
    hide FreeUses;
    hide Sharp;
    forall c: Cursor | c.target == t.binding.id && Sharp(c, root) && On(c, t.binding)
      ensures Resolve(mods, c, [], root) == Found(Some(t.id))
    {
      WalkedDecides(mods, c, [], root, at, t, t.id);
    }
    forall n, d | n in BoundUses(mods, t)
      ensures n in RenameExpr(mods, [], root, d)
              <==> d == if n in FreeUses(mods, t.inExpr, t.binding.name) then t.binding.id else t.id
    {
      BoundInDocument(mods, root, at, t, d, n);
    }
    forall n, withDeclaration: bool | n in BoundUses(mods, t)
      ensures n in ReferenceExpr(mods, [], root, t.id, withDeclaration) <==> n in RenameExpr(mods, [], root, t.id)
    {
      BoundInDocument(mods, root, at, t, t.id, n);
      UseListed(mods, root, t.id, n, withDeclaration);
    }
    LetApart(mods, root, at, t);
    assert forall n :: n in FreeUses(mods, t.inExpr, t.binding.name) ==> n in BoundUses(mods, t);
  }

  lemma BoundInDocument(mods: Modules, root: Ast, at: Env, t: Ast, d: nat, n: nat)
    requires Apart(root) && Walked(mods, [], root, at, t) && NamesOne(t) && n in BoundUses(mods, t)
    ensures n in Uses(root)
    ensures n in RenameExpr(mods, [], root, d)
            <==> d == if n in FreeUses(mods, t.inExpr, t.binding.name) then t.binding.id else t.id
  {
    hide RenameExpr;
    hide FreeUses;
    hide Sharp;
    LetApart(mods, root, at, t);
    BoundReported(mods, at, t, d, n);
    UsesNamed(t);
    WalkedDecides(mods, Cursor(n, "", 0), [], root, at, t, d);
  }

  lemma LetApart(mods: Modules, root: Ast, at: Env, t: Ast)
    requires Apart(root) && Walked(mods, [], root, at, t) && NamesOne(t)
    ensures Apart(t) && t.id != t.binding.id
  {
    hide RenameExpr;
    hide Sharp;
    WalkedDecides(mods, Cursor(t.id, "", 0), [], root, at, t, t.id);
  }

  /** `let x = e in x`: a rename started on the declaration changes the let and leaves out the use. */
  lemma UseLeftOut(mods: Modules)
    ensures var use := Ident(3, "x", 10, 10);
            var t := Let(0, LetBinding, Ident(1, "x", 4, 4), Leaf(2), use);
            && Resolve(mods, Cursor(1, "x", 4), [], t) == Found(Some(0))
            && RenameExpr(mods, [], t, 0) == [0]
            && Resolve(mods, Cursor(3, "x", 10), [], t) == Found(Some(1))
            && RenameExpr(mods, [], t, 1) == [1, 3]
  {
    var use := Ident(3, "x", 10, 10);
    var t := Let(0, LetBinding, Ident(1, "x", 4, 4), Leaf(2), use);
    var bodyEnv := PushPattern([], t.binding, StmtValue(mods, t));
    assert bodyEnv == [Binding("x", 1, Nil)];
    assert Lookup(bodyEnv, "x") == Some(bodyEnv[0]);
    assert RenameExpr(mods, bodyEnv, use, 0) == [] && RenameExpr(mods, bodyEnv, use, 1) == [3];
  }
}
