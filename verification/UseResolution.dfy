/** Which declaration a use belongs to (tools/ylc_lsp_server.c), read off the tree: what the search answers on a use,
    and what rename reports it for, anywhere in a document. */
module UseResolution {
  import opened Wrappers
  import opened Scopes
  import opened Collectors
  import opened Declarations
  import opened NameAgreement
  import opened LetBindings

  function Definition(b: Option<Binding>): Option<nat> {
    match b
    case None => None
    case Some(binding) => Some(binding.definition)
  }

  /** The search on the use ends at `d`, and a rename of `k` changes the use exactly if `k` is `d`. */
  ghost predicate Leads(mods: Modules, c: Cursor, env: Env, root: Ast, d: Option<nat>) {
    && Resolve(mods, c, env, root) == Found(d)
    && forall k: nat :: c.target in RenameExpr(mods, env, root, k) <==> d == Some(k)
  }

  /** A use that nothing in the tree binds means what its name means around the tree. */
  lemma FreeUse(mods: Modules, c: Cursor, env: Env, t: Ast, name: string)
    requires Apart(t) && Sharp(c, t) && c.target in FreeUses(mods, t, name)
    ensures Leads(mods, c, env, t, Definition(Lookup(env, name)))
  {
    hide FreeUses;
    hide Resolve;
    hide RenameExpr;
    hide Sharp;
    hide Apart;
    hide Uses;
    var d := Definition(Lookup(env, name));
    forall k: nat
      ensures c.target in RenameExpr(mods, env, t, k) <==> d == Some(k)
      ensures Same(RenameExpr(mods, env, t, k), Resolve(mods, c, env, t), c, k)
    {
      FreeReported(mods, env, t, name, k, c.target);
      RenameAgrees(mods, c, env, t, k);
    }
    var r := Resolve(mods, c, env, t);
    assert Same(RenameExpr(mods, env, t, 0), r, c, 0);
    if r.definition.Some? {
      assert Same(RenameExpr(mods, env, t, r.definition.value), r, c, r.definition.value);
    }
  }

  /** The answer does not change from a tree to a document around it. */
  lemma InDocument(mods: Modules, c: Cursor, env: Env, root: Ast, at: Env, t: Ast, d: Option<nat>)
    requires Apart(root) && Sharp(c, root) && Walked(mods, env, root, at, t) && c.target in Ids(t)
    requires Leads(mods, c, at, t, d)
    ensures Leads(mods, c, env, root, d)
  {
    hide Resolve;
    hide RenameExpr;
    hide Sharp;
    hide Apart;
    hide Ids;
    hide Uses;
    hide Walked;
    forall k: nat
      ensures c.target in RenameExpr(mods, env, root, k) <==> d == Some(k)
    {
      WalkedDecides(mods, c, env, root, at, t, k);
    }
    WalkedDecides(mods, c, env, root, at, t, 0);
  }

  /** A use in a part `u` of a part `t` of the document. */
  lemma InPart(mods: Modules, c: Cursor, env: Env, root: Ast, at: Env, t: Ast, inside: Env, u: Ast, name: string)
    requires Apart(root) && Sharp(c, root) && Walked(mods, env, root, at, t) && Walked(mods, at, t, inside, u)
    requires c.target in FreeUses(mods, u, name)
    ensures Leads(mods, c, env, root, Definition(Lookup(inside, name)))
  {
    hide Resolve;
    hide RenameExpr;
    hide Sharp;
    hide Apart;
    hide Ids;
    hide Uses;
    hide Walked;
    hide FreeUses;
    hide Leads;
    var d := Definition(Lookup(inside, name));
    UsesNamed(u);
    WalkedIds(mods, at, t, inside, u);
    WalkedDecides(mods, c, env, root, at, t, 0);
    WalkedDecides(mods, c, at, t, inside, u, 0);
    FreeUse(mods, c, inside, u, name);
    InDocument(mods, c, at, t, inside, u, d);
    InDocument(mods, c, env, root, at, t, d);
  }

  // ---- Where a use leads ----------------------------------------------------------------------------

  lemma {:induction false} StatementWalked(mods: Modules, env: Env, stmts: seq<Ast>, j: nat)
    requires j < |stmts|
    ensures WalkedStmts(mods, env, stmts, After(mods, env, stmts[..j]), stmts[j])
    decreases j
  {
    hide PushStmt;
    if j > 0 {
      var env' := PushStmt(mods, env, stmts[0]);
      StatementWalked(mods, env', stmts[1..], j - 1);
      assert stmts[..j][0] == stmts[0] && stmts[..j][1..] == stmts[1..][..j - 1];
    } else {
      assert stmts[..0] == [];
    }
  }

  /** In a body, a use that nothing inside its statement binds belongs to the last statement before it that declares the
      name: to that let or type declaration, or to what that import brings in. If there is none, it means what the name
      means around the body. */
  lemma UseInBody(mods: Modules, c: Cursor, env: Env, root: Ast, at: Env, t: Ast, j: nat, name: string)
    requires Apart(root) && Sharp(c, root) && Walked(mods, env, root, at, t)
    requires t.Body? && j < |t.stmts| && c.target in FreeUses(mods, t.stmts[j], name)
    ensures Leads(mods, c, env, root,
                  Definition(Either(LastDeclared(mods, t.stmts[..j], name), Lookup(at, name))))
  {
    var stmts := t.stmts;
    StatementWalked(mods, at, stmts, j);
    AfterMeans(mods, at, stmts[..j], name);
    InPart(mods, c, env, root, at, t, After(mods, at, stmts[..j]), stmts[j], name);
  }

  /** In a let, a use in the `in` part belongs to the name bound; one in a function's own expression to the let. */
  lemma UseInLet(mods: Modules, c: Cursor, env: Env, root: Ast, at: Env, t: Ast, name: string)
    requires Apart(root) && Sharp(c, root) && Walked(mods, env, root, at, t) && t.Let?
    ensures c.target in FreeUses(mods, t.inExpr, name) ==>
              Leads(mods, c, env, root,
                    Definition(Either(PatternLast(t.binding, StmtValue(mods, t), name), Lookup(at, name))))
    ensures c.target in FreeUses(mods, t.expr, name) ==>
              Leads(mods, c, env, root, Definition(Either(OwnFunction(t, name), Lookup(at, name))))
  {
    hide Leads;
    hide FreeUses;
    hide Apart;
    hide Sharp;
    var bodyEnv := PushPattern(at, t.binding, StmtValue(mods, t));
    if c.target in FreeUses(mods, t.inExpr, name) {
      PatternMeans(at, t.binding, StmtValue(mods, t), name);
      assert Walked(mods, at, t, bodyEnv, t.inExpr);
      InPart(mods, c, env, root, at, t, bodyEnv, t.inExpr, name);
    }
    if c.target in FreeUses(mods, t.expr, name) {
      ExprMeans(at, t, name);
      assert Walked(mods, at, t, ExprEnv(at, t), t.expr);
      InPart(mods, c, env, root, at, t, ExprEnv(at, t), t.expr, name);
    }
  }

  /** In a function, a use belongs to the last parameter that declares the name; a default value sees the parameters
      before its own. */
  lemma UseInBodyOfLambda(mods: Modules, c: Cursor, env: Env, root: Ast, at: Env, t: Ast, name: string)
    requires Apart(root) && Sharp(c, root) && Walked(mods, env, root, at, t)
    requires t.Lambda? && c.target in FreeUses(mods, t.body, name)
    ensures Leads(mods, c, env, root, Definition(Either(LastIn(t.params, name), Lookup(at, name))))
  {
    hide Leads;
    hide FreeUses;
    hide Apart;
    hide Sharp;
    var bodyEnv := PushParams(at, t.params);
    ParamsMean(at, t.params, name);
    assert Walked(mods, at, t, bodyEnv, t.body);
    InPart(mods, c, env, root, at, t, bodyEnv, t.body, name);
  }

  lemma UseInDefault(mods: Modules, c: Cursor, env: Env, root: Ast, at: Env, t: Ast, j: nat, name: string)
    requires Apart(root) && Sharp(c, root) && Walked(mods, env, root, at, t)
    requires t.Lambda? && j < |t.params| && t.params[j].Let? && c.target in FreeUses(mods, t.params[j].expr, name)
    ensures Leads(mods, c, env, root, Definition(Either(LastIn(t.params[..j], name), Lookup(at, name))))
  {
    hide Leads;
    hide FreeUses;
    hide Apart;
    hide Sharp;
    var before := PushParams(at, t.params[..j]);
    ParamsMean(at, t.params[..j], name);
    DefaultWalked(mods, at, t.params, j);
    InPart(mods, c, env, root, at, t, before, t.params[j].expr, name);
  }

  lemma {:induction false} DefaultWalked(mods: Modules, env: Env, params: seq<Ast>, j: nat)
    requires j < |params| && params[j].Let?
    ensures WalkedParams(mods, env, params, PushParams(env, params[..j]), params[j].expr)
    decreases j
  {
    hide PushPattern;
    if j > 0 {
      DefaultWalked(mods, PushPattern(env, params[0], Nil), params[1..], j - 1);
      assert params[..j][0] == params[0] && params[..j][1..] == params[1..][..j - 1];
    } else {
      assert params[..0] == [];
      assert WalkedDefault(mods, env, params[0], env, params[0].expr);
    }
  }

  /** In a branch of a match, a use belongs to the last identifier of that name in the branch's pattern. */
  lemma UseInBranch(mods: Modules, c: Cursor, env: Env, root: Ast, at: Env, t: Ast, j: nat, name: string)
    requires Apart(root) && Sharp(c, root) && Walked(mods, env, root, at, t)
    requires t.Match? && j < |t.branches| && c.target in FreeUses(mods, t.branches[j].body, name)
    ensures Leads(mods, c, env, root,
                  Definition(Either(PatternLast(t.branches[j].pattern, Nil, name), Lookup(at, name))))
  {
    hide Leads;
    hide FreeUses;
    hide Apart;
    hide Sharp;
    var b := t.branches[j];
    PatternMeans(at, b.pattern, Nil, name);
    BranchWalked(mods, at, t.branches, j);
    InPart(mods, c, env, root, at, t, PushPattern(at, b.pattern, Nil), b.body, name);
  }

  lemma {:induction false} BranchWalked(mods: Modules, env: Env, branches: seq<Branch>, j: nat)
    requires j < |branches|
    ensures WalkedBranches(mods, env, branches, PushPattern(env, branches[j].pattern, Nil), branches[j].body)
    decreases j
  {
    if j > 0 {
      BranchWalked(mods, env, branches[1..], j - 1);
    }
  }

  /** On a member of a record, the answer is the first statement of that name in the module that the record stands
      for. */
  lemma UseOfMember(mods: Modules, c: Cursor, env: Env, root: Ast, at: Env, t: Ast)
    requires Apart(root) && Sharp(c, root) && Walked(mods, env, root, at, t)
    requires t.Record? && t.member.Ident? && c.target == t.member.id
    ensures Leads(mods, c, env, root,
                  Definition(FirstOwn(mods, Statements(ModuleNamed(mods, at, t.record)), t.member.name)))
  {
    hide FirstOwn;
    hide MemberDefinition;
    MemberDefinitionMeans(mods, at, t.record, t.member);
    var d := Definition(FirstOwn(mods, Statements(ModuleNamed(mods, at, t.record)), t.member.name));
    WalkedDecides(mods, c, env, root, at, t, 0);
    forall k: nat
      ensures c.target in RenameExpr(mods, at, t, k) <==> d == Some(k)
    {
      ExprWithin(mods, at, t.record, k);
    }
    InDocument(mods, c, env, root, at, t, d);
  }

  /** A use that nothing in the document binds leads nowhere and is reported for no definition. */
  lemma UnboundUse(mods: Modules, c: Cursor, root: Ast, name: string)
    requires Apart(root) && Sharp(c, root) && c.target in FreeUses(mods, root, name)
    ensures Leads(mods, c, [], root, None)
  {
    FreeUse(mods, c, [], root, name);
  }

  // ---- On a declaration -----------------------------------------------------------------------------

  /** The identifiers of a pattern that declare a name. */
  function PatternNames(p: Ast): (names: set<nat>)
    ensures names <= PatternIds(p)
    decreases p
  {
    match p
    case Let(_, _, binding, _, _) => PatternNames(binding)
    case Ident(id, name, _, _) => if name == "_" then {} else {id}
    case Parts(_, shape, parts) => if shape.Plain? then {} else NamesOfAll(parts)
    case _ => {}
  }

  function NamesOfAll(ps: seq<Ast>): (names: set<nat>)
    ensures names <= PatternsIds(ps)
    decreases ps
  {
    if ps == [] then {} else PatternNames(ps[0]) + NamesOfAll(ps[1..])
  }

  lemma {:induction false} NameFound(c: Cursor, p: Ast)
    requires SharpPattern(c, p) && c.target in PatternIds(p)
    ensures InPattern(c, p) == Found(Some(c.target))
    decreases p
  {
    match p
    case Let(_, _, binding, _, _) => NameFound(c, binding);
    case Parts(_, shape, parts) => NameFoundIn(c, parts);
    case _ =>
  }

  lemma {:induction false} NameFoundIn(c: Cursor, ps: seq<Ast>)
    requires SharpPatterns(c, ps) && c.target in PatternsIds(ps)
    ensures InPatterns(c, ps) == Found(Some(c.target))
    decreases ps
  {
    if c.target in PatternIds(ps[0]) {
      NameFound(c, ps[0]);
    } else {
      PatternMissed(c, ps[0]);
      NameFoundIn(c, ps[1..]);
    }
  }

  lemma {:induction false} NameReported(env: Env, p: Ast, value: Ast, d: nat, n: nat)
    requires n in PatternNames(p)
    ensures n in RenamePush(env, p, value, d).1 <==> n == d
    decreases p
  {
    match p
    case Let(_, _, binding, expr, _) => NameReported(env, binding, expr, d, n);
    case Parts(_, shape, parts) => NameReportedIn(env, parts, d, n);
    case _ =>
  }

  lemma {:induction false} OnlyTarget(env: Env, p: Ast, value: Ast, d: nat)
    ensures forall n :: n in RenamePush(env, p, value, d).1 ==> n == d
    decreases p
  {
    match p
    case Let(_, _, binding, expr, _) => OnlyTarget(env, binding, expr, d);
    case Parts(_, shape, parts) =>
      if !shape.Plain? {
        OnlyTargetIn(env, parts, d);
      }
    case _ =>
  }

  lemma {:induction false} OnlyTargetIn(env: Env, ps: seq<Ast>, d: nat)
    ensures forall n :: n in RenamePushAll(env, ps, d).1 ==> n == d
    decreases ps
  {
    if ps != [] {
      OnlyTarget(env, ps[0], Nil, d);
      OnlyTargetIn(RenamePush(env, ps[0], Nil, d).0, ps[1..], d);
    }
  }

  lemma {:induction false} NameReportedIn(env: Env, ps: seq<Ast>, d: nat, n: nat)
    requires n in NamesOfAll(ps)
    ensures n in RenamePushAll(env, ps, d).1 <==> n == d
    decreases ps
  {
    OnlyTargetIn(env, ps, d);
    if n in PatternNames(ps[0]) {
      NameReported(env, ps[0], Nil, d, n);
    } else {
      NameReportedIn(RenamePush(env, ps[0], Nil, d).0, ps[1..], d, n);
    }
  }

  lemma {:induction false} ParamFound(mods: Modules, c: Cursor, env: Env, params: seq<Ast>, j: nat, k: nat)
    requires ParamsApart(params) && ParamsSharp(c, params) && j < |params| && c.target in PatternNames(params[j])
    ensures c.target in ParamIds(params) && ResolveParams(mods, c, env, params) == Found(Some(c.target))
    ensures c.target in RenameParams(mods, env, params, k).1 <==> k == c.target
    decreases j
  {
    hide Resolve;
    hide PatternNames;
    hide PushPattern;
    var p := params[0];
    var env' := PushPattern(env, p, Nil);
    RenamePushEnv(env, p, Nil, k);
    DefaultWithin(mods, env, p, k);
    if j == 0 {
      NameFound(c, p);
      NameReported(env, p, Nil, k, c.target);
      ParamsWithin(mods, env', params[1..], k);
    } else {
      ParamFound(mods, c, env', params[1..], j - 1, k);
      PushWithin(env, p, Nil, k);
      PatternMissed(c, p);
      DefaultMissed(mods, c, env, p);
    }
  }

  /** On a parameter the search answers with the parameter, and a rename of it changes it. */
  lemma OnParameter(mods: Modules, c: Cursor, env: Env, root: Ast, at: Env, t: Ast, j: nat)
    requires Apart(root) && Sharp(c, root) && Walked(mods, env, root, at, t)
    requires t.Lambda? && j < |t.params| && c.target in PatternNames(t.params[j])
    ensures Leads(mods, c, env, root, Some(c.target))
  {
    hide PatternNames;
    hide PushPattern;
    hide Walked;
    ParamIn(t.params, j, c.target);
    WalkedDecides(mods, c, env, root, at, t, 0);
    ParamFound(mods, c, at, t.params, j, 0);
    forall k: nat ensures c.target in RenameExpr(mods, at, t, k) <==> Some(c.target) == Some(k) {
      ParamFound(mods, c, at, t.params, j, k);
      ExprWithin(mods, RenameParams(mods, at, t.params, k).0, t.body, k);
    }
    InDocument(mods, c, env, root, at, t, Some(c.target));
  }

  lemma {:induction false} ParamIn(params: seq<Ast>, j: nat, n: nat)
    requires j < |params| && n in PatternNames(params[j])
    ensures n in ParamIds(params)
    decreases j
  {
    hide PatternNames;
    if j > 0 {
      ParamIn(params[1..], j - 1, n);
    }
  }

  lemma {:induction false} BranchIn(branches: seq<Branch>, j: nat, n: nat)
    requires j < |branches| && n in PatternNames(branches[j].pattern)
    ensures n in BranchesIds(branches)
    decreases j
  {
    hide PatternNames;
    if j > 0 {
      BranchIn(branches[1..], j - 1, n);
    }
  }

  lemma {:induction false} BranchFound(mods: Modules, c: Cursor, env: Env, branches: seq<Branch>, j: nat, k: nat)
    requires BranchesApart(branches) && BranchesSharp(c, branches)
    requires j < |branches| && c.target in PatternNames(branches[j].pattern)
    ensures c.target in BranchesIds(branches) && ResolveBranches(mods, c, env, branches) == Found(Some(c.target))
    ensures c.target in RenameBranches(mods, env, branches, k) <==> k == c.target
    decreases j
  {
    hide Resolve;
    hide PatternNames;
    hide PushPattern;
    var b := branches[0];
    if j == 0 {
      NameFound(c, b.pattern);
      NameReported(env, b.pattern, Nil, k, c.target);
      ExprWithin(mods, RenamePush(env, b.pattern, Nil, k).0, b.body, k);
      BranchesWithin(mods, env, branches[1..], k);
    } else {
      BranchFound(mods, c, env, branches[1..], j - 1, k);
      BranchWithin(mods, env, b, k);
      BranchMissed(mods, c, env, b);
    }
  }

  /** On a name of a branch's pattern the search answers with that name, and a rename of it changes it. */
  lemma OnBranchName(mods: Modules, c: Cursor, env: Env, root: Ast, at: Env, t: Ast, j: nat)
    requires Apart(root) && Sharp(c, root) && Walked(mods, env, root, at, t)
    requires t.Match? && j < |t.branches| && c.target in PatternNames(t.branches[j].pattern)
    ensures Leads(mods, c, env, root, Some(c.target))
  {
    hide PatternNames;
    hide PushPattern;
    hide Walked;
    BranchIn(t.branches, j, c.target);
    WalkedDecides(mods, c, env, root, at, t, 0);
    Missed(mods, c, at, t.subject);
    BranchFound(mods, c, at, t.branches, j, 0);
    forall k: nat ensures c.target in RenameExpr(mods, at, t, k) <==> Some(c.target) == Some(k) {
      BranchFound(mods, c, at, t.branches, j, k);
      ExprWithin(mods, at, t.subject, k);
    }
    InDocument(mods, c, env, root, at, t, Some(c.target));
  }

  /** On a name in the pattern of a let the search answers with that name, and a rename of it changes it; if the name is
      the whole pattern, the search answers with the let. */
  lemma OnLetName(mods: Modules, c: Cursor, env: Env, root: Ast, at: Env, t: Ast)
    requires Apart(root) && Sharp(c, root) && Walked(mods, env, root, at, t)
    requires t.Let? && c.target in PatternNames(t.binding)
    ensures !t.binding.Ident? ==> Leads(mods, c, env, root, Some(c.target))
    ensures t.binding.Ident? ==> Resolve(mods, c, env, root) == Found(Some(t.id))
    ensures forall k: nat :: c.target in RenameExpr(mods, env, root, k) <==> k == c.target
  {
    hide PatternNames;
    hide PushPattern;
    hide Walked;
    WalkedDecides(mods, c, env, root, at, t, 0);
    NameFound(c, t.binding);
    forall k: nat
      ensures c.target in RenameExpr(mods, at, t, k) <==> k == c.target
      ensures c.target in RenameExpr(mods, env, root, k) <==> k == c.target
    {
      var value := StmtValue(mods, t);
      NameReported(at, t.binding, value, k, c.target);
      ExprWithin(mods, ExprEnv(at, t), t.expr, k);
      ExprWithin(mods, RenamePush(at, t.binding, value, k).0, t.inExpr, k);
      WalkedDecides(mods, c, env, root, at, t, k);
    }
  }

  /** On a let or type declaration itself the search answers with it, and a rename of it changes it. */
  lemma OnLet(mods: Modules, c: Cursor, env: Env, root: Ast, at: Env, t: Ast)
    requires Apart(root) && Sharp(c, root) && Walked(mods, env, root, at, t)
    requires t.Let? && !t.kind.Loop? && t.binding.Ident? && c.target == t.id && c.name == t.binding.name
    ensures Leads(mods, c, env, root, Some(t.id))
  {
    hide PushPattern;
    hide Walked;
    WalkedDecides(mods, c, env, root, at, t, 0);
    forall k: nat ensures c.target in RenameExpr(mods, at, t, k) <==> Some(t.id) == Some(k) {
      var value := StmtValue(mods, t);
      PushWithin(at, t.binding, value, k);
      ExprWithin(mods, ExprEnv(at, t), t.expr, k);
      ExprWithin(mods, RenamePush(at, t.binding, value, k).0, t.inExpr, k);
    }
    InDocument(mods, c, env, root, at, t, Some(t.id));
  }

  /** On the name of an import the search answers with where the import leads. */
  lemma OnImport(mods: Modules, c: Cursor, env: Env, root: Ast, at: Env, t: Ast)
    requires Apart(root) && Sharp(c, root) && Walked(mods, env, root, at, t)
    requires t.Import? && c.target == t.id && t.identifier == Some(c.name)
    ensures Resolve(mods, c, env, root) == Found(Some(ImportTarget(mods, t)))
  {
    hide Walked;
    WalkedDecides(mods, c, env, root, at, t, 0);
  }
}
