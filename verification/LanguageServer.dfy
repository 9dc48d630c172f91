/** The walks of the language server over its own state (tools/ylc_lsp_server.c): the resolver sets
    `done` and the definition, the collectors append to a list. `Scopes` and `Collectors` say what they find. */
module LanguageServer {
  import opened Wrappers
  import opened Scopes
  import opened Collectors

  /** `definition_search` */
  class DefinitionSearch {
    const mods: Modules
    const cursor: Cursor
    var done: bool
    var definitionNode: Option<nat>

    function State(): Outcome
      reads this
    {
      if done then Found(definitionNode) else Going
    }

    constructor (mods: Modules, cursor: Cursor)
      ensures this.mods == mods && this.cursor == cursor && State() == Going
    {
      this.mods, this.cursor := mods, cursor;
      done, definitionNode := false, None;
    }

    /** `definition_set_node` */
    method SetNode(node: Option<nat>)
      modifies this
      ensures State() == Found(node)
    {
      definitionNode := node;
      done := true;
    }

    /** `definition_target_in_pattern` */
    method TargetInPattern(p: Ast) returns (found: bool)
      requires !done
      modifies this
      ensures State() == InPattern(cursor, p) && found == done
      decreases p
    {
      hide On;
      match p
      case Let(_, _, binding, _, _) =>
        found := TargetInPattern(binding);
      case Ident(id, _, _, _) =>
        if On(cursor, p) {
          SetNode(Some(id));
          return true;
        }
        found := false;
      case Parts(_, shape, parts) =>
        if !shape.Plain? {
          assert parts[0..] == parts;
          for i := 0 to |parts|
            invariant !done && InPatterns(cursor, parts) == InPatterns(cursor, parts[i..])
          {
            assert parts[i..][0] == parts[i] && parts[i..][1..] == parts[i + 1..];
            found := TargetInPattern(parts[i]);
            if found {
              return;
            }
          }
        }
        found := false;
      case _ =>
        found := false;
    }

    /** `resolve_expr_definition` */
    method ResolveExpr(env: Env, t: Ast) returns (found: bool)
      modifies this
      ensures State() == if old(done) then old(State()) else Resolve(mods, cursor, env, t)
      ensures found == done
      decreases t, 1
    {
      hide On;
      hide Lookup;
      hide StmtDefinition;
      hide InPattern;
      if done {
        return true;
      }
      match t
      case Ident(_, name, _, _) =>
        if On(cursor, t) {
          var binding := Lookup(env, name);
          SetNode(if binding.Some? then Some(binding.value.definition) else None);
        }
        found := done;
      case Body(_, stmts) =>
        var inner := env;
        assert stmts[0..] == stmts;
        for i := 0 to |stmts|
          invariant !done && ResolveStmts(mods, cursor, env, stmts) == ResolveStmts(mods, cursor, inner, stmts[i..])
        {
          assert stmts[i..][0] == stmts[i] && stmts[i..][1..] == stmts[i + 1..];
          found := ResolveExpr(inner, stmts[i]);
          if found {
            return;
          }
          inner := PushStmt(mods, inner, stmts[i]);
        }
        found := false;
      case Import(id, identifier, _, _) =>
        if cursor.target == id && identifier == Some(cursor.name) {
          SetNode(StmtDefinition(mods, t));
        }
        found := done;
      case Let(_, _, _, _, _) =>
        found := ResolveLet(env, t);
      case Lambda(_, _, _, _) =>
        found := ResolveLambda(env, t);
      case Match(_, _, _) =>
        found := ResolveMatch(env, t);
      case Record(_, record, member) =>
        if On(cursor, member) {
          SetNode(MemberDefinition(mods, env, record, member));
          return true;
        }
        found := ResolveExpr(env, record);
      case Parts(_, _, parts) =>
        assert parts[0..] == parts;
        for i := 0 to |parts|
          invariant !done && ResolveAll(mods, cursor, env, parts) == ResolveAll(mods, cursor, env, parts[i..])
        {
          assert parts[i..][0] == parts[i] && parts[i..][1..] == parts[i + 1..];
          found := ResolveExpr(env, parts[i]);
          if found {
            return;
          }
        }
        found := false;
      case _ =>
        found := false;
    }

    /** `resolve_let_definition` */
    method ResolveLet(env: Env, t: Ast) returns (found: bool)
      requires !done && t.Let?
      modifies this
      ensures State() == Resolve(mods, cursor, env, t) && found == done
      decreases t, 0
    {
      hide On;
      hide InPattern;
      hide PushPattern;
      if cursor.target == t.id && StmtName(t) == Some(cursor.name) {
        SetNode(Some(t.id));
        return true;
      }
      if On(cursor, t.binding) {
        SetNode(Some(t.id));
        return true;
      }
      found := TargetInPattern(t.binding);
      if found {
        return;
      }
      found := ResolveExpr(ExprEnv(env, t), t.expr);
      if found {
        return;
      }
      if !t.inExpr.Nil? {
        found := ResolveExpr(PushPattern(env, t.binding, StmtValue(mods, t)), t.inExpr);
      }
    }

    /** `resolve_lambda_definition` */
    method ResolveLambda(env: Env, t: Ast) returns (found: bool)
      requires !done && t.Lambda?
      modifies this
      ensures State() == Resolve(mods, cursor, env, t) && found == done
      decreases t, 0
    {
      hide InPattern;
      hide PushPattern;
      var bodyEnv := env;
      var params := t.params;
      assert params[0..] == params;
      for i := 0 to |params|
        invariant !done && ResolveParams(mods, cursor, env, params) == ResolveParams(mods, cursor, bodyEnv, params[i..])
        invariant PushParams(env, params) == PushParams(bodyEnv, params[i..])
      {
        var param := params[i];
        assert params[i..][0] == param && params[i..][1..] == params[i + 1..];
        found := TargetInPattern(param);
        if found {
          return;
        }
        if param.Let? {
          found := ResolveExpr(bodyEnv, param.expr);
          if found {
            return;
          }
        }
        bodyEnv := PushPattern(bodyEnv, param, Nil);
      }
      found := ResolveExpr(bodyEnv, t.body);
    }

    /** `resolve_match_definition` */
    method ResolveMatch(env: Env, t: Ast) returns (found: bool)
      requires !done && t.Match?
      modifies this
      ensures State() == Resolve(mods, cursor, env, t) && found == done
      decreases t, 0
    {
      hide InPattern;
      hide PushPattern;
      found := ResolveExpr(env, t.subject);
      if found {
        return;
      }
      var branches := t.branches;
      assert branches[0..] == branches;
      for i := 0 to |branches|
        invariant !done
        invariant ResolveBranches(mods, cursor, env, branches) == ResolveBranches(mods, cursor, env, branches[i..])
      {
        assert branches[i..][0] == branches[i] && branches[i..][1..] == branches[i + 1..];
        found := TargetInPattern(branches[i].pattern);
        if found {
          return;
        }
        found := ResolveExpr(PushPattern(env, branches[i].pattern, Nil), branches[i].body);
        if found {
          return;
        }
      }
      found := false;
    }
  }

  /** What was reported before, then what a pattern or the parameters report. */
  function Reported(before: seq<nat>, r: (Env, seq<nat>)): (Env, seq<nat>) {
    (r.0, before + r.1)
  }

  lemma ReportedTwice(before: seq<nat>, first: seq<nat>, rest: (Env, seq<nat>))
    ensures Reported(before + first, rest) == Reported(before, (rest.0, first + rest.1))
  {
    assert before + first + rest.1 == before + (first + rest.1);
  }

  lemma NothingMore(a: seq<nat>)
    ensures a + [] == a
  {
  }

  lemma Joined(a: seq<nat>, b: seq<nat>, c: seq<nat>)
    ensures a + b + c == a + (b + c)
  {
  }

  /** `rename_collect` */
  class RenameCollect {
    const mods: Modules
    const target: nat
    var nodes: seq<nat>

    constructor (mods: Modules, target: nat)
      ensures this.mods == mods && this.target == target && nodes == []
    {
      this.mods, this.target := mods, target;
      nodes := [];
    }

    /** `rename_push_pattern_bindings` */
    method PushPatternBindings(env: Env, p: Ast, value: Ast) returns (r: Env)
      modifies this
      ensures (r, nodes) == Reported(old(nodes), RenamePush(env, p, value, target))
      decreases p
    {
      NothingMore(nodes);
      match p
      case Let(_, _, binding, expr, _) =>
        r := PushPatternBindings(env, binding, expr);
      case Ident(id, name, _, _) =>
        r := env;
        if name != "_" {
          if id == target {
            nodes := nodes + [id];
          }
          r := [Binding(name, id, value)] + env;
        }
      case Parts(_, shape, parts) =>
        r := env;
        if !shape.Plain? {
          assert parts[0..] == parts;
          for i := 0 to |parts|
            invariant Reported(nodes, RenamePushAll(r, parts[i..], target))
                   == Reported(old(nodes), RenamePushAll(env, parts, target))
          {
            assert parts[i..][0] == parts[i] && parts[i..][1..] == parts[i + 1..];
            ReportedTwice(nodes, RenamePush(r, parts[i], Nil, target).1,
                          RenamePushAll(RenamePush(r, parts[i], Nil, target).0, parts[i + 1..], target));
            r := PushPatternBindings(r, parts[i], Nil);
          }
          assert parts[|parts|..] == [];
          NothingMore(nodes);
        }
      case _ =>
        r := env;
    }

    /** `rename_collect_expr` */
    method CollectExpr(env: Env, t: Ast)
      modifies this
      ensures nodes == old(nodes) + RenameExpr(mods, env, t, target)
      decreases t, 1
    {
      hide Lookup;
      hide MemberDefinition;
      match t
      case Ident(id, name, _, _) =>
        var binding := Lookup(env, name);
        if binding.Some? && binding.value.definition == target {
          nodes := nodes + [id];
        }
      case Body(_, stmts) =>
        var bodyEnv := env;
        assert stmts[0..] == stmts;
        for i := 0 to |stmts|
          invariant nodes + RenameStmts(mods, bodyEnv, stmts[i..], target)
                 == old(nodes) + RenameStmts(mods, env, stmts, target)
        {
          assert stmts[i..][0] == stmts[i] && stmts[i..][1..] == stmts[i + 1..];
          Joined(nodes, RenameExpr(mods, bodyEnv, stmts[i], target),
                 RenameStmts(mods, PushStmt(mods, bodyEnv, stmts[i]), stmts[i + 1..], target));
          CollectExpr(bodyEnv, stmts[i]);
          bodyEnv := PushStmt(mods, bodyEnv, stmts[i]);
        }
      case Let(_, _, _, _, _) =>
        CollectLet(env, t);
      case Lambda(_, _, _, _) =>
        CollectLambda(env, t);
      case Match(_, subject, branches) =>
        CollectExpr(env, subject);
        assert branches[0..] == branches;
        for i := 0 to |branches|
          invariant nodes + RenameBranches(mods, env, branches[i..], target)
                 == old(nodes) + RenameExpr(mods, env, t, target)
        {
          assert branches[i..][0] == branches[i] && branches[i..][1..] == branches[i + 1..];
          Joined(nodes, RenameBranch(mods, env, branches[i], target),
                 RenameBranches(mods, env, branches[i + 1..], target));
          Joined(nodes, RenamePush(env, branches[i].pattern, Nil, target).1,
                 RenameExpr(mods, RenamePush(env, branches[i].pattern, Nil, target).0, branches[i].body, target));
          var branchEnv := PushPatternBindings(env, branches[i].pattern, Nil);
          CollectExpr(branchEnv, branches[i].body);
        }
      case Record(_, record, member) =>
        CollectExpr(env, record);
        if member.Ident? && MemberDefinition(mods, env, record, member) == Some(target) {
          nodes := nodes + [member.id];
        }
      case Parts(_, _, parts) =>
        assert parts[0..] == parts;
        for i := 0 to |parts|
          invariant nodes + RenameAll(mods, env, parts[i..], target)
                 == old(nodes) + RenameAll(mods, env, parts, target)
        {
          assert parts[i..][0] == parts[i] && parts[i..][1..] == parts[i + 1..];
          Joined(nodes, RenameExpr(mods, env, parts[i], target), RenameAll(mods, env, parts[i + 1..], target));
          CollectExpr(env, parts[i]);
        }
      case _ =>
    }

    /** `rename_collect_let` */
    method CollectLet(env: Env, t: Ast)
      requires t.Let?
      modifies this
      ensures nodes == old(nodes) + RenameExpr(mods, env, t, target)
      decreases t, 0
    {
      hide RenamePush;
      if t.id == target {
        nodes := nodes + [t.id];
      }
      if t.inExpr.Nil? {
        var _ := PushPatternBindings(env, t.binding, StmtValue(mods, t));
      }
      CollectExpr(ExprEnv(env, t), t.expr);
      if !t.inExpr.Nil? {
        var bodyEnv := PushPatternBindings(env, t.binding, StmtValue(mods, t));
        CollectExpr(bodyEnv, t.inExpr);
      }
    }

    /** `rename_collect_lambda` */
    method CollectLambda(env: Env, t: Ast)
      requires t.Lambda?
      modifies this
      ensures nodes == old(nodes) + RenameExpr(mods, env, t, target)
      decreases t, 0
    {
      hide RenamePush;
      var bodyEnv := env;
      var params := t.params;
      assert params[0..] == params;
      for i := 0 to |params|
        invariant Reported(nodes, RenameParams(mods, bodyEnv, params[i..], target))
               == Reported(old(nodes), RenameParams(mods, env, params, target))
      {
        var param := params[i];
        assert params[i..][0] == param && params[i..][1..] == params[i + 1..];
        ghost var pushed := RenamePush(bodyEnv, param, Nil, target);
        ghost var default_ := RenameDefault(mods, bodyEnv, param, target);
        ReportedTwice(nodes, default_ + pushed.1, RenameParams(mods, pushed.0, params[i + 1..], target));
        Joined(nodes, default_, pushed.1);
        NothingMore(nodes);
        if param.Let? {
          CollectExpr(bodyEnv, param.expr);
        }
        bodyEnv := PushPatternBindings(bodyEnv, param, Nil);
      }
      assert params[|params|..] == [];
      NothingMore(nodes);
      Joined(old(nodes), RenameParams(mods, env, params, target).1, RenameExpr(mods, bodyEnv, t.body, target));
      CollectExpr(bodyEnv, t.body);
    }
  }

  lemma LetOpens(mods: Modules, env: Env, t: Ast, d: nat, withDeclaration: bool)
    requires t.Let?
    ensures var (bodyEnv, declared) := ReferencePush(env, t.binding, StmtValue(mods, t), d, withDeclaration);
            var own := if withDeclaration && t.id == d then [t.id] else [];
            var inner := ReferenceExpr(mods, ExprEnv(env, t), t.expr, d, withDeclaration);
            ReferenceExpr(mods, env, t, d, withDeclaration)
            == if t.inExpr.Nil? then own + declared + inner + []
               else own + [] + inner + (declared + ReferenceExpr(mods, bodyEnv, t.inExpr, d, withDeclaration))
  {
    hide ReferencePush;
    hide StmtValue;
    hide ExprEnv;
  }

  lemma PartsJoined(was: seq<nat>, a: seq<nat>, b: seq<nat>, c: seq<nat>)
    ensures was + (a + b + c + []) == was + a + b + c
    ensures was + (a + [] + b + c) == was + a + b + c
  {
  }

  lemma LastPart(was: seq<nat>, a: seq<nat>, b: seq<nat>)
    ensures was + (a + b) == was + a + b
  {
  }

  /** What a let adds to the nodes found so far, part by part. */
  lemma LetReferences(mods: Modules, env: Env, t: Ast, d: nat, withDeclaration: bool, was: seq<nat>)
    requires t.Let?
    ensures var (bodyEnv, declared) := ReferencePush(env, t.binding, StmtValue(mods, t), d, withDeclaration);
            var own := was + (if withDeclaration && t.id == d then [t.id] else []);
            var inner := ReferenceExpr(mods, ExprEnv(env, t), t.expr, d, withDeclaration);
            was + ReferenceExpr(mods, env, t, d, withDeclaration)
            == if t.inExpr.Nil? then own + declared + inner
               else own + inner + declared + ReferenceExpr(mods, bodyEnv, t.inExpr, d, withDeclaration)
  {
    hide ReferencePush;
    hide ReferenceExpr;
    hide StmtValue;
    hide ExprEnv;
    LetOpens(mods, env, t, d, withDeclaration);
    var (bodyEnv, declared) := ReferencePush(env, t.binding, StmtValue(mods, t), d, withDeclaration);
    var own := if withDeclaration && t.id == d then [t.id] else [];
    var inner := ReferenceExpr(mods, ExprEnv(env, t), t.expr, d, withDeclaration);
    if t.inExpr.Nil? {
      PartsJoined(was, own, declared, inner);
    } else {
      var body := ReferenceExpr(mods, bodyEnv, t.inExpr, d, withDeclaration);
      PartsJoined(was, own, inner, declared + body);
      LastPart(was + own + inner, declared, body);
    }
  }

  /** `reference_collect` */
  class ReferenceCollect {
    const mods: Modules
    const target: nat
    const includeDeclaration: bool
    var nodes: seq<nat>

    constructor (mods: Modules, target: nat, includeDeclaration: bool)
      ensures this.mods == mods && this.target == target && nodes == [] && this.includeDeclaration == includeDeclaration
    {
      this.mods, this.target := mods, target;
      this.includeDeclaration := includeDeclaration;
      nodes := [];
    }

    /** `reference_push_pattern_bindings` */
    method PushPatternBindings(env: Env, p: Ast, value: Ast) returns (r: Env)
      modifies this
      ensures (r, nodes) == Reported(old(nodes), ReferencePush(env, p, value, target, includeDeclaration))
      decreases p
    {
      NothingMore(nodes);
      match p
      case Let(_, _, binding, expr, _) =>
        r := PushPatternBindings(env, binding, expr);
      case Ident(id, name, _, _) =>
        r := env;
        if name != "_" {
          if includeDeclaration && id == target {
            nodes := nodes + [id];
          }
          r := [Binding(name, id, value)] + env;
        }
      case Parts(_, shape, parts) =>
        r := env;
        if !shape.Plain? {
          assert parts[0..] == parts;
          for i := 0 to |parts|
            invariant Reported(nodes, ReferencePushAll(r, parts[i..], target, includeDeclaration))
                   == Reported(old(nodes), ReferencePushAll(env, parts, target, includeDeclaration))
          {
            assert parts[i..][0] == parts[i] && parts[i..][1..] == parts[i + 1..];
            ReportedTwice(nodes, ReferencePush(r, parts[i], Nil, target, includeDeclaration).1,
                          ReferencePushAll(ReferencePush(r, parts[i], Nil, target, includeDeclaration).0,
                                           parts[i + 1..], target, includeDeclaration));
            r := PushPatternBindings(r, parts[i], Nil);
          }
          assert parts[|parts|..] == [];
          NothingMore(nodes);
        }
      case _ =>
        r := env;
    }

    /** `reference_collect_expr` */
    method CollectExpr(env: Env, t: Ast)
      modifies this
      ensures nodes == old(nodes) + ReferenceExpr(mods, env, t, target, includeDeclaration)
      decreases t, 1
    {
      hide Lookup;
      hide MemberDefinition;
      match t
      case Ident(id, name, _, _) =>
        var binding := Lookup(env, name);
        if binding.Some? && binding.value.definition == target {
          nodes := nodes + [id];
        }
      case Body(_, stmts) =>
        var bodyEnv := env;
        assert stmts[0..] == stmts;
        for i := 0 to |stmts|
          invariant nodes + ReferenceStmts(mods, bodyEnv, stmts[i..], target, includeDeclaration)
                 == old(nodes) + ReferenceStmts(mods, env, stmts, target, includeDeclaration)
        {
          assert stmts[i..][0] == stmts[i] && stmts[i..][1..] == stmts[i + 1..];
          Joined(nodes, ReferenceExpr(mods, bodyEnv, stmts[i], target, includeDeclaration),
                 ReferenceStmts(mods, PushStmt(mods, bodyEnv, stmts[i]), stmts[i + 1..], target, includeDeclaration));
          CollectExpr(bodyEnv, stmts[i]);
          bodyEnv := PushStmt(mods, bodyEnv, stmts[i]);
        }
      case Let(_, _, _, _, _) =>
        CollectLet(env, t);
      case Lambda(_, _, _, _) =>
        CollectLambda(env, t);
      case Match(_, subject, branches) =>
        CollectExpr(env, subject);
        assert branches[0..] == branches;
        for i := 0 to |branches|
          invariant nodes + ReferenceBranches(mods, env, branches[i..], target, includeDeclaration)
                 == old(nodes) + ReferenceExpr(mods, env, t, target, includeDeclaration)
        {
          assert branches[i..][0] == branches[i] && branches[i..][1..] == branches[i + 1..];
          Joined(nodes, ReferenceBranch(mods, env, branches[i], target, includeDeclaration),
                 ReferenceBranches(mods, env, branches[i + 1..], target, includeDeclaration));
          Joined(nodes, ReferencePush(env, branches[i].pattern, Nil, target, includeDeclaration).1,
                 ReferenceExpr(mods, ReferencePush(env, branches[i].pattern, Nil, target, includeDeclaration).0,
                               branches[i].body, target, includeDeclaration));
          var branchEnv := PushPatternBindings(env, branches[i].pattern, Nil);
          CollectExpr(branchEnv, branches[i].body);
        }
      case Record(_, record, member) =>
        CollectExpr(env, record);
        if member.Ident? && MemberDefinition(mods, env, record, member) == Some(target) {
          nodes := nodes + [member.id];
        }
      case Parts(_, _, parts) =>
        assert parts[0..] == parts;
        for i := 0 to |parts|
          invariant nodes + ReferenceAll(mods, env, parts[i..], target, includeDeclaration)
                 == old(nodes) + ReferenceAll(mods, env, parts, target, includeDeclaration)
        {
          assert parts[i..][0] == parts[i] && parts[i..][1..] == parts[i + 1..];
          Joined(nodes, ReferenceExpr(mods, env, parts[i], target, includeDeclaration),
                 ReferenceAll(mods, env, parts[i + 1..], target, includeDeclaration));
          CollectExpr(env, parts[i]);
        }
      case _ =>
    }

    /** `reference_collect_let` */
    method CollectLet(env: Env, t: Ast)
      requires t.Let?
      modifies this
      ensures nodes == old(nodes) + ReferenceExpr(mods, env, t, target, includeDeclaration)
      decreases t, 0
    {
      hide ReferencePush;
      hide StmtValue;
      hide ExprEnv;
      hide ReferenceExpr;
      LetReferences(mods, env, t, target, includeDeclaration, nodes);
      assert nodes + [] == nodes;
      if includeDeclaration && t.id == target {
        nodes := nodes + [t.id];
      }
      if t.inExpr.Nil? {
        var _ := PushPatternBindings(env, t.binding, StmtValue(mods, t));
      }
      CollectExpr(ExprEnv(env, t), t.expr);
      if !t.inExpr.Nil? {
        var bodyEnv := PushPatternBindings(env, t.binding, StmtValue(mods, t));
        CollectExpr(bodyEnv, t.inExpr);
      }
    }

    /** `reference_collect_lambda` */
    method CollectLambda(env: Env, t: Ast)
      requires t.Lambda?
      modifies this
      ensures nodes == old(nodes) + ReferenceExpr(mods, env, t, target, includeDeclaration)
      decreases t, 0
    {
      hide ReferencePush;
      var bodyEnv := env;
      var params := t.params;
      assert params[0..] == params;
      for i := 0 to |params|
        invariant Reported(nodes, ReferenceParams(mods, bodyEnv, params[i..], target, includeDeclaration))
               == Reported(old(nodes), ReferenceParams(mods, env, params, target, includeDeclaration))
      {
        var param := params[i];
        assert params[i..][0] == param && params[i..][1..] == params[i + 1..];
        ghost var pushed := ReferencePush(bodyEnv, param, Nil, target, includeDeclaration);
        ghost var default_ := ReferenceDefault(mods, bodyEnv, param, target, includeDeclaration);
        ReportedTwice(nodes, default_ + pushed.1,
                      ReferenceParams(mods, pushed.0, params[i + 1..], target, includeDeclaration));
        Joined(nodes, default_, pushed.1);
        NothingMore(nodes);
        if param.Let? {
          CollectExpr(bodyEnv, param.expr);
        }
        bodyEnv := PushPatternBindings(bodyEnv, param, Nil);
      }
      assert params[|params|..] == [];
      NothingMore(nodes);
      Joined(old(nodes), ReferenceParams(mods, env, params, target, includeDeclaration).1,
             ReferenceExpr(mods, bodyEnv, t.body, target, includeDeclaration));
      CollectExpr(bodyEnv, t.body);
    }
  }
}
