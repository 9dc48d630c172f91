/** What patterns, statements and modules declare, read off the tree (tools/ylc_lsp_server.c), and that the environments
    of the language server hold exactly that: the last declaration of a name in a body, the first one in a module
    looked into. */
module Declarations {
  import opened Wrappers
  import opened Scopes

  // ---- What is declared ------------------------------------------------------------------------

  function Either(a: Option<Binding>, b: Option<Binding>): Option<Binding> {
    if a.Some? then a else b
  }

  /** The last identifier of that name in a pattern. A tuple, list or array declares what its parts declare, a `_`
      nothing. */
  function PatternLast(p: Ast, value: Ast, name: string): Option<Binding>
    decreases p
  {
    match p
    case Let(_, _, binding, expr, _) => PatternLast(binding, expr, name)
    case Ident(id, own, _, _) => if own == name != "_" then Some(Binding(name, id, value)) else None
    case Parts(_, shape, parts) => if shape.Plain? then None else LastIn(parts, name)
    case _ => None
  }

  function LastIn(ps: seq<Ast>, name: string): Option<Binding>
    decreases ps
  {
    if ps == [] then None else Either(LastIn(ps[1..], name), PatternLast(ps[0], Nil, name))
  }

  /** A function declared by a let is known in its own body. */
  function OwnFunction(t: Ast, name: string): Option<Binding> {
    if t.Let? && t.binding.Ident? && t.binding.name == name && t.expr.Lambda? && !t.expr.isModule then
      Some(Binding(name, t.id, t.expr))
    else None
  }

  /** Where an import leads: the first statement of the module, or the module if it has none, or the import itself. */
  function ImportTarget(mods: Modules, t: Ast): nat
    requires t.Import?
  {
    if t.key.None? || t.key.value !in mods || mods[t.key.value].Nil? then t.id
    else
      var m := mods[t.key.value];
      var body := if m.Lambda? then m.body else m;
      if body.Body? then (if body.stmts != [] && !body.stmts[0].Nil? then body.stmts[0].id else m.id)
      else if m.Lambda? && !body.Nil? then body.id
      else m.id
  }

  /** The name a statement has itself: that of a let or type declaration, for the statement, or that of an import. */
  function OwnName(mods: Modules, t: Ast, name: string): Option<Binding> {
    match t
    case Let(id, kind, binding, expr, _) =>
      if kind != Loop && binding.Ident? && binding.name == name then
        Some(Binding(name, id, if expr.Lambda? && expr.isModule then expr else Nil))
      else None
    case Import(_, identifier, _, key) =>
      if identifier == Some(name) then
        Some(Binding(name, ImportTarget(mods, t), if key.Some? && key.value in mods then mods[key.value] else Nil))
      else None
    case _ => None
  }

  /** The statements of a module. */
  function Statements(m: Ast): seq<Ast> {
    var body := if m.Lambda? then m.body else m;
    if body.Body? then body.stmts else if m.Lambda? && !body.Nil? then [body] else []
  }

  function LastOwn(mods: Modules, stmts: seq<Ast>, name: string): Option<Binding> {
    if stmts == [] then None else Either(LastOwn(mods, stmts[1..], name), OwnName(mods, stmts[0], name))
  }

  function FirstOwn(mods: Modules, stmts: seq<Ast>, name: string): Option<Binding> {
    if stmts == [] then None else Either(OwnName(mods, stmts[0], name), FirstOwn(mods, stmts[1..], name))
  }

  /** What a statement declares for the statements after it; `import *` declares all that the module's statements do. */
  function StmtDeclares(mods: Modules, t: Ast, name: string): Option<Binding> {
    if t.Import? && t.importAll then
      (if t.key.Some? && t.key.value in mods then LastOwn(mods, Statements(mods[t.key.value]), name) else None)
    else OwnName(mods, t, name)
  }

  /** The last of the statements that declares the name. */
  function LastDeclared(mods: Modules, stmts: seq<Ast>, name: string): Option<Binding> {
    if stmts == [] then None else Either(LastDeclared(mods, stmts[1..], name), StmtDeclares(mods, stmts[0], name))
  }

  // ---- The environments hold what is declared ------------------------------------------------------

  lemma {:induction false} PatternMeans(env: Env, p: Ast, value: Ast, name: string)
    ensures Lookup(PushPattern(env, p, value), name) == Either(PatternLast(p, value, name), Lookup(env, name))
    decreases p
  {
    match p
    case Let(_, _, binding, expr, _) => PatternMeans(env, binding, expr, name);
    case Parts(_, shape, parts) =>
      if !shape.Plain? {
        PatternsMean(env, parts, name);
      }
    case _ =>
  }

  lemma {:induction false} PatternsMean(env: Env, ps: seq<Ast>, name: string)
    ensures Lookup(PushPatterns(env, ps), name) == Either(LastIn(ps, name), Lookup(env, name))
    decreases ps
  {
    if ps != [] {
      PatternMeans(env, ps[0], Nil, name);
      PatternsMean(PushPattern(env, ps[0], Nil), ps[1..], name);
    }
  }

  /** Whether a pattern declares a name does not depend on the value bound. */
  lemma ValueAside(p: Ast, value: Ast, other: Ast, name: string)
    ensures PatternLast(p, value, name).Some? == PatternLast(p, other, name).Some?
  {
  }

  lemma {:induction false} ParamsMean(env: Env, params: seq<Ast>, name: string)
    ensures Lookup(PushParams(env, params), name) == Either(LastIn(params, name), Lookup(env, name))
    decreases |params|
  {
    hide PushPattern;
    hide PatternLast;
    if params != [] {
      PatternMeans(env, params[0], Nil, name);
      ParamsMean(PushPattern(env, params[0], Nil), params[1..], name);
    }
  }

  lemma ExprMeans(env: Env, t: Ast, name: string)
    ensures Lookup(ExprEnv(env, t), name) == Either(OwnFunction(t, name), Lookup(env, name))
  {
  }

  lemma NamedMeans(mods: Modules, env: Env, t: Ast, name: string)
    ensures Lookup(PushNamed(mods, env, t), name) == Either(OwnName(mods, t, name), Lookup(env, name))
  {
  }

  lemma {:induction false} ExportsMean(mods: Modules, env: Env, stmts: seq<Ast>, name: string)
    ensures Lookup(PushExports(mods, env, stmts), name) == Either(LastOwn(mods, stmts, name), Lookup(env, name))
    decreases |stmts|
  {
    hide PushNamed;
    hide OwnName;
    if stmts != [] {
      NamedMeans(mods, env, stmts[0], name);
      ExportsMean(mods, PushNamed(mods, env, stmts[0]), stmts[1..], name);
    }
  }

  /** A statement makes known what it declares and leaves every other name as it was. */
  lemma StmtMeans(mods: Modules, env: Env, t: Ast, name: string)
    ensures Lookup(PushStmt(mods, env, t), name) == Either(StmtDeclares(mods, t, name), Lookup(env, name))
  {
    hide PushNamed;
    hide PushExports;
    hide OwnName;
    NamedMeans(mods, env, t, name);
    if t.Import? && t.importAll {
      var m := ImportedModule(mods, t);
      var body := ModuleBody(m);
      if body.Body? {
        ExportsMean(mods, env, body.stmts, name);
      } else if !body.Nil? {
        NamedMeans(mods, env, body, name);
        assert LastOwn(mods, [body], name) == OwnName(mods, body, name) by { assert [body][1..] == []; }
      }
    }
  }

  /** The environment after some statements. */
  function After(mods: Modules, env: Env, stmts: seq<Ast>): Env
    decreases |stmts|
  {
    if stmts == [] then env else After(mods, PushStmt(mods, env, stmts[0]), stmts[1..])
  }

  lemma {:induction false} AfterMeans(mods: Modules, env: Env, stmts: seq<Ast>, name: string)
    ensures Lookup(After(mods, env, stmts), name) == Either(LastDeclared(mods, stmts, name), Lookup(env, name))
    decreases |stmts|
  {
    hide PushStmt;
    hide StmtDeclares;
    if stmts != [] {
      StmtMeans(mods, env, stmts[0], name);
      AfterMeans(mods, PushStmt(mods, env, stmts[0]), stmts[1..], name);
    }
  }

  /** The last declaration is at a statement after which none declares the name. */
  lemma {:induction false} LastDeclaredAt(mods: Modules, stmts: seq<Ast>, name: string, k: nat)
    requires k < |stmts| && StmtDeclares(mods, stmts[k], name).Some?
    requires forall i :: k < i < |stmts| ==> StmtDeclares(mods, stmts[i], name).None?
    ensures LastDeclared(mods, stmts, name) == StmtDeclares(mods, stmts[k], name)
    decreases |stmts|
  {
    hide StmtDeclares;
    if k > 0 {
      assert forall i :: k - 1 < i < |stmts[1..]| ==> stmts[1..][i] == stmts[i + 1];
      LastDeclaredAt(mods, stmts[1..], name, k - 1);
    } else {
      assert forall i :: 0 <= i < |stmts[1..]| ==> stmts[1..][i] == stmts[i + 1];
      NoneDeclared(mods, stmts[1..], name);
    }
  }

  lemma {:induction false} NoneDeclared(mods: Modules, stmts: seq<Ast>, name: string)
    requires forall i :: 0 <= i < |stmts| ==> StmtDeclares(mods, stmts[i], name).None?
    ensures LastDeclared(mods, stmts, name).None?
    decreases |stmts|
  {
    hide StmtDeclares;
    if stmts != [] {
      assert forall i :: 0 <= i < |stmts[1..]| ==> stmts[1..][i] == stmts[i + 1];
      NoneDeclared(mods, stmts[1..], name);
    }
  }

  // ---- Members of modules ------------------------------------------------------------------------

  lemma {:induction false} FindMeans(mods: Modules, stmts: seq<Ast>, name: string)
    ensures FindStmt(mods, stmts, name)
         == match FirstOwn(mods, stmts, name)
            case None => NoMember
            case Some(b) => Member(Some(b.definition), b.value)
    decreases |stmts|
  {
    if stmts != [] {
      FindMeans(mods, stmts[1..], name);
    }
  }

  /** A member of a module is the first of its statements that has the name. */
  lemma MemberMeans(mods: Modules, m: Ast, name: string)
    requires m.Lambda? || m.Body?
    ensures FindMember(mods, m, Some(name))
         == match FirstOwn(mods, Statements(m), name)
            case None => NoMember
            case Some(b) => Member(Some(b.definition), b.value)
  {
    hide FindStmt;
    hide FirstOwn;
    FindMeans(mods, Statements(m), name);
    NoStatements(mods, name);
  }

  lemma NoStatements(mods: Modules, name: string)
    ensures FirstOwn(mods, [], name).None?
  {
  }

  /** What a name or a chain of members stands for, as a module. */
  function ModuleNamed(mods: Modules, env: Env, t: Ast): Ast {
    match t
    case Ident(_, name, _, _) => (match Lookup(env, name) case None => Nil case Some(b) => b.value)
    case Record(_, record, member) =>
      var m := ModuleNamed(mods, env, record);
      if !member.Ident? then Nil
      else (match FirstOwn(mods, Statements(m), member.name) case None => Nil case Some(b) => b.value)
    case _ => Nil
  }

  lemma NotAModule(mods: Modules, m: Ast, name: string)
    requires !m.Lambda? && !m.Body?
    ensures FindMember(mods, m, Some(name)) == NoMember && Statements(m) == []
  {
  }

  lemma {:induction false} ModuleMeans(mods: Modules, env: Env, t: Ast)
    ensures ModuleFor(mods, env, t) == ModuleNamed(mods, env, t)
    decreases t
  {
    hide FindMember;
    hide FirstOwn;
    match t
    case Record(_, record, member) =>
      ModuleMeans(mods, env, record);
      if member.Ident? {
        var m := ModuleFor(mods, env, record);
        if m.Lambda? || m.Body? {
          MemberMeans(mods, m, member.name);
        } else {
          NotAModule(mods, m, member.name);
          NoStatements(mods, member.name);
        }
      } else {
        NoName(mods, ModuleFor(mods, env, record));
      }
    case _ =>
  }

  lemma NoName(mods: Modules, m: Ast)
    ensures FindMember(mods, m, None) == NoMember
  {
  }

  /** The definition of a record member: the first statement of that name in the module that the record stands for. */
  lemma MemberDefinitionMeans(mods: Modules, env: Env, record: Ast, member: Ast)
    requires member.Ident?
    ensures MemberDefinition(mods, env, record, member)
         == match FirstOwn(mods, Statements(ModuleNamed(mods, env, record)), member.name)
            case None => None
            case Some(b) => Some(b.definition)
  {
    hide FindMember;
    hide FirstOwn;
    var m := ModuleFor(mods, env, record);
    ModuleMeans(mods, env, record);
    if m.Lambda? || m.Body? {
      MemberMeans(mods, m, member.name);
    } else {
      NotAModule(mods, m, member.name);
      NoStatements(mods, member.name);
    }
  }
}
