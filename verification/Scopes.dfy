/** Names and scopes in the language server (tools/ylc_lsp_server.c): syntax trees, environments, modules,
    and go-to-definition. A node is known by its `id`, which stands for its address; `Nil` is a NULL node. */
module Scopes {
  import opened Wrappers

  /** How a pattern looks at a node: a tuple, list or array; a `::`; anything else. */
  datatype Shape = Items | Cons | Plain

  datatype LetKind = LetBinding | TypeDecl | Loop

  datatype Branch = Branch(pattern: Ast, body: Ast)

  datatype Ast =
    | Nil
    | Ident(id: nat, name: string, start: int, end: int)
    | Body(id: nat, stmts: seq<Ast>)
    | Import(id: nat, identifier: Option<string>, importAll: bool, key: Option<string>)
    | Let(id: nat, kind: LetKind, binding: Ast, expr: Ast, inExpr: Ast)
    | Lambda(id: nat, isModule: bool, params: seq<Ast>, body: Ast)
    | Match(id: nat, subject: Ast, branches: seq<Branch>)
    | Record(id: nat, record: Ast, member: Ast)
      // applications, operators, tuples, lists, arrays, format strings, guards, yield, spread, ranges,
      // trait implementations, extern signatures: the parts in the order they are walked
    | Parts(id: nat, shape: Shape, parts: seq<Ast>)
    | Leaf(id: nat)

  type Modules = map<string, Ast>

  /** `definition_binding`: the definition's node and the module the name stands for, if any. */
  datatype Binding = Binding(name: string, definition: nat, value: Ast)

  /** A linked list of bindings, the latest first. */
  type Env = seq<Binding>

  /** `definition_lookup` */
  function Lookup(env: Env, name: string): (r: Option<Binding>)
    ensures r.Some? ==> r.value in env && r.value.name == name
    ensures r.None? ==> forall b :: b in env ==> b.name != name
  {
    if env == [] then None else if env[0].name == name then Some(env[0]) else Lookup(env[1..], name)
  }

  // ---- Modules and statements ------------------------------------------------------------

  /** `module_body`: a lambda's body, or a body itself. */
  function ModuleBody(m: Ast): Ast {
    match m
    case Lambda(_, _, _, body) => body
    case Body(_, _) => m
    case _ => Nil
  }

  function ImportedModule(mods: Modules, t: Ast): Ast {
    if t.Import? && t.key.Some? && t.key.value in mods then mods[t.key.value] else Nil
  }

  function NodeId(t: Ast): Option<nat> {
    if t.Nil? then None else Some(t.id)
  }

  /** `module_definition_node` */
  function ModuleDefinition(m: Ast): Option<nat> {
    var body := ModuleBody(m);
    if body.Nil? then NodeId(m)
    else if !body.Body? then NodeId(body)
    else if body.stmts != [] && !body.stmts[0].Nil? then NodeId(body.stmts[0])
    else NodeId(m)
  }

  /** `stmt_binding_name` */
  function StmtName(t: Ast): Option<string> {
    match t
    case Let(_, kind, binding, _, _) => if !kind.Loop? && binding.Ident? then Some(binding.name) else None
    case Import(_, identifier, _, _) => identifier
    case _ => None
  }

  /** `stmt_definition_node` */
  function StmtDefinition(mods: Modules, t: Ast): Option<nat> {
    match t
    case Let(id, kind, _, _, _) => if kind.Loop? then None else Some(id)
    case Import(id, _, _, _) =>
      var def := ModuleDefinition(ImportedModule(mods, t));
      if def.Some? then def else Some(id)
    case _ => None
  }

  /** `stmt_value_node` */
  function StmtValue(mods: Modules, t: Ast): Ast {
    match t
    case Import(_, _, _, _) => ImportedModule(mods, t)
    case Let(_, kind, _, expr, _) => if !kind.Loop? && expr.Lambda? && expr.isModule then expr else Nil
    case _ => Nil
  }

  datatype Member = NoMember | Member(definition: Option<nat>, value: Ast)

  /** The first statement that binds the name. */
  function FindStmt(mods: Modules, stmts: seq<Ast>, name: string): Member {
    if stmts == [] then NoMember
    else if StmtName(stmts[0]) == Some(name) then Member(StmtDefinition(mods, stmts[0]), StmtValue(mods, stmts[0]))
    else FindStmt(mods, stmts[1..], name)
  }

  /** `find_module_member_definition` */
  function FindMember(mods: Modules, m: Ast, name: Option<string>): Member {
    var body := ModuleBody(m);
    if body.Nil? || name.None? then NoMember
    else if !body.Body? then FindStmt(mods, [body], name.value)
    else FindStmt(mods, body.stmts, name.value)
  }

  function IdentName(t: Ast): Option<string> {
    if t.Ident? then Some(t.name) else None
  }

  /** `module_ast_for_expr` */
  function ModuleFor(mods: Modules, env: Env, t: Ast): Ast {
    match t
    case Ident(_, name, _, _) =>
      (match Lookup(env, name)
       case None => Nil
       case Some(b) => b.value)
    case Record(_, record, member) =>
      (match FindMember(mods, ModuleFor(mods, env, record), IdentName(member))
       case NoMember => Nil
       case Member(definition, value) => if definition.Some? then value else Nil)
    case _ => Nil
  }

  /** The definition of a record member, when there is one. */
  function MemberDefinition(mods: Modules, env: Env, record: Ast, member: Ast): Option<nat> {
    match FindMember(mods, ModuleFor(mods, env, record), IdentName(member))
    case NoMember => None
    case Member(definition, _) => definition
  }

  // ---- Environments ------------------------------------------------------------------------

  /** `definition_push_pattern_bindings` */
  function PushPattern(env: Env, p: Ast, value: Ast): Env
    decreases p
  {
    match p
    case Let(_, _, binding, expr, _) => PushPattern(env, binding, expr)
    case Ident(id, name, _, _) => if name != "_" then [Binding(name, id, value)] + env else env
    case Parts(_, shape, parts) => if shape.Plain? then env else PushPatterns(env, parts)
    case _ => env
  }

  function PushPatterns(env: Env, ps: seq<Ast>): Env
    decreases ps
  {
    if ps == [] then env else PushPatterns(PushPattern(env, ps[0], Nil), ps[1..])
  }

  /** The environment of a lambda's body. */
  function PushParams(env: Env, params: seq<Ast>): Env
    decreases |params|
  {
    if params == [] then env else PushParams(PushPattern(env, params[0], Nil), params[1..])
  }

  /** Every statement of a module that binds a name. */
  function PushExports(mods: Modules, env: Env, stmts: seq<Ast>): Env
    decreases |stmts|
  {
    if stmts == [] then env
    else PushExports(mods, PushNamed(mods, env, stmts[0]), stmts[1..])
  }

  function PushNamed(mods: Modules, env: Env, t: Ast): Env {
    var name, def := StmtName(t), StmtDefinition(mods, t);
    if name.Some? && def.Some? then [Binding(name.value, def.value, StmtValue(mods, t))] + env else env
  }

  /** `definition_push_module_exports` */
  function PushModule(mods: Modules, env: Env, m: Ast): Env {
    var body := ModuleBody(m);
    if body.Nil? then env
    else if !body.Body? then PushNamed(mods, env, body)
    else PushExports(mods, env, body.stmts)
  }

  /** `definition_push_stmt_binding` */
  function PushStmt(mods: Modules, env: Env, t: Ast): Env {
    if t.Import? && t.importAll then PushModule(mods, env, ImportedModule(mods, t)) else PushNamed(mods, env, t)
  }

  /** A function sees itself in its own body. */
  function ExprEnv(env: Env, t: Ast): Env {
    if t.Let? && t.binding.Ident? && t.expr.Lambda? && !t.expr.isModule
    then [Binding(t.binding.name, t.id, t.expr)] + env else env
  }

  // ---- Go to definition -----------------------------------------------------------------------

  /** Where the cursor is: on a node, and the text position. */
  datatype Cursor = Cursor(target: nat, name: string, offset: int)

  /** `cursor_on_identifier` */
  predicate On(c: Cursor, t: Ast) {
    t.Ident? && (t.id == c.target || (t.name == c.name && t.start <= c.offset <= t.end))
  }

  /** `search->done` and `search->definition_node` */
  datatype Outcome = Going | Found(definition: Option<nat>)

  function Or(a: Outcome, b: Outcome): Outcome {
    if a.Found? then a else b
  }

  /** `definition_target_in_pattern` */
  function InPattern(c: Cursor, p: Ast): Outcome
    decreases p
  {
    match p
    case Let(_, _, binding, _, _) => InPattern(c, binding)
    case Ident(id, _, _, _) => if On(c, p) then Found(Some(id)) else Going
    case Parts(_, shape, parts) => if shape.Plain? then Going else InPatterns(c, parts)
    case _ => Going
  }

  function InPatterns(c: Cursor, ps: seq<Ast>): Outcome
    decreases ps
  {
    if ps == [] then Going else Or(InPattern(c, ps[0]), InPatterns(c, ps[1..]))
  }

  /** The tests of `resolve_let_definition` on the let itself and its binding. */
  function AtBinding(c: Cursor, t: Ast): Outcome
    requires t.Let?
  {
    if c.target == t.id && StmtName(t) == Some(c.name) then Found(Some(t.id))
    else if On(c, t.binding) then Found(Some(t.id))
    else InPattern(c, t.binding)
  }

  /** `resolve_expr_definition` and the functions it calls. */
  function Resolve(mods: Modules, c: Cursor, env: Env, t: Ast): Outcome
    decreases t
  {
    match t
    case Ident(_, name, _, _) =>
      if !On(c, t) then Going
      else
        (match Lookup(env, name)
         case None => Found(None)
         case Some(b) => Found(Some(b.definition)))
    case Body(_, stmts) => ResolveStmts(mods, c, env, stmts)
    case Import(id, identifier, _, _) =>
      if c.target == id && identifier == Some(c.name) then Found(StmtDefinition(mods, t)) else Going
    case Let(_, _, binding, expr, inExpr) =>
      Or(AtBinding(c, t),
         Or(Resolve(mods, c, ExprEnv(env, t), expr),
            Resolve(mods, c, PushPattern(env, binding, StmtValue(mods, t)), inExpr)))
    case Lambda(_, _, params, body) =>
      Or(ResolveParams(mods, c, env, params), Resolve(mods, c, PushParams(env, params), body))
    case Match(_, subject, branches) => Or(Resolve(mods, c, env, subject), ResolveBranches(mods, c, env, branches))
    case Record(_, record, member) =>
      if On(c, member) then Found(MemberDefinition(mods, env, record, member)) else Resolve(mods, c, env, record)
    case Parts(_, _, parts) => ResolveAll(mods, c, env, parts)
    case _ => Going
  }

  function ResolveAll(mods: Modules, c: Cursor, env: Env, ts: seq<Ast>): Outcome
    decreases ts
  {
    if ts == [] then Going else Or(Resolve(mods, c, env, ts[0]), ResolveAll(mods, c, env, ts[1..]))
  }

  /** `resolve_body_definition` */
  function ResolveStmts(mods: Modules, c: Cursor, env: Env, stmts: seq<Ast>): Outcome
    decreases stmts
  {
    if stmts == [] then Going
    else Or(Resolve(mods, c, env, stmts[0]), ResolveStmts(mods, c, PushStmt(mods, env, stmts[0]), stmts[1..]))
  }

  /** The parameters of `resolve_lambda_definition`: the pattern, then the default value. */
  function ResolveParams(mods: Modules, c: Cursor, env: Env, params: seq<Ast>): Outcome
    decreases params
  {
    if params == [] then Going
    else
      Or(InPattern(c, params[0]),
         Or(ResolveDefault(mods, c, env, params[0]),
            ResolveParams(mods, c, PushPattern(env, params[0], Nil), params[1..])))
  }

  function ResolveDefault(mods: Modules, c: Cursor, env: Env, param: Ast): Outcome
    decreases param
  {
    if param.Let? then Resolve(mods, c, env, param.expr) else Going
  }

  function ResolveBranches(mods: Modules, c: Cursor, env: Env, branches: seq<Branch>): Outcome
    decreases branches
  {
    if branches == [] then Going
    else Or(ResolveBranch(mods, c, env, branches[0]), ResolveBranches(mods, c, env, branches[1..]))
  }

  function ResolveBranch(mods: Modules, c: Cursor, env: Env, b: Branch): Outcome
    decreases b
  {
    Or(InPattern(c, b.pattern), Resolve(mods, c, PushPattern(env, b.pattern, Nil), b.body))
  }
}
