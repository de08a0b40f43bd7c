// VejasScript values, abstract syntax and the world a run looks at (core/src/vjs.rs).

module VjsSyntax {
  datatype Result<+T> = Ok(value: T) | Err(error: Error)

  /** Why a run fails. One constructor for each place core/src/vjs.rs gives up. */
  datatype Error =
    | DepthExceeded(service: string)
    | InvalidReference(service: string)
    | NoManifest(pkg: string)
    | BadManifest(pkg: string, why: Error)
    | NotExported(pkg: string, svc: string)
    | UnknownService(pkg: string, svc: string)
    | BadService(pkg: string, svc: string, why: Error)
    | SubjectNotString
    | InvalidSubject(subject: string)
    | NoSuchField(field: string)
    | SecretNeedsReference
    | SecretStoreError(text: string)
    | UnknownFunction(name: string)
    | Syntax

  /** A JSON document. Numbers are exact reals here: rounding is left out. */
  datatype Value =
    | Null
    | Bool(b: bool)
    | Num(n: real)
    | Str(s: string)
    | Arr(items: seq<Value>)
    | Obj(fields: map<string, Value>)

  type Vars = map<string, Value>

  datatype UnOp = Not | Neg

  datatype BinOp =
    Or | And | Coalesce | Eq | Ne | Lt | Le | Gt | Ge | In | Add | Sub | Mul | Div

  datatype FPart = Text(s: string) | Hole(e: Expr)

  datatype Entry = Entry(key: string, value: Expr)

  datatype Expr =
    | Lit(v: Value)
    | FString(parts: seq<FPart>)
    | Var(name: string)
    | Doc(fields: seq<Entry>)
    | Array(elems: seq<Expr>)
    | Field(base: Expr, name: string, safe: bool)
    | Index(base: Expr, key: Expr)
    | Projection(base: Expr)
    | Filter(base: Expr, cond: Expr)
    | Call(name: string, args: seq<Expr>)
    | Invoke(service: string, given: seq<Entry>)
    | Unary(uop: UnOp, arg: Expr)
    | Bin(op: BinOp, l: Expr, r: Expr)

  datatype Arm = Arm(guard: Expr, body: seq<Stmt>)

  datatype Else = NoElse | Else(block: seq<Stmt>)

  datatype Stmt =
    | Assign(path: seq<string>, e: Expr)
    | If(arms: seq<Arm>, otherwise: Else)
    | For(name: string, iter: Expr, body: seq<Stmt>)
    | Emit(subject: Expr, payload: Expr)
    | Respond(status: Expr, answer: Expr)
    | InvokeMerge(service: string, given: seq<Entry>)

  datatype SurfaceEntry = SurfaceEntry(name: string, value: Value)

  datatype Program = Program(stmts: seq<Stmt>, surface: seq<SurfaceEntry>)

  /** What a run emits on the bus. */
  datatype Emission = Emission(subject: string, payload: Value)

  /** One service body that started to run: who asked for it, which one, and how deep it is. */
  datatype Hop = Hop(caller: string, pkg: string, svc: string, depth: nat)

  /**
   * Everything outside the interpreter: the service files and package manifests on
   * disk, the parser, the secret store, and the primitives that are kept abstract.
   */
  datatype World = World(
    services: map<(string, string), string>,
    manifests: map<string, string>,
    parse: string -> Result<Program>,
    secrets: string -> Result<string>,
    prims: Prims)

  datatype Prims = Prims(
    builtin: (string, seq<Value>) -> Result<Value>,
    json: Value -> string,
    less: (string, string) -> bool,
    contains: (string, string) -> bool,
    blank: char -> bool)

  /** The first `:` of a reference, or its length. */
  function ColonAt(s: string): (k: nat)
    ensures k <= |s|
    ensures k < |s| ==> s[k] == ':'
    ensures forall i :: 0 <= i < k ==> s[i] != ':'
  {
    if s == "" then 0 else if s[0] == ':' then 0 else 1 + ColonAt(s[1..])
  }
}
