/** The core language: the parts of src/ast.rs that the interpreter model covers. */
module Ast {
  import opened Options

  /** Operators whose operands are all evaluated, left to right, before they apply. */
  datatype Operator = Binary(symbol: string) | Unary(symbol: string) | Property(name: string) | Subscript

  datatype Expr =
    | IntLit(n: int)
    | BoolLit(b: bool)
    | StrLit(s: string)
    | NullLit
    | Ident(name: string)
    | ListLit(items: seq<Expr>)
    | And(left: Expr, right: Expr)
    | Or(left: Expr, right: Expr)
    | Apply(op: Operator, operands: seq<Expr>)
    | MethodCall(receiver: Expr, selector: string, args: seq<Expr>)
    | Call(task: string, args: seq<Expr>)
    | If(cond: Expr, thenBranch: Body, elseBranch: Option<Body>)
    | Match(subject: Expr, arms: seq<Arm>)
    | Pipeline(input: Expr, stages: seq<Stage>)
    | Rescue(expr: Expr, handler: Expr)
    | Broadcast(input: Expr, targets: seq<Expr>)

  /** `pattern` is absent in the fallback arm. */
  datatype Arm = Arm(pattern: Option<Expr>, value: Expr)

  datatype Body = Inline(expr: Expr) | Block(stmts: seq<Stmt>, ret: Expr)

  datatype Stage = ExprStage(expr: Expr) | RescueInline(handler: Expr) | RescueBlock(stmts: seq<Stmt>)

  datatype Param = Param(name: string, schema: Option<string>)

  datatype Stmt =
    | Assign(target: string, value: Expr)
    | CondAssign(target: string, value: Expr, guard: Expr)
    | Require(guard: Expr, code: int)
    | Reject(guard: Expr, code: int)
    | While(guard: Expr, body: seq<Stmt>)
    | TaskDef(name: string, params: seq<Param>, taskBody: Body)
    | ExprStmt(expr: Expr)
    | Declaration
    | Export(inner: Stmt)
    | Transaction(body: seq<Stmt>)
    | Reply(status: Expr, content: Expr, headers: Option<Expr>)
    | Fail(code: int, message: Expr)
    | Raise(message: Expr, condition: Option<Expr>)
    | Nack(requeue: bool, condition: Option<Expr>)

  /**
   * `Table` is a table of the database, `Collection` one of the document store. `Other` stands
   * for the value kinds the model does not look into.
   */
  datatype Value =
    | Null
    | Bool(b: bool)
    | Int(n: int)
    | Str(s: string)
    | List(items: seq<Value>)
    | Task(name: string, params: seq<Param>, body: Body, owner: Option<string>)
    | Namespace(name: string)
    | Table(name: string)
    | Collection(name: string)
    | Other(id: int, truthy: bool)

  predicate Truthy(v: Value) {
    match v
    case Null => false
    case Bool(b) => b
    case Int(n) => n != 0
    case Str(s) => s != ""
    case List(items) => items != []
    case Task(_, _, _, _) => true
    case Namespace(_) => false
    case Table(_) => false
    case Collection(_) => false
    case Other(_, t) => t
  }

  /** Names that stand for built-in namespaces wherever they are evaluated. */
  predicate IsReserved(name: string) {
    || name == "db" || name == "doc" || name == "cache" || name == "fs" || name == "json" || name == "base64"
    || name == "uuid" || name == "feature" || name == "log" || name == "time" || name == "math"
    || name == "http_client"
  }
}
