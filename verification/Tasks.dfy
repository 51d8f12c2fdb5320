/** Tasks as the submission entry points see them. */
module Tasks {

  /** A Task interface value: nil, one of the package's task types, each possibly a nil pointer or func, or a caller's own type. */
  datatype Task =
    | NilInterface
    | Func(isNil: bool)
    | Retry(isNil: bool)
    | NilContext
    | Context(inner: Task)
    | Custom(isNil: bool)

  function IsNilTask(t: Task): bool {
    match t
    case NilInterface => true
    case Func(isNil) => isNil
    case Retry(isNil) => isNil
    case NilContext => true
    case Context(inner) => IsNilTask(inner)
    case Custom(_) => false
  }

  /** The value that a chain of context tasks wraps. */
  function Innermost(t: Task): Task {
    if t.Context? then Innermost(t.inner) else t
  }

  /** A task counts as nil exactly when its innermost value is a nil interface or a nil value of one of the package's own types. */
  lemma {:induction false} NilExactly(t: Task)
    ensures IsNilTask(t) <==> Innermost(t) in {NilInterface, Func(true), Retry(true), NilContext}
  {
    if t.Context? {
      NilExactly(t.inner);
    }
  }
}
