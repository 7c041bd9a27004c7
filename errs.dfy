/** The error values of the server/errs package, plus the Go runtime panics that the
    modelled code can reach. A panic is not a returned error in Go: it aborts
    the goroutine. The model records it as `Panic(reason)` so that the paths
    that reach it are visible in contracts. */
module Errs {

  /** Why a Go panic happened. */
  datatype Crash =
    | NilDereference          // reading a field through a nil pointer
    | IndexOutOfRange         // `s[k]` with k >= len(s)
    | SliceBoundsOutOfRange   // `s[lo:hi]` with bounds outside 0 <= lo <= hi <= len(s)
    | EmptyRouterName         // log.Panicln in routers.register
    | DuplicateRouterName(name: string)  // log.Panicf in routers.register

  datatype Error =
    // server/errs/ipnet.go
    | IPInvalid | NetInvalid | FamilyInvalid
    // server/errs/router.go
    | UnknownRouter | RouterUnavailable | OperationUnknown
    // server/errs/sanitize.go
    | ASPathMalformed | ASPathEmpty | ASPathTooLong
    // server/errs/ssh.go
    | AuthFailed | ExecFailed | ConnectionFailed
    // an error from text/template parsing or execution, passed through
    | TemplateFailed(reason: string)
    // a Go runtime panic on this path
    | Panic(crash: Crash)
}
