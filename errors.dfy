/**
 * The tool's exit codes (`nilrt_snac.Errors`) and the exceptions the modelled
 * code raises or catches, carried as values.
 */
module SnacErrors {

  const ExOk := 0
  const ExError := 1
  const ExUsage := 2
  const ExBadEnvironment := 128
  const ExCheckFailure := 129

  /** The subclasses of `OSError` the tool distinguishes. */
  datatype OsKind = FileExists | FileNotFound | PermissionDenied | OtherOs

  /** An exception in flight. */
  datatype Failure =
    | SnacError(code: int)                          // nilrt_snac.SNACError(message, return_code)
    | CalledProcessError(cmd: seq<string>, exit: int) // subprocess.run(..., check=True)
    | RuntimeError(message: string)                 // OpkgHelper._run
    | OsError(kind: OsKind, message: string)        // OSError and its subclasses
    | ValueError(message: string)
    | KeyError(key: string)                         // pwd.getpwnam / grp.getgrnam / grp.getgrgid
    | AttributeError(name: string)                  // an attribute the object does not have
  {
    /** `isinstance(e, OSError)`. */
    predicate IsOsError() {
      OsError?
    }

    /** `str(e)` as far as the tool prints it. */
    function Text(): string {
      match this
      case SnacError(_) => "SNAC error"
      case CalledProcessError(_, _) => "command failed"
      case RuntimeError(m) => m
      case OsError(_, m) => m
      case ValueError(m) => m
      case KeyError(k) => k
      case AttributeError(n) => n
    }
  }
}
