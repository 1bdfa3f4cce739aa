/**
 * The replacements the Python 3 backend's recognisers register
 * (gen/py3/context.go and the recogniser files).  A Go implementation of
 * `Optimization` holds pointers to the statements it covers; here each holds
 * the statements' ids (standing for those pointers) and the parts its
 * `Generate` reads.  The registry maps the id of the statement that owns a
 * node (`*VarDecl`, `*ScanStmt`, `*ForStmt` or `*EOLStmt`) to its replacement.
 */
module Optimization {
  import opened Wrappers
  import opened Ast

  /** A matched `var` statement. */
  datatype DeclAt = DeclAt(id: nat, spec: VarSpec)

  /** A matched `scan` statement. */
  datatype ScanAt = ScanAt(id: nat, scan: ScanStmt)

  datatype Optimization =
    | Noop
    | MultiVarOz(decl: DeclAt, scan: ScanAt, eolId: nat)
    | OnlyTokenOz(scan: ScanAt, eolId: nat)
    | ArrayLineOz(decl: DeclAt, forId: nat, scan: ScanAt, eolId: nat)
    | SameLineOz(scan: ScanAt)
      /** The older array recogniser can register a loop without a scan (a nil `scanStmt`). */
    | ScanArrayOz(decl: DeclAt, forId: nat, scanned: Option<ScanAt>, eolId: nat)
    | ScanSameOz(decl: DeclAt, scan: ScanAt, eolId: nat)
    | ScanOneOz(scan: ScanAt, eolId: nat)

  type Registry = map<nat, Optimization>
}
