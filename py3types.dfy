/**
 * The two tables of the Python 3 backend (gen/py3/types.go): the Python type
 * used for each scanspec type name, and the Python literal of its zero value.
 */
module Py3Types {
  import Types

  /** Python type names by scanspec type name. */
  const ASTType: map<string, string> :=
    map["bool" := "bool", "int" := "int", "int64" := "int",
        "float32" := "float", "float64" := "float", "string" := "string"]

  /** Python zero literals by scanspec type name. */
  const ASTZero: map<string, string> :=
    map["bool" := "false", "int" := "0", "int64" := "0",
        "float32" := "0.0", "float64" := "0.0", "string" := "\"\""]

  /** A Go map index: the entry, or the empty string for a missing key. */
  function Lookup(m: map<string, string>, k: string): (v: string)
    ensures k in m ==> v == m[k]
    ensures k !in m ==> v == ""
  {
    if k in m then m[k] else ""
  }

  /**
   * Both tables are keyed by exactly the scalar type names of the
   * interpreter's own `ASTType` table.
   */
  lemma SameKeys(name: string)
    ensures name in ASTType <==> name in ASTZero
    ensures name in ASTType <==> name in Types.ASTType
  {
  }

  /** Integer kinds become `int`, float kinds `float`; bool and string keep their names. */
  lemma PythonTypes(t: Types.Type)
    requires Types.IsScalar(t)
    ensures Types.Name(t) in ASTType
    ensures ASTType[Types.Name(t)] ==
      match t
      case Int | Int64 => "int"
      case Float32 | Float64 => "float"
      case _ => Types.Name(t)
  {
  }

  /** The zero literals, by kind. */
  lemma ZeroLiterals(t: Types.Type)
    requires Types.IsScalar(t)
    ensures ASTZero[Types.Name(t)] ==
      match t
      case Bool => "false"
      case Int | Int64 => "0"
      case Float32 | Float64 => "0.0"
      case _ => "\"\""
  {
  }
}
