module Results {
  /** The outcome of an operation that can raise: its value, or the exception. */
  datatype Result<+T, +E> = Ok(value: T) | Err(error: E)

  datatype Option<+T> = None | Some(value: T)
}

/**
 * The S-expression tree that the front end produces and the evaluator walks.
 * A node is a Python value of the shapes a parsed program can hold: a list of
 * nodes, or an atom (str, int, float, bool or None).
 */
module Ast {

  /**
   * A parsed node. `Str` covers every Python str atom: the contents of a
   * quoted string, a `:name` or `$name` reference and a bare symbol are all
   * plain strings once parsed. A float is kept as the literal text it came from.
   */
  datatype Node =
    | List(items: seq<Node>)
    | Str(s: string)
    | Int(i: int)
    | Float(text: string)
    | Bool(b: bool)
    | Null

  predicate StartsWith(s: string, c: char) {
    |s| > 0 && s[0] == c
  }

  /** A name with the sigil that selects the global (`:`) or local (`$`) table. */
  predicate HasSigil(name: string) {
    StartsWith(name, ':') || StartsWith(name, '$')
  }

  /** `strip_variable_sigil`: drops one leading `:` or `$`, leaves other names alone. */
  function StripVariableSigil(name: string): (key: string)
    ensures HasSigil(name) ==> [name[0]] + key == name
    ensures !HasSigil(name) ==> key == name
  {
    if StartsWith(name, ':') then name[1..]
    else if StartsWith(name, '$') then name[1..]
    else name
  }
}
