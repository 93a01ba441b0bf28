/** JSON values, and what is asked of the library that prints and reads them. */
module Json {
  import opened Paths

  datatype Json =
    | Null
    | Bool(value: bool)
    | Num(number: int)
    | Text(text: string)
    | List(items: seq<Json>)
    | Object(fields: map<string, Json>)

  datatype Library = Library(dumps: Json -> string, loads: string -> Option<Json>)

  /** JSON's own insignificant whitespace, narrower than Python's. */
  predicate JsonSpaces(s: string) { forall i | 0 <= i < |s| :: s[i] in {' ', '\t', '\n', '\r'} }

  /** An object printed and read again, blanks around it, is itself. */
  ghost predicate Faithful(lib: Library) {
    forall fields, before, after | JsonSpaces(before) && JsonSpaces(after) ::
      lib.loads(before + lib.dumps(Object(fields)) + after) == Some(Object(fields))
  }

  /** With `ensure_ascii`, an object prints as printable ASCII between braces. */
  ghost predicate PrintsAscii(lib: Library) {
    forall fields :: Printed(lib.dumps(Object(fields)))
  }

  predicate Printed(s: string) {
    |s| >= 2 && s[0] == '{' && s[|s| - 1] == '}' && forall i | 0 <= i < |s| :: ' ' <= s[i] <= '~'
  }
}
