/** The entities the Todo endpoints exchange: the stored Todo row, its
    server-generated identifier, and the data invariant every stored row keeps. */
module Models {

  datatype Option<+T> = None | Some(value: T)

  /** A Guid, kept opaque: only its canonical text form (the one written into
      a URL) is observable. Fresh values are supplied by the caller. */
  datatype Guid = Guid(text: string)

  /** The `Todo(id, title, done)` record. The title is a nullable string in the
      source, hence `Option<string>`. */
  datatype Todo = Todo(id: Guid, title: Option<string>, done: bool)

  /** The length a .NET string reports: the number of UTF-16 code units.
      A character outside the Basic Multilingual Plane takes two. */
  function Utf16Length(s: string): (n: nat)
    ensures |s| <= n <= 2 * |s|
    ensures s == [] ==> n == 0
    decreases |s|
  {
    if s == [] then 0
    else (if s[0] as int >= 0x1_0000 then 2 else 1) + Utf16Length(s[1..])
  }

  /** A title must be strictly longer than this many UTF-16 code units. */
  const TitleLengthBound: nat := 5

  /** A title that breaks neither rule of the creation contract. */
  predicate ValidTitle(title: Option<string>) {
    title.Some? && Utf16Length(title.value) > TitleLengthBound
  }

  /** What every row the API stores satisfies: created as not done, with a
      non-null title longer than the bound. */
  predicate StoredRowOk(t: Todo) {
    !t.done && ValidTitle(t.title)
  }

  predicate AllRowsOk(table: seq<Todo>) {
    forall i :: 0 <= i < |table| ==> StoredRowOk(table[i])
  }
}
