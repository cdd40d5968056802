/** The state types shared by the table's hooks and its view derivation. */
module Types {

  /** SortDirection: 'asc' | 'desc' | 'none'. */
  datatype Direction = Asc | Desc | None

  /** The active sort: one field and a direction. */
  datatype Sort = Sort(key: string, direction: Direction)

  /** Filter<T>: a field and a query string, or null (NoFilter). */
  datatype Filter = NoFilter | Filter(key: string, value: string)

  function Min(a: int, b: int): int
  {
    if a <= b then a else b
  }
}
