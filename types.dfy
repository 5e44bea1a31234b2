/** The value types shared by the filter, sort and request layers, and the
    constants the client copies from its configuration. */
module Types {

  /** An `Order`'s `type`: `'asc' | 'desc'`. */
  datatype SortType = Asc | Desc

  /** `Order { field, type }`: one sort criterion. */
  datatype Order = Order(field: string, sortType: SortType)

  /** The stars operator `'GREATER' | 'LESS'`. */
  datatype StarsOperator = Greater | Less

  /** The set operator `'IN' | 'NOT_IN'` of the license and issue-language filters. */
  datatype SetOperator = In | NotIn

  /** A stars filter `{ value, operator }`. */
  datatype Stars = Stars(value: int, operator: StarsOperator)

  /** The part of an issue the client reads. */
  datatype Issue = Issue(issueId: int, issueTitle: string, issueUrl: string)

  function SortTypeToken(t: SortType): string {
    match t
    case Asc => "asc"
    case Desc => "desc"
  }

  function StarsOperatorToken(op: StarsOperator): string {
    match op
    case Greater => "GREATER"
    case Less => "LESS"
  }

  /** `DEFAULT_SORT_FIELD` */
  const DefaultSortField: string := "ei.created_at"

  /** The order every empty or invalid sort parameter falls back to, and the one
      `handleAddSortField` appends. */
  const DefaultOrder: Order := Order(DefaultSortField, Desc)

  /** `DEFAULT_STARS_FILTER` */
  const DefaultStarsFilter: Stars := Stars(10, Greater)

  /** `PAGE_SIZE` */
  const PageSize: int := 20

  /** `RANDOM_ISSUE_CONFIG.maxAttempts` and `.maxOffset` */
  const MaxAttempts: nat := 5
  const MaxOffset: nat := 100
}
