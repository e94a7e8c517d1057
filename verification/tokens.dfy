/** The records of the live token feed: a token, its status category and the
    three sort keys the dashboard offers (app/page.tsx:40-57). */
module Tokens {

  import opened Wrappers

  /** A token's category; it never changes after generation. */
  datatype TokenStatus = New | Bonding | Migrated

  datatype SortOption = Trending | Newest | Marketcap

  /** One card of the feed. Market caps are JavaScript numbers that carry
      fractions, so they are reals; the other numeric fields only ever hold
      whole numbers. */
  datatype Token = Token(
    id: string,
    ticker: string,
    name: string,
    imgUrl: string,
    marketCap: real,
    prevMarketCap: real,
    txns: int,
    volume: int,
    created: int,
    bondingCurve: int,
    status: TokenStatus,
    price: Option<real>
  )

  /** The string literal of each status, as interpolated into image URLs. */
  function StatusName(status: TokenStatus): (s: string)
    ensures |s| > 0
  {
    match status
    case New => "new"
    case Bonding => "bonding"
    case Migrated => "migrated"
  }

  /** What one Math.random() call can return. */
  predicate UnitInterval(r: real) {
    0.0 <= r < 1.0
  }

  /** The fields that identify a card and that no tick touches. */
  predicate SameCard(a: Token, b: Token) {
    && a.id == b.id
    && a.ticker == b.ticker
    && a.name == b.name
    && a.imgUrl == b.imgUrl
    && a.volume == b.volume
    && a.created == b.created
    && a.bondingCurve == b.bondingCurve
    && a.status == b.status
    && a.price == b.price
  }
}
