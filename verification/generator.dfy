/** The batch generator (`generate`, app/page.tsx:619-631): twenty tokens of
    one status, with ticker base, market cap, transactions, volume, age and
    (unless migrated) bonding curve drawn uniformly. The random draws, the
    random id string and each token's clock reading are parameters. */
module Generator {

  import opened Wrappers
  import opened Tokens
  import opened Decimal

  const BATCH_SIZE: nat := 20
  const TICKER_BASES: seq<string> := ["PEPE", "WIF", "BONK", "DOGE", "SOL"]
  const IMAGE_URL_PREFIX: string := "https://api.dicebear.com/7.x/shapes/svg?seed="
  const START_PREV_MARKET_CAP: real := 10000.0

  /** The draws one token consumes; `id` stands for the random base-36
      string, `now` for the token's own Date.now() reading, and `curve` is
      only read for a status other than migrated. */
  datatype GenDraw = GenDraw(id: string, ticker: real, marketCap: real, txns: real,
                             volume: real, now: int, age: real, curve: real)

  predicate ValidGenDraw(d: GenDraw) {
    && UnitInterval(d.ticker)
    && UnitInterval(d.marketCap)
    && UnitInterval(d.txns)
    && UnitInterval(d.volume)
    && UnitInterval(d.age)
    && UnitInterval(d.curve)
  }

  /** Math.floor(r * n): a uniform index below `n`. */
  function FloorScaled(r: real, n: nat): (v: int)
    requires UnitInterval(r) && n > 0
    ensures 0 <= v < n
    ensures v as real <= r * n as real < v as real + 1.0
  {
    assert r * n as real < n as real;
    (r * n as real).Floor
  }

  /** The fields every generated token has, whatever the draws. */
  predicate GeneratedShape(t: Token, status: TokenStatus, i: nat, now: int) {
    && t.status == status
    && t.prevMarketCap == START_PREV_MARKET_CAP
    && 10000.0 <= t.marketCap < 510000.0
    && 0 <= t.txns < 500
    && 0 <= t.volume < 10000
    && now - 3600000 < t.created <= now
    && (if status == Migrated then t.bondingCurve == 100 else 0 <= t.bondingCurve <= 98)
    && t.name == "Token " + NatToString(i)
    && (exists b :: b in TICKER_BASES && t.ticker == b + NatToString(i + 1))
    && t.price == None
  }

  /** The i-th token of a batch of the given status. */
  function GenerateToken(status: TokenStatus, i: nat, d: GenDraw): (t: Token)
    requires ValidGenDraw(d)
    ensures GeneratedShape(t, status, i, d.now)
    ensures t.id == d.id
  {
    var base := TICKER_BASES[FloorScaled(d.ticker, 5)];
    assert base in TICKER_BASES;
    Token(
      id := d.id,
      ticker := base + NatToString(i + 1),
      name := "Token " + NatToString(i),
      imgUrl := IMAGE_URL_PREFIX + StatusName(status) + NatToString(i),
      marketCap := 10000.0 + d.marketCap * 500000.0,
      prevMarketCap := START_PREV_MARKET_CAP,
      txns := FloorScaled(d.txns, 500),
      volume := FloorScaled(d.volume, 10000),
      created := d.now - FloorScaled(d.age, 3600000),
      bondingCurve := if status == Migrated then 100 else FloorScaled(d.curve, 99),
      status := status,
      price := None
    )
  }

  /** `generate(type)` for one status: twenty tokens in index order. */
  function Generate(status: TokenStatus, draws: seq<GenDraw>): (r: seq<Token>)
    requires |draws| == BATCH_SIZE
    requires forall i :: 0 <= i < |draws| ==> ValidGenDraw(draws[i])
    ensures |r| == BATCH_SIZE
    ensures forall i :: 0 <= i < |r| ==> GeneratedShape(r[i], status, i, draws[i].now)
    ensures forall i :: 0 <= i < |r| ==> r[i].id == draws[i].id
  {
    seq(BATCH_SIZE, i requires 0 <= i < BATCH_SIZE => GenerateToken(status, i, draws[i]))
  }

  /** The ticker bases are made of letters only. */
  lemma BasesHaveNoDigits(b: string)
    requires b in TICKER_BASES
    ensures forall j :: 0 <= j < |b| ==> !IsDigit(b[j])
  {
  }

  /** In a ticker the first digit sits right after the base. */
  lemma FirstDigitAfterBase(b: string, n: nat)
    requires b in TICKER_BASES
    ensures var s := b + NatToString(n);
      IsDigit(s[|b|]) && forall j :: 0 <= j < |b| ==> !IsDigit(s[j])
  {
    BasesHaveNoDigits(b);
  }

  /** A ticker determines the number after its base. */
  lemma TickerNumberDetermined(b1: string, n1: nat, b2: string, n2: nat)
    requires b1 in TICKER_BASES && b2 in TICKER_BASES
    requires b1 + NatToString(n1) == b2 + NatToString(n2)
    ensures n1 == n2
  {
    var s := b1 + NatToString(n1);
    FirstDigitAfterBase(b1, n1);
    FirstDigitAfterBase(b2, n2);
    assert |b1| == |b2|;
    assert NatToString(n1) == s[|b1|..] == NatToString(n2);
    ParseNatToString(n1);
    ParseNatToString(n2);
  }

  /** A character of a ticker: a capital letter or a digit. */
  predicate TickerChar(c: char) {
    'A' <= c <= 'Z' || IsDigit(c)
  }

  /** Every generated ticker is written in capitals and digits only. */
  lemma GeneratedTickerChars(status: TokenStatus, draws: seq<GenDraw>, i: nat)
    requires |draws| == BATCH_SIZE
    requires forall k :: 0 <= k < |draws| ==> ValidGenDraw(draws[k])
    requires i < BATCH_SIZE
    ensures var t := Generate(status, draws)[i].ticker;
      forall j :: 0 <= j < |t| ==> TickerChar(t[j])
  {
    var r := Generate(status, draws);
    assert GeneratedShape(r[i], status, i, draws[i].now);
    var b :| b in TICKER_BASES && r[i].ticker == b + NatToString(i + 1);
    assert forall j :: 0 <= j < |b| ==> 'A' <= b[j] <= 'Z';
    var digits := NatToString(i + 1);
    forall j | 0 <= j < |r[i].ticker|
      ensures TickerChar(r[i].ticker[j])
    {
      if j >= |b| {
        assert r[i].ticker[j] == digits[j - |b|];
      }
    }
  }

  /** Within a batch no two tokens share a ticker or a name. */
  lemma GeneratedTickersDistinct(status: TokenStatus, draws: seq<GenDraw>, i: nat, j: nat)
    requires |draws| == BATCH_SIZE
    requires forall k :: 0 <= k < |draws| ==> ValidGenDraw(draws[k])
    requires i < j < BATCH_SIZE
    ensures Generate(status, draws)[i].ticker != Generate(status, draws)[j].ticker
    ensures Generate(status, draws)[i].name != Generate(status, draws)[j].name
  {
    var r := Generate(status, draws);
    assert GeneratedShape(r[i], status, i, draws[i].now) && GeneratedShape(r[j], status, j, draws[j].now);
    var b1 :| b1 in TICKER_BASES && r[i].ticker == b1 + NatToString(i + 1);
    var b2 :| b2 in TICKER_BASES && r[j].ticker == b2 + NatToString(j + 1);
    if r[i].ticker == r[j].ticker {
      TickerNumberDetermined(b1, i + 1, b2, j + 1);
    }
    if r[i].name == r[j].name {
      assert NatToString(i) == r[i].name[6..] == r[j].name[6..] == NatToString(j);
      ParseNatToString(i);
      ParseNatToString(j);
    }
  }
}
