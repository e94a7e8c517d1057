/** The market-data tick (the `update` function inside the interval effect,
    app/page.tsx:643-648). Each token independently is picked with a draw
    above 0.7; a picked token records its market cap as the previous one,
    moves it by a delta in [-450, 550) floored at 1000, and gains one
    transaction when a third draw is above 0.8. Math.random's draws are
    parameters here. */
module Updater {

  import opened Tokens

  /** The smallest market cap a tick can produce. */
  const FLOOR: real := 1000.0

  /** The draws one token consumes in a tick. `move` and `bump` are only
      drawn, and only read here, when `pick` selects the token. */
  datatype TickDraw = TickDraw(pick: real, move: real, bump: real)

  /** What Math.random() can return for every draw of the tick. */
  predicate ValidTickDraw(d: TickDraw) {
    UnitInterval(d.pick) && UnitInterval(d.move) && UnitInterval(d.bump)
  }

  predicate Selected(d: TickDraw) {
    d.pick > 0.7
  }

  function Delta(d: TickDraw): real {
    (d.move - 0.45) * 1000.0
  }

  predicate Bumps(d: TickDraw) {
    d.bump > 0.8
  }

  function Max(a: real, b: real): real {
    if a >= b then a else b
  }

  /** One token's tick. */
  function UpdateToken(t: Token, d: TickDraw): (r: Token)
    ensures SameCard(r, t)
    ensures !Selected(d) ==> r == t
    ensures Selected(d) ==> r.prevMarketCap == t.marketCap
    ensures Selected(d) ==> r.marketCap >= FLOOR && r.marketCap >= t.marketCap + Delta(d)
    ensures Selected(d) ==> r.marketCap == FLOOR || r.marketCap == t.marketCap + Delta(d)
    ensures 0 <= r.txns - t.txns <= 1
    ensures r.txns > t.txns <==> Selected(d) && Bumps(d)
  {
    if Selected(d) then
      t.(prevMarketCap := t.marketCap,
         marketCap := Max(FLOOR, t.marketCap + Delta(d)),
         txns := t.txns + (if Bumps(d) then 1 else 0))
    else
      t
  }

  /** One tick over a list: `list.map(...)`, the i-th draw for the i-th token. */
  function Update(ts: seq<Token>, ds: seq<TickDraw>): (r: seq<Token>)
    requires |ds| == |ts|
    ensures |r| == |ts|
    ensures forall i :: 0 <= i < |r| ==> SameCard(r[i], ts[i])
    ensures forall i :: 0 <= i < |r| && !Selected(ds[i]) ==> r[i] == ts[i]
    ensures forall i :: 0 <= i < |r| && Selected(ds[i]) ==> r[i].prevMarketCap == ts[i].marketCap
    ensures forall i :: 0 <= i < |r| && Selected(ds[i]) ==> r[i].marketCap >= FLOOR
    ensures forall i :: 0 <= i < |r| ==> 0 <= r[i].txns - ts[i].txns <= 1
  {
    seq(|ts|, i requires 0 <= i < |ts| => UpdateToken(ts[i], ds[i]))
  }

  ghost predicate AboveFloor(ts: seq<Token>) {
    forall i :: 0 <= i < |ts| ==> ts[i].marketCap >= FLOOR
  }

  /** "Every market cap is at least 1000" survives any tick. */
  lemma UpdateKeepsFloor(ts: seq<Token>, ds: seq<TickDraw>)
    requires |ds| == |ts|
    requires AboveFloor(ts)
    ensures AboveFloor(Update(ts, ds))
  {
  }

  /** Whenever a tick changes a market cap, the old value is kept as the
      previous market cap. */
  lemma UpdateRecordsPrevious(ts: seq<Token>, ds: seq<TickDraw>, i: int)
    requires |ds| == |ts|
    requires 0 <= i < |ts|
    requires Update(ts, ds)[i].marketCap != ts[i].marketCap
    ensures Update(ts, ds)[i].prevMarketCap == ts[i].marketCap
  {
  }

  /** From a market cap at or above the floor, a tick moves it by at least
      -450 and by less than 550. */
  lemma UpdateTokenStep(t: Token, d: TickDraw)
    requires ValidTickDraw(d)
    requires t.marketCap >= FLOOR
    ensures -450.0 <= UpdateToken(t, d).marketCap - t.marketCap < 550.0
  {
  }
}
