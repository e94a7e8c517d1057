/** The card highlight (TokenCard's effect, app/page.tsx:459-460): when a
    card's market cap changes from the value it last rendered, it flashes
    green for a rise and red for a fall; an equal value sets no flash. */
module Flash {

  import opened Wrappers
  import opened Tokens
  import opened Updater

  datatype Color = Green | Red

  function FlashOnChange(rendered: real, current: real): (r: Option<Color>)
    ensures r == Some(Green) <==> current > rendered
    ensures r == Some(Red) <==> current < rendered
    ensures r == None <==> current == rendered
  {
    if current > rendered then Some(Green)
    else if current < rendered then Some(Red)
    else None
  }

  /** After a tick, a card above the floor flashes green exactly when its
      drawn delta is positive, and red exactly when the delta is negative
      and the card was not already at the floor; an unpicked card does not
      flash. */
  lemma TickFlash(t: Token, d: TickDraw)
    requires t.marketCap >= FLOOR
    ensures var u := UpdateToken(t, d);
      && (FlashOnChange(t.marketCap, u.marketCap) == Some(Green) <==> Selected(d) && Delta(d) > 0.0)
      && (FlashOnChange(t.marketCap, u.marketCap) == Some(Red) <==> Selected(d) && Delta(d) < 0.0 && t.marketCap > FLOOR)
  {
  }

  /** The previous market cap a tick records is the value the card last
      rendered, so comparing against it gives the same flash. */
  lemma FlashFromRecordedPrevious(t: Token, d: TickDraw)
    requires Selected(d)
    ensures var u := UpdateToken(t, d);
      FlashOnChange(u.prevMarketCap, u.marketCap) == FlashOnChange(t.marketCap, u.marketCap)
  {
  }
}
