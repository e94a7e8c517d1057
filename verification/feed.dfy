/** The three live feeds of the dashboard taken together
    (app/page.tsx:613-667): generated once per status, then moved by ticks
    and shown through the sorter. The invariant every feed keeps is stated
    once here and shown to hold from generation on. */
module Feed {

  import opened Tokens
  import opened Updater
  import opened Sorter
  import opened Generator
  import Fallback

  /** What every token of a feed of the given status satisfies. */
  predicate WellFormedToken(t: Token, status: TokenStatus) {
    && t.status == status
    && t.marketCap >= FLOOR
    && t.txns >= 0
    && t.volume >= 0
    && 0 <= t.bondingCurve <= 100
    && (status == Migrated <==> t.bondingCurve == 100)
  }

  ghost predicate WellFormedFeed(ts: seq<Token>, status: TokenStatus) {
    forall t :: t in ts ==> WellFormedToken(t, status)
  }

  datatype Dashboard = Dashboard(newPairs: seq<Token>, bondingPairs: seq<Token>, migratedPairs: seq<Token>)

  ghost predicate Valid(d: Dashboard) {
    && WellFormedFeed(d.newPairs, New)
    && WellFormedFeed(d.bondingPairs, Bonding)
    && WellFormedFeed(d.migratedPairs, Migrated)
  }

  predicate ValidBatchDraws(draws: seq<GenDraw>) {
    |draws| == BATCH_SIZE && forall i :: 0 <= i < |draws| ==> ValidGenDraw(draws[i])
  }

  /** The state after the loading delay: one generated batch per status. */
  function Init(newDraws: seq<GenDraw>, bondingDraws: seq<GenDraw>, migratedDraws: seq<GenDraw>): (d: Dashboard)
    requires ValidBatchDraws(newDraws) && ValidBatchDraws(bondingDraws) && ValidBatchDraws(migratedDraws)
    ensures Valid(d)
    ensures |d.newPairs| == |d.bondingPairs| == |d.migratedPairs| == BATCH_SIZE
  {
    var d := Dashboard(Generate(New, newDraws), Generate(Bonding, bondingDraws),
                       Generate(Migrated, migratedDraws));
    assert forall t :: t in d.newPairs ==> WellFormedToken(t, New) by {
      forall t | t in d.newPairs ensures WellFormedToken(t, New) {
        var i :| 0 <= i < |d.newPairs| && d.newPairs[i] == t;
        assert GeneratedShape(t, New, i, newDraws[i].now);
      }
    }
    assert forall t :: t in d.bondingPairs ==> WellFormedToken(t, Bonding) by {
      forall t | t in d.bondingPairs ensures WellFormedToken(t, Bonding) {
        var i :| 0 <= i < |d.bondingPairs| && d.bondingPairs[i] == t;
        assert GeneratedShape(t, Bonding, i, bondingDraws[i].now);
      }
    }
    assert forall t :: t in d.migratedPairs ==> WellFormedToken(t, Migrated) by {
      forall t | t in d.migratedPairs ensures WellFormedToken(t, Migrated) {
        var i :| 0 <= i < |d.migratedPairs| && d.migratedPairs[i] == t;
        assert GeneratedShape(t, Migrated, i, migratedDraws[i].now);
      }
    }
    d
  }

  /** The draws of one tick, one per token of each feed. */
  datatype TickDraws = TickDraws(newPairs: seq<TickDraw>, bondingPairs: seq<TickDraw>, migratedPairs: seq<TickDraw>)

  predicate Fits(d: Dashboard, draws: TickDraws) {
    && |draws.newPairs| == |d.newPairs|
    && |draws.bondingPairs| == |d.bondingPairs|
    && |draws.migratedPairs| == |d.migratedPairs|
  }

  lemma UpdateKeepsWellFormed(ts: seq<Token>, ds: seq<TickDraw>, status: TokenStatus)
    requires |ds| == |ts|
    ensures WellFormedFeed(ts, status) ==> WellFormedFeed(Update(ts, ds), status)
  {
    var r := Update(ts, ds);
    if WellFormedFeed(ts, status) {
      forall t | t in r ensures WellFormedToken(t, status) {
        var i :| 0 <= i < |r| && r[i] == t;
        assert ts[i] in ts;
      }
    }
  }

  /** The 800 ms interval body: every feed updated with its own draws. */
  function Tick(d: Dashboard, draws: TickDraws): (r: Dashboard)
    requires Fits(d, draws)
    ensures Valid(d) ==> Valid(r)
    ensures |r.newPairs| == |d.newPairs| && |r.bondingPairs| == |d.bondingPairs|
    ensures |r.migratedPairs| == |d.migratedPairs|
  {
    UpdateKeepsWellFormed(d.newPairs, draws.newPairs, New);
    UpdateKeepsWellFormed(d.bondingPairs, draws.bondingPairs, Bonding);
    UpdateKeepsWellFormed(d.migratedPairs, draws.migratedPairs, Migrated);
    Dashboard(Update(d.newPairs, draws.newPairs), Update(d.bondingPairs, draws.bondingPairs),
              Update(d.migratedPairs, draws.migratedPairs))
  }

  /** A sequence of ticks; each must supply one draw per token. */
  function Run(d: Dashboard, ticks: seq<TickDraws>): (r: Dashboard)
    requires forall k :: 0 <= k < |ticks| ==> Fits(d, ticks[k])
    ensures Valid(d) ==> Valid(r)
    ensures |r.newPairs| == |d.newPairs| && |r.bondingPairs| == |d.bondingPairs|
    ensures |r.migratedPairs| == |d.migratedPairs|
    decreases |ticks|
  {
    if |ticks| == 0 then d
    else
      var next := Tick(d, ticks[0]);
      assert forall k :: 0 <= k < |ticks| - 1 ==> Fits(next, ticks[1..][k]) by {
        forall k | 0 <= k < |ticks| - 1 ensures Fits(next, ticks[1..][k]) {
          assert ticks[1..][k] == ticks[k + 1] && Fits(d, ticks[k + 1]);
        }
      }
      Run(next, ticks[1..])
  }

  lemma SortKeepsWellFormed(ts: seq<Token>, key: SortOption, status: TokenStatus)
    ensures WellFormedFeed(ts, status) ==> WellFormedFeed(SortedTokens(ts, key), status)
  {
    if WellFormedFeed(ts, status) {
      forall t | t in SortedTokens(ts, key) ensures WellFormedToken(t, status) {
        assert t in multiset(SortedTokens(ts, key));
      }
    }
  }

  /** What the three columns show: each feed sorted by the chosen key. */
  function View(d: Dashboard, key: SortOption): (r: Dashboard)
    ensures StableSortOf(r.newPairs, d.newPairs, key)
    ensures StableSortOf(r.bondingPairs, d.bondingPairs, key)
    ensures StableSortOf(r.migratedPairs, d.migratedPairs, key)
    ensures Valid(d) ==> Valid(r)
  {
    SortKeepsWellFormed(d.newPairs, key, New);
    SortKeepsWellFormed(d.bondingPairs, key, Bonding);
    SortKeepsWellFormed(d.migratedPairs, key, Migrated);
    Dashboard(SortedTokens(d.newPairs, key), SortedTokens(d.bondingPairs, key),
              SortedTokens(d.migratedPairs, key))
  }

  /** Every state the dashboard reaches, and every view of it, keeps the
      invariant: statuses never change, market caps stay at or above the
      floor, and bonding curves match the status. */
  lemma ReachableViewsValid(newDraws: seq<GenDraw>, bondingDraws: seq<GenDraw>, migratedDraws: seq<GenDraw>,
                            ticks: seq<TickDraws>, key: SortOption)
    requires ValidBatchDraws(newDraws) && ValidBatchDraws(bondingDraws) && ValidBatchDraws(migratedDraws)
    requires forall k :: 0 <= k < |ticks| ==> Fits(Init(newDraws, bondingDraws, migratedDraws), ticks[k])
    ensures Valid(View(Run(Init(newDraws, bondingDraws, migratedDraws), ticks), key))
  {
  }

  /** The analysis prompt for any token the generator makes gets the Vibe
      Check text, since no generated ticker can spell either keyword. */
  lemma AnalyzeGeneratedTokenGetsVibeCheck(status: TokenStatus, draws: seq<GenDraw>, i: nat)
    requires ValidBatchDraws(draws)
    requires i < BATCH_SIZE
    ensures Fallback.FallbackReply(Fallback.AnalyzePrompt(Generate(status, draws)[i].ticker)) == Fallback.VibeCheck
  {
    var ticker := Generate(status, draws)[i].ticker;
    GeneratedTickerChars(status, draws, i);
    Fallback.AnalyzePromptGetsVibeCheck(ticker);
  }
}
