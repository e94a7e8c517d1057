/** The canned analysis text returned when the text-generation service is
    unavailable (the catch branch of callGemini, app/page.tsx:120-128): a
    case-sensitive substring test on the prompt picks one of three texts,
    "portfolio" before "Market Pulse". */
module Fallback {

  /** Each canned text is its bold headline followed by its body. */
  const DEGEN_HEADLINE: string := "**Degen Score"
  const DEGEN_BODY: string :=
    ": 85/100** \U{1F3B2}\n\nYou're holding more meme coins than a TikTok teenager. With 82% of your portfolio in high-volatility assets like $WIF and $BONK, you are one bad tweet away from liquidation.\n\n**Recommendation:** Rotate 20% of your BONK profits into SOL immediately to secure gains while staying exposed to the ecosystem."
  const DEGEN_TEXT: string := DEGEN_HEADLINE + DEGEN_BODY
  const SENTIMENT_HEADLINE: string := "**Market Sentiment"
  const SENTIMENT_BODY: string :=
    ": Extreme Greed (78/100)** \U{1F680}\n\nVolumes on new pairs are surging, indicating a 'Risk-On' environment. Liquidity is rotating rapidly from blue-chips into bonding curve plays.\n\n**Advice:** High volatility expected. Bonding curves are filling 15% faster than yesterday."
  const SENTIMENT_TEXT: string := SENTIMENT_HEADLINE + SENTIMENT_BODY
  const VIBE_HEADLINE: string := "**Vibe Check"
  const VIBE_BODY: string :=
    ":** This token is showing aggressive buy pressure with a healthy holder distribution. It gives off strong community takeover vibes.\n\n**Hype Score:** 8.5/10 \U{1F680}"
  const VIBE_TEXT: string := VIBE_HEADLINE + VIBE_BODY

  const PORTFOLIO_NEEDLE: string := "portfolio"
  const MARKET_PULSE_NEEDLE: string := "Market Pulse"

  predicate StartsWith(s: string, prefix: string) {
    |prefix| <= |s| && s[..|prefix|] == prefix
  }

  /** String.prototype.includes: tries every start position in turn. */
  predicate Includes(s: string, needle: string)
    decreases |s|
  {
    StartsWith(s, needle) || (|s| > 0 && Includes(s[1..], needle))
  }

  /** The reference meaning: `needle` occurs at some position of `s`. */
  ghost predicate OccursAt(s: string, needle: string, i: int) {
    0 <= i && i + |needle| <= |s| && s[i..i + |needle|] == needle
  }

  ghost predicate Occurs(s: string, needle: string) {
    exists i :: OccursAt(s, needle, i)
  }

  lemma {:induction false} IncludesIffOccurs(s: string, needle: string)
    ensures Includes(s, needle) <==> Occurs(s, needle)
    decreases |s|
  {
    if StartsWith(s, needle) {
      assert OccursAt(s, needle, 0);
    }
    if |s| > 0 {
      IncludesIffOccurs(s[1..], needle);
      if Includes(s[1..], needle) {
        var i :| OccursAt(s[1..], needle, i);
        ShiftOccurrence(s, needle, i + 1);
      }
      if Occurs(s, needle) {
        var i :| OccursAt(s, needle, i);
        if i > 0 {
          ShiftOccurrence(s, needle, i);
        }
      }
    } else if Occurs(s, needle) {
      var i :| OccursAt(s, needle, i);
      assert needle == [] == s[..0];
    }
  }

  /** An occurrence past the first position is one in the tail, one
      position earlier. */
  lemma ShiftOccurrence(s: string, needle: string, i: int)
    requires |s| > 0 && i > 0
    ensures OccursAt(s, needle, i) <==> OccursAt(s[1..], needle, i - 1)
  {
    if i + |needle| <= |s| {
      assert s[1..][i - 1..i - 1 + |needle|] == s[i..i + |needle|];
    }
  }

  /** Which of the three canned texts a prompt gets. */
  datatype Reply = DegenScore | MarketSentiment | VibeCheck

  function ReplyText(reply: Reply): string {
    match reply
    case DegenScore => DEGEN_TEXT
    case MarketSentiment => SENTIMENT_TEXT
    case VibeCheck => VIBE_TEXT
  }

  /** The three canned texts differ (already in their third character). */
  lemma ReplyTextInjective(a: Reply, b: Reply)
    ensures ReplyText(a) == ReplyText(b) <==> a == b
  {
    assert DEGEN_TEXT[2] == DEGEN_HEADLINE[2] == 'D';
    assert SENTIMENT_TEXT[2] == SENTIMENT_HEADLINE[2] == 'M';
    assert VIBE_TEXT[2] == VIBE_HEADLINE[2] == 'V';
  }

  /** The choice made by the two `includes` tests, in their order. */
  function FallbackReply(prompt: string): (r: Reply)
    ensures r == DegenScore <==> Occurs(prompt, PORTFOLIO_NEEDLE)
    ensures r == MarketSentiment <==> !Occurs(prompt, PORTFOLIO_NEEDLE) && Occurs(prompt, MARKET_PULSE_NEEDLE)
    ensures r == VibeCheck <==> !Occurs(prompt, PORTFOLIO_NEEDLE) && !Occurs(prompt, MARKET_PULSE_NEEDLE)
  {
    IncludesIffOccurs(prompt, PORTFOLIO_NEEDLE);
    IncludesIffOccurs(prompt, MARKET_PULSE_NEEDLE);
    if Includes(prompt, PORTFOLIO_NEEDLE) then DegenScore
    else if Includes(prompt, MARKET_PULSE_NEEDLE) then MarketSentiment
    else VibeCheck
  }

  /** The text the fallback path resolves with for a prompt. */
  function FallbackText(prompt: string): (r: string)
    ensures r == DEGEN_TEXT <==> Occurs(prompt, PORTFOLIO_NEEDLE)
    ensures r == SENTIMENT_TEXT <==> !Occurs(prompt, PORTFOLIO_NEEDLE) && Occurs(prompt, MARKET_PULSE_NEEDLE)
    ensures r == VIBE_TEXT <==> !Occurs(prompt, PORTFOLIO_NEEDLE) && !Occurs(prompt, MARKET_PULSE_NEEDLE)
  {
    var reply := FallbackReply(prompt);
    assert ReplyText(DegenScore) == DEGEN_TEXT && ReplyText(MarketSentiment) == SENTIMENT_TEXT
      && ReplyText(VibeCheck) == VIBE_TEXT;
    ReplyTextInjective(reply, DegenScore);
    ReplyTextInjective(reply, MarketSentiment);
    ReplyTextInjective(reply, VibeCheck);
    ReplyText(reply)
  }

  /** A needle placed between two strings occurs right after the first. */
  lemma OccursBetween(front: string, needle: string, back: string)
    ensures OccursAt(front + needle + back, needle, |front|)
  {
    assert (front + needle + back)[|front|..|front| + |needle|] == needle;
  }

  /** A needle holding a character the text lacks does not occur in it. */
  lemma {:induction false} MissingCharExcludes(s: string, needle: string, c: char)
    requires c in needle && c !in s
    ensures !Includes(s, needle)
    decreases |s|
  {
    if |s| > 0 {
      MissingCharExcludes(s[1..], needle, c);
    }
  }

  /** A prompt that names Market Pulse and has no letter `f` can hold no
      "portfolio" and so gets the sentiment text. */
  lemma PulseWithoutPortfolio(prompt: string)
    requires Occurs(prompt, MARKET_PULSE_NEEDLE)
    requires 'f' !in prompt
    ensures FallbackReply(prompt) == MarketSentiment
  {
    assert PORTFOLIO_NEEDLE[4] == 'f';
    MissingCharExcludes(prompt, PORTFOLIO_NEEDLE, 'f');
    IncludesIffOccurs(prompt, PORTFOLIO_NEEDLE);
  }

  /** The portfolio audit prompt (app/page.tsx:263) always gets the Degen
      Score text, whatever the holdings string is. */
  lemma AuditPromptGetsDegenScore(holdings: string)
    ensures FallbackReply("Audit portfolio: " + holdings) == DegenScore
  {
    assert Occurs("Audit portfolio: " + holdings, PORTFOLIO_NEEDLE) by {
      OccursBetween("Audit ", PORTFOLIO_NEEDLE, ": " + holdings);
      assert "Audit " + PORTFOLIO_NEEDLE + (": " + holdings) == "Audit portfolio: " + holdings;
    }
  }

  /** The audit reply carries its "Degen Score". */
  lemma DegenTextNamesScore()
    ensures Occurs(ReplyText(DegenScore), "Degen Score")
  {
    OccursBetween("**", "Degen Score", DEGEN_BODY);
    assert DEGEN_HEADLINE == "**" + "Degen Score";
  }

  /** The prompt the market report modal sends (app/page.tsx:563). */
  const MARKET_REPORT_PROMPT: string := MARKET_PULSE_NEEDLE + " Report..."

  /** The market report prompt gets the sentiment text. */
  lemma MarketReportPromptGetsSentiment()
    ensures FallbackReply(MARKET_REPORT_PROMPT) == MarketSentiment
  {
    var p := MARKET_REPORT_PROMPT;
    assert Occurs(p, MARKET_PULSE_NEEDLE) by {
      OccursBetween([], MARKET_PULSE_NEEDLE, " Report...");
      assert [] + MARKET_PULSE_NEEDLE + " Report..." == p;
    }
    assert 'f' !in p;
    PulseWithoutPortfolio(p);
  }

  /** A prompt naming both keywords gets the Degen Score text. */
  lemma PortfolioWinsOverMarketPulse(prompt: string)
    requires Occurs(prompt, PORTFOLIO_NEEDLE) && Occurs(prompt, MARKET_PULSE_NEEDLE)
    ensures FallbackReply(prompt) == DegenScore
  {
  }

  const ANALYZE_PREFIX: string := "Analyze Ticker: $"

  /** The prompt the token analysis button sends for a ticker
      (app/page.tsx:517). */
  function AnalyzePrompt(ticker: string): string {
    ANALYZE_PREFIX + ticker
  }

  /** The token analysis prompt (app/page.tsx:517) for a ticker written in
      capitals and digits, as generated tickers are, gets the Vibe Check
      branch. */
  lemma AnalyzePromptGetsVibeCheck(ticker: string)
    requires forall i :: 0 <= i < |ticker| ==> 'A' <= ticker[i] <= 'Z' || '0' <= ticker[i] <= '9'
    ensures FallbackReply(AnalyzePrompt(ticker)) == VibeCheck
  {
    var p := AnalyzePrompt(ticker);
    assert 'f' !in p by {
      forall i | 0 <= i < |p| ensures p[i] != 'f' {
        if i >= 17 {
          assert p[i] == ticker[i - 17];
        }
      }
    }
    assert 'u' !in p by {
      forall i | 0 <= i < |p| ensures p[i] != 'u' {
        if i >= 17 {
          assert p[i] == ticker[i - 17];
        }
      }
    }
    assert 'f' in PORTFOLIO_NEEDLE && 'u' in MARKET_PULSE_NEEDLE;
    MissingCharExcludes(p, PORTFOLIO_NEEDLE, 'f');
    MissingCharExcludes(p, MARKET_PULSE_NEEDLE, 'u');
    IncludesIffOccurs(p, PORTFOLIO_NEEDLE);
    IncludesIffOccurs(p, MARKET_PULSE_NEEDLE);
  }
}
