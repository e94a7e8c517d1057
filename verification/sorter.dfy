/** The feed sorter (getSortedTokens, app/page.tsx:657-664): a copy of a
    token list ordered by descending market cap, creation time or
    transaction count. Array.prototype.sort is stable, so the order is the
    unique stable descending order; it is computed here by insertion. */
module Sorter {

  import opened Tokens

  /** The field each sort option compares; `trending` is also the switch's
      default branch, which the typed sort option never reaches otherwise. */
  function Key(t: Token, key: SortOption): real {
    match key
    case Marketcap => t.marketCap
    case Newest => t.created as real
    case Trending => t.txns as real
  }

  /** Each token's key is at least that of the token after it. */
  ghost predicate Descending(s: seq<Token>, key: SortOption)
    decreases |s|
  {
    |s| < 2 || (Key(s[0], key) >= Key(s[1], key) && Descending(s[1..], key))
  }

  /** In a descending list every earlier token has a key at least as large
      as every later one. */
  lemma {:induction false} DescendingPairwise(s: seq<Token>, key: SortOption)
    requires Descending(s, key)
    ensures forall i, j :: 0 <= i < j < |s| ==> Key(s[i], key) >= Key(s[j], key)
    decreases |s|
  {
    if |s| >= 2 {
      DescendingPairwise(s[1..], key);
      forall i, j | 0 <= i < j < |s|
        ensures Key(s[i], key) >= Key(s[j], key)
      {
        assert s[j] == s[1..][j - 1];
        if i > 0 {
          assert s[i] == s[1..][i - 1];
        } else if j > 1 {
          assert s[1] == s[1..][0];
        }
      }
    }
  }

  /** `t` alone if its key is `k`, nothing otherwise. */
  function Front(t: Token, key: SortOption, k: real): seq<Token> {
    if Key(t, key) == k then [t] else []
  }

  /** The tokens of `s` whose key is `k`, in their order in `s`. */
  function WithKey(s: seq<Token>, key: SortOption, k: real): seq<Token> {
    if |s| == 0 then []
    else Front(s[0], key, k) + WithKey(s[1..], key, k)
  }

  /** `r` is `s` stably sorted by descending key: the same tokens, in
      descending key order, and the tokens sharing any one key appear in
      the same relative order as in `s`. */
  ghost predicate StableSortOf(r: seq<Token>, s: seq<Token>, key: SortOption) {
    && multiset(r) == multiset(s)
    && Descending(r, key)
    && forall k :: WithKey(r, key, k) == WithKey(s, key, k)
  }

  /** Puts `x` in front of the first token of `t` whose key is not larger. */
  function Insert(x: Token, t: seq<Token>, key: SortOption): (r: seq<Token>)
    ensures |r| == |t| + 1
    ensures r[0] == x || (|t| > 0 && r[0] == t[0])
  {
    if |t| == 0 then
      [x]
    else if Key(x, key) >= Key(t[0], key) then
      [x] + t
    else
      assert t == [t[0]] + t[1..];
      [t[0]] + Insert(x, t[1..], key)
  }

  /** Insertion adds exactly the inserted token. */
  lemma {:induction false} InsertPermutes(x: Token, t: seq<Token>, key: SortOption)
    ensures multiset(Insert(x, t, key)) == multiset(t) + multiset{x}
  {
    if |t| > 0 && Key(x, key) < Key(t[0], key) {
      InsertPermutes(x, t[1..], key);
      assert t == [t[0]] + t[1..];
      assert multiset([t[0]] + Insert(x, t[1..], key)) == multiset{t[0]} + multiset(Insert(x, t[1..], key));
    }
  }

  lemma {:induction false} InsertDescending(x: Token, t: seq<Token>, key: SortOption)
    requires Descending(t, key)
    ensures Descending(Insert(x, t, key), key)
  {
    if |t| == 0 {
    } else if Key(x, key) >= Key(t[0], key) {
      assert ([x] + t)[1..] == t;
    } else {
      var rest := Insert(x, t[1..], key);
      InsertDescending(x, t[1..], key);
      assert rest[0] == x || rest[0] == t[1];
      assert ([t[0]] + rest)[1..] == rest;
    }
  }

  /** Per key, a list with one token put in front is that token's
      contribution followed by the list. */
  lemma WithKeyCons(x: Token, t: seq<Token>, key: SortOption, k: real)
    ensures WithKey([x] + t, key, k) == Front(x, key, k) + WithKey(t, key, k)
  {
    assert ([x] + t)[0] == x;
    assert ([x] + t)[1..] == t;
  }

  /** Inserted in front of every token with an equal key: stability. */
  lemma {:induction false} InsertWithKey(x: Token, t: seq<Token>, key: SortOption, k: real)
    ensures WithKey(Insert(x, t, key), key, k) == Front(x, key, k) + WithKey(t, key, k)
    decreases |t|
  {
    if |t| == 0 {
      WithKeyCons(x, t, key, k);
    } else if Key(x, key) >= Key(t[0], key) {
      WithKeyCons(x, t, key, k);
    } else {
      InsertWithKey(x, t[1..], key, k);
      PassedTokenWithKey(x, t, key, k);
    }
  }

  /** The step of InsertWithKey where `x` moves past a larger first token. */
  lemma PassedTokenWithKey(x: Token, t: seq<Token>, key: SortOption, k: real)
    requires |t| > 0 && Key(x, key) < Key(t[0], key)
    requires WithKey(Insert(x, t[1..], key), key, k) == Front(x, key, k) + WithKey(t[1..], key, k)
    ensures WithKey(Insert(x, t, key), key, k) == Front(x, key, k) + WithKey(t, key, k)
  {
    InsertPastHead(x, t, key);
    WithKeyCons(t[0], Insert(x, t[1..], key), key, k);
    WithKeyCons(t[0], t[1..], key, k);
    assert [t[0]] + t[1..] == t;
    EmptyFrontsCommute(Front(x, key, k), Front(t[0], key, k), WithKey(t[1..], key, k));
  }

  /** A token with a smaller key than the first goes into the rest. */
  lemma InsertPastHead(x: Token, t: seq<Token>, key: SortOption)
    requires |t| > 0 && Key(x, key) < Key(t[0], key)
    ensures Insert(x, t, key) == [t[0]] + Insert(x, t[1..], key)
  {
  }

  /** Two pieces of which one is empty can be put in either order. */
  lemma EmptyFrontsCommute(fx: seq<Token>, ft: seq<Token>, tail: seq<Token>)
    requires fx == [] || ft == []
    ensures ft + (fx + tail) == fx + (ft + tail)
  {
    if ft == [] {
      assert ft + (fx + tail) == fx + tail;
    } else {
      assert fx + (ft + tail) == ft + tail;
    }
  }

  /** Inserting the first token into a stable sort of the rest gives a
      stable sort of the whole list. */
  lemma InsertExtendsStableSort(s: seq<Token>, rest: seq<Token>, key: SortOption)
    requires |s| > 0
    requires StableSortOf(rest, s[1..], key)
    ensures StableSortOf(Insert(s[0], rest, key), s, key)
  {
    var r := Insert(s[0], rest, key);
    assert s == [s[0]] + s[1..];
    InsertDescending(s[0], rest, key);
    InsertPermutes(s[0], rest, key);
    forall k
      ensures WithKey(r, key, k) == WithKey(s, key, k)
    {
      InsertWithKey(s[0], rest, key, k);
      WithKeyCons(s[0], s[1..], key, k);
    }
  }

  /** getSortedTokens with the sort option as a parameter. */
  function SortedTokens(s: seq<Token>, key: SortOption): (r: seq<Token>)
    ensures StableSortOf(r, s, key)
  {
    if |s| == 0 then []
    else
      var rest := SortedTokens(s[1..], key);
      InsertExtendsStableSort(s, rest, key);
      Insert(s[0], rest, key)
  }

  /** The first token of a descending list has the largest key. */
  lemma HeadHasLargestKey(a: seq<Token>, key: SortOption, y: Token)
    requires Descending(a, key)
    requires y in multiset(a)
    ensures Key(a[0], key) >= Key(y, key)
  {
    DescendingPairwise(a, key);
    var j :| 0 <= j < |a| && a[j] == y;
  }

  /** Two lists that agree per key and start with the same token agree per
      key after it. */
  lemma TailsAgreePerKey(a: seq<Token>, b: seq<Token>, key: SortOption)
    requires |a| > 0 && |b| > 0 && a[0] == b[0]
    requires forall k :: WithKey(a, key, k) == WithKey(b, key, k)
    ensures forall k :: WithKey(a[1..], key, k) == WithKey(b[1..], key, k)
  {
    forall k
      ensures WithKey(a[1..], key, k) == WithKey(b[1..], key, k)
    {
      var front := Front(a[0], key, k);
      assert WithKey(a, key, k) == front + WithKey(a[1..], key, k);
      assert WithKey(b, key, k) == front + WithKey(b[1..], key, k);
      assert WithKey(a[1..], key, k) == WithKey(a, key, k)[|front|..];
      assert WithKey(b[1..], key, k) == WithKey(b, key, k)[|front|..];
    }
  }

  /** Two descending lists that agree per key have the same first token. */
  lemma SameHead(a: seq<Token>, b: seq<Token>, key: SortOption)
    requires |a| > 0 && |b| > 0
    requires multiset(a) == multiset(b)
    requires Descending(a, key) && Descending(b, key)
    requires forall k :: WithKey(a, key, k) == WithKey(b, key, k)
    ensures a[0] == b[0]
  {
    HeadHasLargestKey(b, key, a[0]);
    HeadHasLargestKey(a, key, b[0]);
    var top := Key(a[0], key);
    assert WithKey(a, key, top) == [a[0]] + WithKey(a[1..], key, top);
    assert WithKey(b, key, top) == [b[0]] + WithKey(b[1..], key, top);
    assert WithKey(a, key, top)[0] == a[0];
  }

  /** Two descending lists with the same tokens and the same per-key order
      are equal. */
  lemma {:induction false} StableSortUnique(a: seq<Token>, b: seq<Token>, key: SortOption)
    requires multiset(a) == multiset(b)
    requires Descending(a, key) && Descending(b, key)
    requires forall k :: WithKey(a, key, k) == WithKey(b, key, k)
    ensures a == b
    decreases |a|
  {
    if |a| == 0 || |b| == 0 {
      assert |a| == |multiset(a)| == |multiset(b)| == |b|;
    } else {
      SameHead(a, b, key);
      TailsAgreePerKey(a, b, key);
      SameTailMultiset(a, b);
      assert Descending(a[1..], key) && Descending(b[1..], key);
      StableSortUnique(a[1..], b[1..], key);
      SameHeadSameTail(a, b);
    }
  }

  /** Lists that agree on their first token and on the rest are equal. */
  lemma SameHeadSameTail(a: seq<Token>, b: seq<Token>)
    requires |a| > 0 && |b| > 0 && a[0] == b[0] && a[1..] == b[1..]
    ensures a == b
  {
    assert a == [a[0]] + a[1..];
    assert b == [b[0]] + b[1..];
  }

  /** Removing the same first token from two lists with the same tokens
      leaves lists with the same tokens. */
  lemma SameTailMultiset(a: seq<Token>, b: seq<Token>)
    requires |a| > 0 && |b| > 0 && a[0] == b[0]
    requires multiset(a) == multiset(b)
    ensures multiset(a[1..]) == multiset(b[1..])
  {
    assert a == [a[0]] + a[1..];
    assert b == [b[0]] + b[1..];
    assert multiset(a[1..]) == multiset(a) - multiset{a[0]};
    assert multiset(b[1..]) == multiset(b) - multiset{b[0]};
  }

  /** The sorter's result is characterised by the specification alone:
      a list is its output exactly when it is a stable descending sort of
      the input. */
  lemma SortedTokensCharacterised(r: seq<Token>, s: seq<Token>, key: SortOption)
    ensures r == SortedTokens(s, key) <==> StableSortOf(r, s, key)
  {
    if StableSortOf(r, s, key) {
      var q := SortedTokens(s, key);
      StableSortUnique(r, q, key);
    }
  }

  /** Sorting a list that is already in descending order returns it as is. */
  lemma SortOfDescendingIsIdentity(s: seq<Token>, key: SortOption)
    requires Descending(s, key)
    ensures SortedTokens(s, key) == s
  {
    var r := SortedTokens(s, key);
    assert StableSortOf(r, s, key);
    StableSortUnique(r, s, key);
  }

  /** Re-sorting with no intervening update changes nothing. */
  lemma SortIdempotent(s: seq<Token>, key: SortOption)
    ensures SortedTokens(SortedTokens(s, key), key) == SortedTokens(s, key)
  {
    SortOfDescendingIsIdentity(SortedTokens(s, key), key);
  }

  /** Each adjacent pair of the output is non-increasing in the compared
      field, for each of the three sort options. */
  lemma SortedAdjacentPairs(s: seq<Token>, key: SortOption)
    ensures var r := SortedTokens(s, key);
      forall i :: 0 <= i < |r| - 1 ==>
        && (key == Marketcap ==> r[i].marketCap >= r[i + 1].marketCap)
        && (key == Newest ==> r[i].created >= r[i + 1].created)
        && (key == Trending ==> r[i].txns >= r[i + 1].txns)
  {
    var r := SortedTokens(s, key);
    DescendingPairwise(r, key);
    forall i | 0 <= i < |r| - 1
      ensures Key(r[i], key) >= Key(r[i + 1], key)
    {
    }
  }

  /** Sorting keeps every token and adds none, so the length is kept too. */
  lemma SortedTokensPermutation(s: seq<Token>, key: SortOption)
    ensures |SortedTokens(s, key)| == |s|
    ensures forall t :: t in SortedTokens(s, key) <==> t in s
  {
    var r := SortedTokens(s, key);
    assert |r| == |multiset(r)| == |multiset(s)| == |s|;
    forall t ensures t in r <==> t in s {
      assert t in r <==> t in multiset(r);
      assert t in s <==> t in multiset(s);
    }
  }
}
