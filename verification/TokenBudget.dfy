/** gateway.py, Budget: what fits in the prompt (with estimate_tokens of providers.py). */
module TokenBudget {
  import opened Sequences

  datatype Role = User | Assistant | Other(name: string)

  datatype ChatTurn = ChatTurn(role: Role, content: string)

  /** About four characters per token, and never zero. */
  function EstimateTokens(text: string): nat {
    if (|text| + 3) / 4 > 1 then (|text| + 3) / 4 else 1
  }

  /** A token for every started group of four characters, and at least one. */
  lemma TokensOf(text: string)
    ensures text == "" ==> EstimateTokens(text) == 1
    ensures text != "" ==> 4 * (EstimateTokens(text) - 1) < |text| <= 4 * EstimateTokens(text)
  {
  }

  function Cost(texts: seq<string>): nat {
    if texts == [] then 0 else Cost(Init(texts)) + EstimateTokens(Last(texts))
  }

  function Contents(turns: seq<ChatTurn>): seq<string> { Map((t: ChatTurn) => t.content, turns) }

  /** text[:n], where a negative n drops characters from the end. */
  function Slice(text: string, n: int): string {
    if n < 0 then (if -n <= |text| then text[..|text| + n] else [])
    else if n <= |text| then text[..n] else text
  }

  lemma {:induction false} CostConcat(a: seq<string>, b: seq<string>)
    ensures Cost(a + b) == Cost(a) + Cost(b)
  {
    if b == [] {
      assert a + b == a;
    } else {
      assert Init(a + b) == a + Init(b);
      CostConcat(a, Init(b));
    }
  }

  /** The first source as it is passed on. */
  function Best(context: seq<string>, limit: int): string
    requires context != []
  {
    if EstimateTokens(context[0]) > limit then Slice(context[0], limit * 4) else context[0]
  }

  /** The sources as they are passed on: an oversized first one is truncated. */
  function Offered(context: seq<string>, limit: int): (offered: seq<string>)
    ensures |offered| == |context|
  {
    if context == [] then [] else context[0 := Best(context, limit)]
  }

  /** What the packing would keep if it kept `n` sources. */
  function Packed(context: seq<string>, limit: int, n: nat): seq<string>
    requires n <= |context|
  {
    Offered(context, limit)[..n]
  }

  lemma BestFits(context: seq<string>, limit: int)
    requires context != [] && limit >= 1
    ensures EstimateTokens(Best(context, limit)) == if EstimateTokens(context[0]) > limit then limit else EstimateTokens(context[0])
  {
  }

  /** An oversized first source is cut to the characters that the budget pays for; the others
      are passed on as they are. */
  lemma OfferedKeeps(context: seq<string>, limit: int)
    requires context != [] && limit >= 1
    ensures Offered(context, limit)[0] <= context[0]
    ensures |context[0]| <= 4 * limit ==> Offered(context, limit)[0] == context[0]
    ensures |context[0]| > 4 * limit ==> |Offered(context, limit)[0]| == 4 * limit
    ensures forall i :: 1 <= i < |context| ==> Offered(context, limit)[i] == context[i]
  {
  }

  lemma CostPrefix(texts: seq<string>, n: nat)
    requires n < |texts|
    ensures texts[..n + 1] == texts[..n] + [texts[n]]
    ensures Cost(texts[..n + 1]) == Cost(texts[..n]) + EstimateTokens(texts[n])
  {
    assert texts[..n + 1] == texts[..n] + [texts[n]];
    CostNext(texts[..n], texts[n]);
  }

  lemma CostNext(texts: seq<string>, text: string)
    ensures Cost(texts + [text]) == Cost(texts) + EstimateTokens(text)
  {
    assert Init(texts + [text]) == texts;
  }

  lemma CostGrows(texts: seq<string>, m: nat, n: nat)
    requires m <= n <= |texts|
    ensures Cost(texts[..m]) <= Cost(texts[..n])
  {
    assert texts[..n] == texts[..m] + texts[m..n];
    CostConcat(texts[..m], texts[m..n]);
  }

  /** Once the next text does not fit, no longer prefix does. */
  lemma NothingMoreFits(texts: seq<string>, limit: int, i: nat)
    requires i < |texts| && Cost(texts[..i]) + EstimateTokens(texts[i]) > limit
    ensures forall n :: i < n <= |texts| ==> Cost(texts[..n]) > limit
  {
    CostPrefix(texts, i);
    forall n | i < n <= |texts| ensures Cost(texts[..n]) > limit {
      CostGrows(texts, i + 1, n);
    }
  }

  /** Sources are kept in rank order; an oversized best source is truncated, never dropped.
      With a budget of at least one token the kept prefix fits and is the longest that does;
      with less, only the (truncated) best source is kept. */
  method PackContext(context: seq<string>, limit: int) returns (packed: seq<string>)
    ensures |packed| <= |context| && packed == Packed(context, limit, |packed|)
    ensures context != [] ==> packed != []
    ensures limit >= 1 ==> Cost(packed) <= limit
    ensures limit >= 1 ==> forall n :: |packed| < n <= |context| ==> Cost(Packed(context, limit, n)) > limit
    ensures limit < 1 ==> |packed| <= 1
  {
    ghost var offered := Offered(context, limit);
    packed := [];
    var used := 0;
    var i := 0;
    while i < |context|
      invariant 0 <= i <= |context| && |packed| == i && packed == offered[..i]
      invariant limit >= 1 ==> used == Cost(packed) <= limit
      invariant i == 0 ==> used == 0
      invariant limit < 1 && i > 0 ==> i == 1 && used == limit
    {
      var text := context[i];
      var cost := EstimateTokens(text);
      if packed != [] && used + cost > limit {
        if limit >= 1 { NothingMoreFits(offered, limit, i); }
        break;
      }
      if packed == [] && cost > limit {
        text := Slice(text, limit * 4);
        cost := limit;
      }
      if i == 0 && limit >= 1 { BestFits(context, limit); }
      CostPrefix(offered, i);
      packed := packed + [text];
      used := used + cost;
      i := i + 1;
    }
  }

  /** Contents of the last `n` turns. */
  function Recent(history: seq<ChatTurn>, n: nat): seq<string>
    requires n <= |history|
  {
    Contents(history[|history| - n..])
  }

  lemma RecentNext(history: seq<ChatTurn>, n: nat)
    requires n < |history|
    ensures Cost(Recent(history, n + 1)) == Cost(Recent(history, n)) + EstimateTokens(history[|history| - 1 - n].content)
  {
    var turn := history[|history| - 1 - n].content;
    assert Recent(history, n + 1) == [turn] + Recent(history, n);
    CostConcat([turn], Recent(history, n));
    assert Init([turn]) == [];
  }

  lemma RecentGrows(history: seq<ChatTurn>, m: nat, n: nat)
    requires m <= n <= |history|
    ensures Cost(Recent(history, m)) <= Cost(Recent(history, n))
  {
    var older := Contents(history[|history| - n..|history| - m]);
    assert Recent(history, n) == older + Recent(history, m);
    CostConcat(older, Recent(history, m));
  }

  function Reverse<T>(s: seq<T>): (r: seq<T>)
    ensures |r| == |s| && forall i :: 0 <= i < |s| ==> r[i] == s[|s| - 1 - i]
  {
    seq(|s|, i requires 0 <= i < |s| => s[|s| - 1 - i])
  }

  lemma ReversedSuffix<T>(s: seq<T>, latest: seq<T>)
    requires |latest| <= |s| && forall j :: 0 <= j < |latest| ==> latest[j] == s[|s| - 1 - j]
    ensures Reverse(latest) == s[|s| - |latest|..]
  {
  }

  /** The turns from the newest back, while they fit. */
  method NewestThatFit(history: seq<ChatTurn>, limit: int) returns (latest: seq<ChatTurn>)
    ensures |latest| <= |history| && forall j :: 0 <= j < |latest| ==> latest[j] == history[|history| - 1 - j]
    ensures latest != [] ==> Cost(Recent(history, |latest|)) <= limit
    ensures |latest| < |history| ==> Cost(Recent(history, |latest| + 1)) > limit
  {
    latest := [];
    var used := 0;
    var i := 0;
    while i < |history|
      invariant 0 <= i <= |history| && |latest| == i
      invariant forall j :: 0 <= j < i ==> latest[j] == history[|history| - 1 - j]
      invariant used == Cost(Recent(history, i))
      invariant i > 0 ==> used <= limit
    {
      var turn := history[|history| - 1 - i];
      var cost := EstimateTokens(turn.content);
      RecentNext(history, i);
      if used + cost > limit {
        break;
      }
      latest := latest + [turn];
      used := used + cost;
      i := i + 1;
    }
  }

  /** The longest suffix of the history within the budget. */
  method TrimHistory(history: seq<ChatTurn>, limit: int) returns (kept: seq<ChatTurn>)
    ensures |kept| <= |history| && kept == history[|history| - |kept|..]
    ensures kept == [] || Cost(Contents(kept)) <= limit
    ensures forall n :: |kept| < n <= |history| ==> Cost(Recent(history, n)) > limit
  {
    var latest := NewestThatFit(history, limit);
    kept := Reverse(latest);
    ReversedSuffix(history, latest);
    if |latest| < |history| {
      NothingOlderFits(history, limit, |latest|);
    }
  }

  lemma NothingOlderFits(history: seq<ChatTurn>, limit: int, i: nat)
    requires i < |history| && Cost(Recent(history, i + 1)) > limit
    ensures forall n :: i < n <= |history| ==> Cost(Recent(history, n)) > limit
  {
    forall n | i < n <= |history| ensures Cost(Recent(history, n)) > limit {
      RecentGrows(history, i + 1, n);
    }
  }
}
