/** Grouping of tokens by parentheses and top-level delimiters. */
module SqlGroups {
  import opened SqlTokens

  // ---- The reference: parentheses counted over a stretch of tokens ----

  function Weight(token: SqlToken): int {
    if token.text == "(" then 1 else if token.text == ")" then -1 else 0
  }

  /** How many more parentheses are opened than closed in `tokens[a..b]`. */
  function Excess(tokens: seq<SqlToken>, a: nat, b: nat): int
    requires a <= b <= |tokens|
  {
    if a == b then 0 else Excess(tokens, a, b - 1) + Weight(tokens[b - 1])
  }

  ghost predicate Balanced(tokens: seq<SqlToken>) {
    && Excess(tokens, 0, |tokens|) == 0
    && forall k :: 0 <= k <= |tokens| ==> Excess(tokens, 0, k) >= 0
  }

  lemma {:induction false} ExcessSplits(tokens: seq<SqlToken>, a: nat, m: nat, b: nat)
    requires a <= m <= b <= |tokens|
    ensures Excess(tokens, a, b) == Excess(tokens, a, m) + Excess(tokens, m, b)
    decreases b - m
  {
    if m < b {
      ExcessSplits(tokens, a, m, b - 1);
    }
  }

  lemma {:induction false} ExcessOfSlice(tokens: seq<SqlToken>, a: nat, b: nat, c: nat, d: nat)
    requires a <= b <= |tokens| && c <= d <= b - a
    ensures Excess(tokens[a..b], c, d) == Excess(tokens, a + c, a + d)
    decreases d
  {
    if c < d {
      ExcessOfSlice(tokens, a, b, c, d - 1);
    }
  }

  // ---- readParenthesizedTokens ----

  datatype Parenthesized = Parenthesized(inner: seq<SqlToken>, next_index: nat)

  /** The parenthesis opened at `start` closes at `close`: there, and not before, the excess is back to zero. */
  ghost predicate ClosesAt(tokens: seq<SqlToken>, start: nat, close: nat) {
    && start < close < |tokens|
    && Excess(tokens, start, close + 1) == 0
    && forall k :: start < k <= close ==> Excess(tokens, start, k) > 0
  }

  /** The parenthesis opened at `start` is never closed. */
  ghost predicate NeverCloses(tokens: seq<SqlToken>, start: nat) {
    start < |tokens| && forall k :: start < k <= |tokens| ==> Excess(tokens, start, k) > 0
  }

  /** The end of the tokens between the parenthesis before `index`, `nesting` deep, and its partner. */
  function InnerEnd(tokens: seq<SqlToken>, index: nat, nesting: nat): (end: nat)
    requires index <= |tokens| && nesting > 0
    ensures index <= end <= |tokens|
    decreases |tokens| - index
  {
    if index == |tokens| then index
    else if tokens[index].text == "(" then InnerEnd(tokens, index + 1, nesting + 1)
    else if tokens[index].text == ")" then
      if nesting == 1 then index else InnerEnd(tokens, index + 1, nesting - 1)
    else InnerEnd(tokens, index + 1, nesting)
  }

  function ParenthesizedAt(tokens: seq<SqlToken>, start: nat): (r: Parenthesized)
    requires start < |tokens|
    ensures start < r.next_index <= |tokens|
    ensures |r.inner| < |tokens| - start
  {
    var end := InnerEnd(tokens, start + 1, 1);
    Parenthesized(tokens[start + 1..end], if end < |tokens| then end + 1 else end)
  }

  lemma {:induction false} InnerEndFound(tokens: seq<SqlToken>, start: nat, index: nat, nesting: nat)
    requires start < index <= |tokens| && nesting > 0 && nesting == Excess(tokens, start, index)
    requires forall k :: start < k <= index ==> Excess(tokens, start, k) > 0
    ensures
      var end := InnerEnd(tokens, index, nesting);
      if end < |tokens| then ClosesAt(tokens, start, end) && tokens[end].text == ")"
      else NeverCloses(tokens, start)
    decreases |tokens| - index
  {
    if index < |tokens| {
      assert Excess(tokens, start, index + 1) == nesting + Weight(tokens[index]);
      if tokens[index].text == "(" {
        InnerEndFound(tokens, start, index + 1, nesting + 1);
      } else if tokens[index].text == ")" {
        if nesting > 1 {
          InnerEndFound(tokens, start, index + 1, nesting - 1);
        }
      } else {
        InnerEndFound(tokens, start, index + 1, nesting);
      }
    }
  }

  lemma InnerIsBalanced(tokens: seq<SqlToken>, start: nat, close: nat)
    requires ClosesAt(tokens, start, close) && tokens[start].text == "(" && tokens[close].text == ")"
    ensures Balanced(tokens[start + 1..close])
    ensures !NeverCloses(tokens, start)
  {
    var inner := tokens[start + 1..close];
    forall k | 0 <= k <= |inner|
      ensures Excess(inner, 0, k) == Excess(tokens, start, start + 1 + k) - 1
    {
      ExcessOfSlice(tokens, start + 1, close, 0, k);
      ExcessSplits(tokens, start, start + 1, start + 1 + k);
      assert Excess(tokens, start, start + 1) == Excess(tokens, start, start) + 1;
    }
    assert Excess(tokens, start, close + 1) == Excess(tokens, start, close) - 1;
  }

  /**
   * What is read from an opening parenthesis is exactly the stretch up to its partner, balanced in itself,
   * or, when there is no partner, all the rest. Either way it is strictly shorter than what it was read from.
   */
  lemma ParenthesizedIsMatched(tokens: seq<SqlToken>, start: nat)
    requires start < |tokens| && tokens[start].text == "("
    ensures
      var r := ParenthesizedAt(tokens, start);
      var end := start + 1 + |r.inner|;
      && r.inner == tokens[start + 1..end]
      && (NeverCloses(tokens, start) <==> r.next_index == end)
      && (NeverCloses(tokens, start) ==> end == |tokens|)
      && (!NeverCloses(tokens, start) ==>
            ClosesAt(tokens, start, end) && r.next_index == end + 1 && Balanced(r.inner))
  {
    assert Excess(tokens, start, start + 1) == Excess(tokens, start, start) + 1;
    InnerEndFound(tokens, start, start + 1, 1);
    var end := InnerEnd(tokens, start + 1, 1);
    if end < |tokens| {
      InnerIsBalanced(tokens, start, end);
    }
  }

  method ReadParenthesizedTokens(tokens: seq<SqlToken>, start: nat) returns (r: Parenthesized)
    requires start < |tokens| && tokens[start].text == "("
    ensures r == ParenthesizedAt(tokens, start)
  {
    var inner := [];
    var index := start;
    var nesting := 0;
    while index < |tokens|
      invariant start <= index <= |tokens|
      invariant index == start ==> nesting == 0 && inner == []
      invariant index > start ==> nesting > 0 && inner == tokens[start + 1..index]
      invariant index > start ==> InnerEnd(tokens, index, nesting) == InnerEnd(tokens, start + 1, 1)
    {
      var token := tokens[index];
      assert index > start ==> inner + [token] == tokens[start + 1..index + 1];
      if token.text == "(" {
        nesting := nesting + 1;
        if nesting > 1 {
          inner := inner + [token];
        }
        index := index + 1;
        continue;
      }
      if token.text == ")" {
        nesting := nesting - 1;
        if nesting == 0 {
          index := index + 1;
          return Parenthesized(inner, index);
        }
        inner := inner + [token];
        index := index + 1;
        continue;
      }
      inner := inner + [token];
      index := index + 1;
    }
    r := Parenthesized(inner, index);
  }

  // ---- splitTopLevelTokens ----

  /** Open parentheses before `k`, never below zero. */
  function Depth(tokens: seq<SqlToken>, k: nat): nat
    requires k <= |tokens|
  {
    if k == 0 then 0
    else
      var d := Depth(tokens, k - 1) + Weight(tokens[k - 1]);
      if d < 0 then 0 else d
  }

  /** A delimiter outside all parentheses; a parenthesis never delimits. */
  predicate DelimitsAt(tokens: seq<SqlToken>, k: nat, delimiter: string)
    requires k < |tokens|
  {
    tokens[k].text == delimiter && Weight(tokens[k]) == 0 && Depth(tokens, k) == 0
  }

  function GroupsFrom(tokens: seq<SqlToken>, start: nat, k: nat, delimiter: string): (groups: seq<seq<SqlToken>>)
    requires start <= k <= |tokens|
    ensures groups != []
    decreases |tokens| - k
  {
    if k == |tokens| then [tokens[start..]]
    else if DelimitsAt(tokens, k, delimiter) then
      [tokens[start..k]] + GroupsFrom(tokens, k + 1, k + 1, delimiter)
    else GroupsFrom(tokens, start, k + 1, delimiter)
  }

  method SplitTopLevelTokens(tokens: seq<SqlToken>, delimiter: string) returns (groups: seq<seq<SqlToken>>)
    ensures groups == GroupsFrom(tokens, 0, 0, delimiter)
  {
    groups := [];
    var current := [];
    var nesting := 0;
    ghost var start := 0;
    for k := 0 to |tokens|
      invariant nesting == Depth(tokens, k)
      invariant start <= k && current == tokens[start..k]
      invariant groups + GroupsFrom(tokens, start, k, delimiter) == GroupsFrom(tokens, 0, 0, delimiter)
    {
      var token := tokens[k];
      assert current + [token] == tokens[start..k + 1];
      if token.text == "(" {
        nesting := nesting + 1;
        current := current + [token];
      } else if token.text == ")" {
        nesting := if nesting > 0 then nesting - 1 else 0;
        current := current + [token];
      } else if nesting == 0 && token.text == delimiter {
        assert groups + ([current] + GroupsFrom(tokens, k + 1, k + 1, delimiter))
          == (groups + [current]) + GroupsFrom(tokens, k + 1, k + 1, delimiter);
        groups := groups + [current];
        current := [];
        start := k + 1;
      } else {
        current := current + [token];
      }
    }
    assert current == tokens[start..];
    groups := groups + [current];
  }

  function Texts(tokens: seq<SqlToken>): seq<string> {
    seq(|tokens|, i requires 0 <= i < |tokens| => tokens[i].text)
  }

  function JoinedTexts(groups: seq<seq<SqlToken>>, delimiter: string): seq<string>
    requires groups != []
  {
    if |groups| == 1 then Texts(groups[0])
    else Texts(groups[0]) + [delimiter] + JoinedTexts(groups[1..], delimiter)
  }

  /** The groups, joined by the delimiter, are the tokens again. */
  lemma {:induction false} GroupsRebuild(tokens: seq<SqlToken>, start: nat, k: nat, delimiter: string)
    requires start <= k <= |tokens|
    ensures JoinedTexts(GroupsFrom(tokens, start, k, delimiter), delimiter) == Texts(tokens[start..])
    decreases |tokens| - k
  {
    if k < |tokens| {
      if DelimitsAt(tokens, k, delimiter) {
        GroupsRebuild(tokens, k + 1, k + 1, delimiter);
        var groups := GroupsFrom(tokens, start, k, delimiter);
        assert groups[1..] == GroupsFrom(tokens, k + 1, k + 1, delimiter);
        assert Texts(tokens[start..]) == Texts(tokens[start..k]) + [delimiter] + Texts(tokens[k + 1..]);
      } else {
        GroupsRebuild(tokens, start, k + 1, delimiter);
      }
    }
  }

  lemma {:induction false} DepthOfSlice(tokens: seq<SqlToken>, a: nat, b: nat, k: nat)
    requires a <= b <= |tokens| && k <= b - a && Depth(tokens, a) == 0
    ensures Depth(tokens[a..b], k) == Depth(tokens, a + k)
  {
    if k > 0 {
      DepthOfSlice(tokens, a, b, k - 1);
    }
  }

  ghost predicate Undivided(group: seq<SqlToken>, delimiter: string) {
    forall k :: 0 <= k < |group| ==> !DelimitsAt(group, k, delimiter)
  }

  /** No group has a top-level delimiter left: the split cannot be taken further. */
  lemma {:induction false} GroupsAreUndivided(tokens: seq<SqlToken>, start: nat, k: nat, delimiter: string)
    requires start <= k <= |tokens| && Depth(tokens, start) == 0
    requires forall i :: start <= i < k ==> !DelimitsAt(tokens, i, delimiter)
    ensures forall group <- GroupsFrom(tokens, start, k, delimiter) :: Undivided(group, delimiter)
    decreases |tokens| - k
  {
    if k == |tokens| || DelimitsAt(tokens, k, delimiter) {
      forall i | 0 <= i < k - start
        ensures !DelimitsAt(tokens[start..k], i, delimiter)
      {
        DepthOfSlice(tokens, start, k, i);
        assert !DelimitsAt(tokens, start + i, delimiter);
      }
      assert tokens[start..|tokens|] == tokens[start..];
      assert Undivided(tokens[start..k], delimiter);
      if k < |tokens| {
        GroupsAreUndivided(tokens, k + 1, k + 1, delimiter);
      }
    } else {
      GroupsAreUndivided(tokens, start, k + 1, delimiter);
    }
  }

  /** Splitting a group again changes nothing. */
  lemma {:induction false} UndividedIsOneGroup(tokens: seq<SqlToken>, k: nat, delimiter: string)
    requires k <= |tokens| && Undivided(tokens, delimiter)
    ensures GroupsFrom(tokens, 0, k, delimiter) == [tokens]
    decreases |tokens| - k
  {
    if k < |tokens| {
      UndividedIsOneGroup(tokens, k + 1, delimiter);
    }
  }
}
