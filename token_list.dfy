/** The list of live refresh tokens a user holds, and the array operations
    the authentication service performs on it: `indexOf`, `splice(i, 1)`,
    `push` and `slice(-5)`. */
module TokenList {
  import opened Common
  import opened Sequences

  /** At most this many refresh tokens are kept per user. */
  const MaxRefreshTokens := 5

  /** Number of occurrences of t in s. */
  function Occurrences(s: seq<string>, t: string): (n: nat)
    ensures n == multiset(s)[t]
  {
    if |s| == 0 then 0
    else
      assert s == [s[0]] + s[1..];
      (if s[0] == t then 1 else 0) + Occurrences(s[1..], t)
  }

  /** `Array.prototype.indexOf`: the first index of t, or -1 when t does not occur. */
  function IndexOf(s: seq<string>, t: string): (i: int)
    ensures -1 <= i < |s|
    ensures i == -1 <==> t !in s
    ensures i >= 0 ==> s[i] == t && t !in s[..i]
  {
    if |s| == 0 then -1
    else if s[0] == t then 0
    else
      var j := IndexOf(s[1..], t);
      if j == -1 then -1
      else
        assert s[..j + 1] == [s[0]] + s[1..][..j];
        j + 1
  }

  /** `splice(indexOf(t), 1)` when t occurs: its first occurrence removed; s otherwise. */
  function RemoveFirst(s: seq<string>, t: string): (r: seq<string>)
    ensures t !in s ==> r == s
    ensures t in s ==> |r| == |s| - 1 && r == s[..IndexOf(s, t)] + s[IndexOf(s, t) + 1..]
  {
    var i := IndexOf(s, t);
    if i == -1 then s else s[..i] + s[i + 1..]
  }

  /** Removing the first occurrence takes away exactly one copy of t and
      nothing else. */
  lemma {:induction false} RemoveFirstMultiset(s: seq<string>, t: string)
    requires t in s
    ensures multiset(RemoveFirst(s, t)) == multiset(s) - multiset{t}
  {
    var i := IndexOf(s, t);
    assert s == s[..i] + [s[i]] + s[i + 1..];
    assert multiset(s) == multiset(s[..i]) + multiset{t} + multiset(s[i + 1..]);
  }

  /** A token that occurred once is gone after its first occurrence is removed. */
  lemma RemoveFirstOnly(s: seq<string>, t: string)
    requires Occurrences(s, t) == 1
    ensures t !in RemoveFirst(s, t)
  {
    RemoveFirstMultiset(s, t);
    assert multiset(RemoveFirst(s, t))[t] == 0;
  }

  /** With at most one copy of t, a second removal changes nothing: logout
      is idempotent. */
  lemma RemoveFirstIdempotent(s: seq<string>, t: string)
    requires Occurrences(s, t) <= 1
    ensures RemoveFirst(RemoveFirst(s, t), t) == RemoveFirst(s, t)
  {
    if t in s {
      RemoveFirstOnly(s, t);
    }
  }

  /** `if (length > n) list = list.slice(-n)`: the last n entries. */
  function KeepLast(s: seq<string>, n: nat): (r: seq<string>)
    ensures |r| == Min(|s|, n)
    ensures r == s[|s| - |r|..]
  {
    if |s| > n then s[|s| - n..] else s
  }

  /** `push(t)` followed by the cap at five. */
  function PushCapped(s: seq<string>, t: string): (r: seq<string>)
    ensures |r| <= MaxRefreshTokens
    ensures |r| > 0 && r[|r| - 1] == t
    ensures |s| < MaxRefreshTokens ==> r == s + [t]
    ensures |s| == MaxRefreshTokens ==> r == s[1..] + [t]
  {
    var r := KeepLast(s + [t], MaxRefreshTokens);
    assert |s| == MaxRefreshTokens ==> r == (s + [t])[1..] == s[1..] + [t];
    r
  }

  /** FIFO eviction: the capped list is always the newest part of the
      uncapped one. */
  lemma PushCappedIsSuffix(s: seq<string>, t: string)
    ensures var r := PushCapped(s, t);
      r == (s + [t])[|s| + 1 - |r|..]
  {
  }

  /** The token list after a series of logins, each pushing one token. */
  function Logins(s: seq<string>, issued: seq<string>): seq<string>
    decreases |issued|
  {
    if |issued| == 0 then s
    else Logins(PushCapped(s, issued[0]), issued[1..])
  }

  /** After any series of logins the list holds exactly the last five of all
      tokens ever pushed, in order of issue. */
  lemma {:induction false} LoginsKeepNewestFive(s: seq<string>, issued: seq<string>)
    requires |s| <= MaxRefreshTokens
    ensures Logins(s, issued) == KeepLast(s + issued, MaxRefreshTokens)
    decreases |issued|
  {
    if |issued| > 0 {
      var s' := PushCapped(s, issued[0]);
      LoginsKeepNewestFive(s', issued[1..]);
      var all := s + issued;
      assert s' + issued[1..] == KeepLast(s + [issued[0]], MaxRefreshTokens) + issued[1..];
      assert all == (s + [issued[0]]) + issued[1..];
      KeepLastAppend(s + [issued[0]], issued[1..], MaxRefreshTokens);
    }
  }

  /** Capping before appending more does not change the final cap. */
  lemma KeepLastAppend(a: seq<string>, b: seq<string>, n: nat)
    ensures KeepLast(KeepLast(a, n) + b, n) == KeepLast(a + b, n)
  {
    var c := KeepLast(a, n);
    if |a| > n {
      assert c + b == (a + b)[|a| - n..];
    } else {
      assert c == a;
    }
  }

  /** The rotation `refreshTokens` performs: drop the presented token's first
      occurrence, push the new one, keep the last five. */
  function Rotate(s: seq<string>, presented: string, issued: string): (r: seq<string>)
    ensures |r| <= MaxRefreshTokens
    ensures |r| > 0 && r[|r| - 1] == issued
  {
    PushCapped(RemoveFirst(s, presented), issued)
  }

  /** Under the length invariant the cap never bites on rotation: the list
      keeps its length, loses one copy of the presented token and gains the
      issued one; a presented token that occurred once is gone unless it is
      reissued. */
  lemma {:induction false} RotateExact(s: seq<string>, presented: string, issued: string)
    requires |s| <= MaxRefreshTokens && presented in s
    ensures Rotate(s, presented, issued) == RemoveFirst(s, presented) + [issued]
    ensures |Rotate(s, presented, issued)| == |s|
    ensures multiset(Rotate(s, presented, issued)) == multiset(s) - multiset{presented} + multiset{issued}
    ensures Occurrences(s, presented) == 1 && issued != presented ==> presented !in Rotate(s, presented, issued)
  {
    RemoveFirstMultiset(s, presented);
    if Occurrences(s, presented) == 1 {
      RemoveFirstOnly(s, presented);
    }
  }
}
