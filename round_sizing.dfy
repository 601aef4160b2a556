/** Sizing of the first playoff round (`calculateFirstRound`): how many
    teams play it, how many skip it with a bye, and how many teams reach the
    next round, which is always a power of two. Also the two round-naming
    rules of the bracket generator. */
module RoundSizing {

  predicate IsPow2(x: int)
    decreases if x > 0 then x else 0
  {
    x == 1 || (x >= 2 && x % 2 == 0 && IsPow2(x / 2))
  }

  /** The least power of two that is at least `k` (1 when `k <= 1`). */
  function CeilPow2(k: int): (p: int)
    ensures IsPow2(p) && p >= 1 && p >= k
    ensures p == 1 || p / 2 < k
    decreases if k > 1 then k else 0
  {
    if k <= 1 then 1 else 2 * CeilPow2((k + 1) / 2)
  }

  lemma {:induction false} Pow2Gap(p: int, q: int)
    requires IsPow2(p) && IsPow2(q) && p < q
    ensures 2 * p <= q
    decreases if p > 0 then p else 0
  {
    if p >= 2 {
      Pow2Gap(p / 2, q / 2);
    }
  }

  /** No power of two at least `k` is smaller than `CeilPow2(k)`. */
  lemma {:induction false} CeilPow2Least(k: int, q: int)
    requires IsPow2(q) && q >= k
    ensures CeilPow2(k) <= q
    decreases if k > 1 then k else 0
  {
    if k > 1 {
      CeilPow2Least((k + 1) / 2, q / 2);
    }
  }

  lemma CeilPow2OfPow2(k: int)
    requires IsPow2(k)
    ensures CeilPow2(k) == k
  {
    CeilPow2Least(k, k);
  }

  lemma {:induction false} Pow2Cases(p: int)
    requires IsPow2(p)
    ensures p == 1 || p == 2 || p == 4 || p == 8 || p == 16 || p >= 32
    decreases if p > 0 then p else 0
  {
    if p >= 2 {
      Pow2Cases(p / 2);
    }
  }

  lemma Pow2Double(p: int)
    requires IsPow2(p)
    ensures IsPow2(2 * p)
  {
    assert (2 * p) / 2 == p;
  }

  /** `let p = 1; while (p < target) p *= 2;` */
  method SmallestPowerOfTwoAtLeast(target: int) returns (p: int)
    ensures p == CeilPow2(target)
  {
    p := 1;
    while p < target
      invariant IsPow2(p) && p <= CeilPow2(target)
      decreases target - p
    {
      Pow2Gap(p, CeilPow2(target));
      Pow2Double(p);
      p := p * 2;
    }
    CeilPow2Least(target, p);
  }

  datatype FirstRoundInfo = FirstRoundInfo(
    firstRoundName: string,
    teamsPlaying: int,
    teamsWithBye: int,
    nextRoundSize: int)

  /** The name given to the first round from the size of the round after
      it (the `>= 16`, `>= 8`, ... ladder). */
  function ThresholdRoundName(nextRoundSize: int): string
  {
    if nextRoundSize >= 16 then "16avos"
    else if nextRoundSize >= 8 then "octavos"
    else if nextRoundSize >= 4 then "cuartos"
    else if nextRoundSize >= 2 then "semifinal"
    else "final"
  }

  /** `getRoundName(size)`: the name of a round holding `size` teams. */
  function RoundNameBySize(size: int): string
  {
    if size == 2 then "final"
    else if size == 4 then "semifinal"
    else if size == 8 then "cuartos"
    else if size == 16 then "octavos"
    else "16avos"
  }

  /** The two naming rules agree: a first round feeding `p` teams into the
      next round is named after the `2 * p` bracket slots it stands for. */
  lemma ThresholdNameIsSlotName(p: int)
    requires IsPow2(p)
    ensures ThresholdRoundName(p) == RoundNameBySize(2 * p)
  {
    Pow2Cases(p);
  }

  /** `calculateFirstRound(totalTeams)`, written as a function of the count.
      The second branch is the fallback the source applies when the
      formula gives a non-positive or odd number of players; it is kept
      although `FirstRoundShape` shows it is never taken. */
  function FirstRound(n: nat): (r: FirstRoundInfo)
    ensures 0 <= r.teamsWithBye <= n && r.teamsPlaying + r.teamsWithBye == n
  {
    if n <= 2 then FirstRoundInfo("final", n, 0, 2)
    else
      var nextRoundSize := CeilPow2((n + 1) / 2);
      var teamsPlaying := 2 * (n - nextRoundSize);
      if teamsPlaying <= 0 || teamsPlaying % 2 != 0 then
        var playing := if n % 2 == 0 then n else n - 1;
        var adjusted := CeilPow2(playing / 2);
        FirstRoundInfo(ThresholdRoundName(adjusted), playing, n - playing, adjusted)
      else
        FirstRoundInfo(ThresholdRoundName(nextRoundSize), teamsPlaying, n - teamsPlaying, nextRoundSize)
  }

  method CalculateFirstRound(totalTeams: nat) returns (info: FirstRoundInfo)
    ensures info == FirstRound(totalTeams)
  {
    if totalTeams <= 2 {
      info := FirstRoundInfo("final", totalTeams, 0, 2);
    } else {
      var targetNextRound := (totalTeams + 1) / 2;
      var nextRoundSize := SmallestPowerOfTwoAtLeast(targetNextRound);
      var teamsPlaying := 2 * (totalTeams - nextRoundSize);
      var teamsWithBye := totalTeams - teamsPlaying;
      ghost var fallback := teamsPlaying <= 0 || teamsPlaying % 2 != 0;
      if teamsPlaying <= 0 || teamsPlaying % 2 != 0 {
        teamsPlaying := if totalTeams % 2 == 0 then totalTeams else totalTeams - 1;
        teamsWithBye := totalTeams - teamsPlaying;
        var calculatedNextRoundSize := teamsPlaying / 2;
        nextRoundSize := SmallestPowerOfTwoAtLeast(calculatedNextRoundSize);
      }
      // Both arms of the source's `teamsPlaying > 0` test use the same ladder.
      var firstRoundName := ThresholdRoundName(nextRoundSize);
      info := FirstRoundInfo(firstRoundName, teamsPlaying, teamsWithBye, nextRoundSize);
      assert FirstRound(totalTeams) == info by {
        var p := CeilPow2((totalTeams + 1) / 2);
        assert fallback == (2 * (totalTeams - p) <= 0 || (2 * (totalTeams - p)) % 2 != 0);
      }
    }
  }

  /** For three or more teams the next round has the least power of two of
      at least half the teams; the players are twice the surplus over it,
      an even positive number; the byes fill the rest of the next round,
      and there are none exactly when the count is a power of two. */
  lemma FirstRoundShape(n: nat)
    requires n >= 3
    ensures var r := FirstRound(n);
      && r.nextRoundSize == CeilPow2((n + 1) / 2)
      && IsPow2(r.nextRoundSize) && 2 <= r.nextRoundSize < n
      && r.teamsPlaying == 2 * (n - r.nextRoundSize)
      && r.teamsPlaying > 0 && r.teamsPlaying % 2 == 0
      && r.teamsWithBye == n - r.teamsPlaying
      && 0 <= r.teamsWithBye < r.nextRoundSize
      && r.teamsPlaying / 2 + r.teamsWithBye == r.nextRoundSize
      && (r.teamsWithBye == 0 <==> IsPow2(n))
      && r.firstRoundName == ThresholdRoundName(r.nextRoundSize)
  {
    var c := (n + 1) / 2;
    var p := CeilPow2(c);
    NextRoundBounds(n);
    var r := FirstRound(n);
    assert r == FirstRoundInfo(ThresholdRoundName(p), 2 * (n - p), n - 2 * (n - p), p);
    if IsPow2(n) {
      assert n % 2 == 0;
      assert c == n / 2;
      CeilPow2OfPow2(n / 2);
    }
    if 2 * p == n {
      Pow2Double(p);
    }
  }

  /** The next round is an even power of two below the count and at least
      half of it. */
  lemma NextRoundBounds(n: nat)
    requires n >= 3
    ensures var p := CeilPow2((n + 1) / 2);
      IsPow2(p) && 2 <= p < n && p % 2 == 0 && n <= 2 * p
  {
    var c := (n + 1) / 2;
    var p := CeilPow2(c);
    assert p >= c >= 2;
    assert p / 2 < c;
    assert p % 2 == 0;
    assert p < n;
  }

  /** Ten teams: two first-round matches, six byes, eight in the next round. */
  lemma FirstRoundOfTen()
    ensures FirstRound(10) == FirstRoundInfo("octavos", 4, 6, 8)
  {
    assert CeilPow2(5) == 8 by {
      assert CeilPow2(3) == 4 by {
        assert CeilPow2(2) == 2;
      }
    }
  }
}
