/**
 * The trophy awarded when a session is completed: a tier from the elapsed
 * time, then a title and a colour class from the tier.
 */
module Trophy {
  import opened Wrappers
  import opened Schema

  /** One hour in milliseconds. */
  const Hour: int := 3_600_000

  /**
   * The elapsed time past which tier `j + 2` begins, for j in 0..6:
   * four hours, then every three hours after that.
   */
  function Threshold(j: int): int {
    (4 + 3 * j) * Hour
  }

  /**
   * The tier for `elapsed` milliseconds: 1 up to and including four hours,
   * otherwise one more per started three-hour block past four hours, capped
   * at 8. The ceiling is the integer ceiling of a positive quotient.
   */
  function Tier(elapsed: Millis): (t: int)
    ensures 1 <= t <= 8
    ensures t == 1 <==> elapsed <= 4 * Hour
    ensures t == 8 <==> elapsed > 22 * Hour
    ensures 1 < t < 8 ==> Threshold(t - 2) < elapsed <= Threshold(t - 1)
  {
    if elapsed <= 4 * Hour then 1
    else
      var extra := elapsed - 4 * Hour;
      var blocks := (extra + 3 * Hour - 1) / (3 * Hour);
      assert 3 * Hour * (blocks - 1) < extra <= 3 * Hour * blocks;
      if 1 + blocks > 8 then 8 else 1 + blocks
  }

  /**
   * The tier the trophy dialog shows: while the dialog is open and a start
   * time is present it is computed from the elapsed time up to `endTime`;
   * otherwise the tier shown before (0 when the dialog first mounts) stays.
   */
  function DialogTier(isOpen: bool, startTime: Option<Millis>, endTime: Millis, shown: int): (t: int)
    ensures isOpen && startTime.Some? ==> 1 <= t <= 8
    ensures isOpen && startTime.Some? ==> t == 1 + ThresholdsPassed(endTime - startTime.value, 0)
    ensures !(isOpen && startTime.Some?) ==> t == shown
  {
    if isOpen && startTime.Some? then
      var elapsed := endTime - startTime.value;
      TierCountsThresholds(elapsed);
      Tier(elapsed)
    else
      shown
  }

  /** The tier shown when the dialog first mounts. */
  const InitialTier := 0

  /** The title table, indexed by tier; index 0 is never produced by the tier rule. */
  const Titles: seq<string> :=
    ["Legendary", "Diamond", "Gold", "Silver", "Bronze", "Iron", "Stone", "Wood", "Participation"]

  /** The title for a tier: the table entry, or "Participant" for an index outside the table. */
  function TrophyTitle(tier: int): (title: string)
    ensures 0 <= tier < |Titles| ==> title == Titles[tier]
    ensures !(0 <= tier < |Titles|) ==> title == "Participant"
  {
    if 0 <= tier < |Titles| && Titles[tier] != "" then Titles[tier] else "Participant"
  }

  /** The colour class every tier other than 1..4 gets. */
  const FallbackColor: string := "text-slate-400"

  /** The colour class for a tier: one per tier 1..4, the fallback for any other. */
  function TrophyColor(tier: int): (c: string)
    ensures c == FallbackColor <==> !(1 <= tier <= 4)
  {
    if tier == 1 then "text-blue-400 drop-shadow-[0_0_15px_rgba(96,165,250,0.6)]"
    else if tier == 2 then "text-yellow-400 drop-shadow-[0_0_15px_rgba(250,204,21,0.5)]"
    else if tier == 3 then "text-slate-300 drop-shadow-[0_0_10px_rgba(203,213,225,0.5)]"
    else if tier == 4 then "text-orange-400"
    else FallbackColor
  }

  // ---------------------------------------------------------------- properties

  /** The tier never improves as more time elapses: it only degrades, every three hours. */
  lemma TierMonotone(d1: Millis, d2: Millis)
    requires d1 <= d2
    ensures Tier(d1) <= Tier(d2)
  {
  }

  /** How many of the thresholds `j`, `j + 1`, .., 6 the elapsed time is past. */
  function ThresholdsPassed(elapsed: Millis, j: nat): (n: nat)
    requires j <= 7
    decreases 7 - j
  {
    if j == 7 then 0
    else (if elapsed > Threshold(j) then 1 else 0) + ThresholdsPassed(elapsed, j + 1)
  }

  /** Thresholds grow, so once one is not passed neither is any later one. */
  lemma {:induction false} NonePassedFrom(elapsed: Millis, j: nat)
    requires j <= 7
    requires j < 7 ==> elapsed <= Threshold(j)
    ensures ThresholdsPassed(elapsed, j) == 0
    decreases 7 - j
  {
    if j < 7 {
      NonePassedFrom(elapsed, j + 1);
    }
  }

  /** Past threshold `j` means past all thresholds before it too. */
  lemma {:induction false} PassedCount(elapsed: Millis, j: nat, k: nat)
    requires j <= k <= 7
    requires forall i | j <= i < k :: elapsed > Threshold(i)
    requires k < 7 ==> elapsed <= Threshold(k)
    ensures ThresholdsPassed(elapsed, j) == k - j
    decreases 7 - j
  {
    if j == k {
      NonePassedFrom(elapsed, j);
    } else {
      PassedCount(elapsed, j + 1, k);
    }
  }

  /**
   * The tier is one plus the number of thresholds (4h, 7h, .., 22h) the
   * elapsed time is strictly past.
   */
  lemma TierCountsThresholds(elapsed: Millis)
    ensures Tier(elapsed) == 1 + ThresholdsPassed(elapsed, 0)
  {
    var t := Tier(elapsed);
    var k := t - 1;
    forall i | 0 <= i < k
      ensures elapsed > Threshold(i)
    {
      assert Threshold(i) <= Threshold(k - 1);
    }
    if k < 7 {
      assert elapsed <= Threshold(k);
    }
    PassedCount(elapsed, 0, k);
  }

  /** The named bands: up to 4h is tier 1, (4h, 7h] is tier 2, beyond 22h is tier 8. */
  lemma TierBands(elapsed: Millis)
    ensures elapsed <= 4 * Hour ==> Tier(elapsed) == 1
    ensures 4 * Hour < elapsed <= 7 * Hour ==> Tier(elapsed) == 2
    ensures 22 * Hour < elapsed ==> Tier(elapsed) == 8
  {
  }

  /** Without a start time the dialog keeps the tier it mounted with. */
  lemma NoStartKeepsInitialTier(isOpen: bool, endTime: Millis)
    ensures DialogTier(isOpen, None, endTime, InitialTier) == 0
  {
  }

  /** Tier 1 is "Diamond", tier 8 "Participation", every tier a different title, none of them the fallback. */
  lemma TitlesDistinct()
    ensures TrophyTitle(1) == "Diamond" && TrophyTitle(8) == "Participation"
    ensures forall a, b | 0 <= a < b <= 8 :: TrophyTitle(a) != TrophyTitle(b)
    ensures forall tier | 0 <= tier <= 8 :: TrophyTitle(tier) != "Participant"
  {
  }

  /** Tiers 1..4 each get their own colour class. */
  lemma ColorsDistinct()
    ensures forall a, b | 1 <= a < b <= 4 :: TrophyColor(a) != TrophyColor(b)
  {
  }
}
