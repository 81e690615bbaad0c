/**
 * The daily treasure chest (src/components/learning/TreasureChest.tsx): a
 * one-shot claim that adds a fixed reward of XP and coins to the profile
 * row. The store's replies are parameters: the profile read (which may throw
 * or find no row) and whether the update throws.
 */
module TreasureChest {
  import opened Common

  const RewardXp: int := 100
  const RewardCoins: int := 50

  /** The chest's state: opened (animation) and claimed. */
  datatype Chest = Chest(isOpen: bool, claimed: bool)

  /** The profile columns read: nullable XP and coins. */
  datatype Wallet = Wallet(xp: Option<int>, coins: Option<int>)

  /** A claim: the chest afterwards and the XP and coins written, if any. */
  datatype Claim = Claim(chest: Chest, write: Option<(int, int)>)

  /**
   * `handleClaim`: a claimed chest or a missing user does nothing; otherwise
   * the chest opens; a profile row found gets the reward added to its
   * (defaulted) XP and coins; the chest counts as claimed once the attempt
   * did not throw, even when no row was found; a throw leaves it unclaimed.
   */
  function HandleClaim(chest: Chest, signedIn: bool, read: Result<Option<Wallet>>, updateThrows: bool): (r: Claim)
    ensures chest.claimed || !signedIn ==> r == Claim(chest, None)
    ensures !chest.claimed && signedIn ==> r.chest.isOpen
    ensures r.write.Some? <==> !chest.claimed && signedIn && read.Ok? && read.value.Some?
    ensures r.write.Some? ==>
              && r.write.value.0 - OrInt(read.value.value.xp, 0) == RewardXp
              && r.write.value.1 - OrInt(read.value.value.coins, 0) == RewardCoins
    ensures !chest.claimed && signedIn ==>
              (r.chest.claimed <==> read.Ok? && !(read.value.Some? && updateThrows))
  {
    if chest.claimed || !signedIn then Claim(chest, None)
    else if read.Failed? then Claim(Chest(true, false), None)
    else if read.value.None? then Claim(Chest(true, true), None)
    else
      var w := read.value.value;
      var write := (OrInt(w.xp, 0) + RewardXp, OrInt(w.coins, 0) + RewardCoins);
      Claim(Chest(true, !updateThrows), Some(write))
  }

  /** The chest pays out at most once: after a claim that went through, claiming again writes nothing. */
  lemma ClaimIsOneShot(chest: Chest, read: Result<Option<Wallet>>, updateThrows: bool,
                       read2: Result<Option<Wallet>>, updateThrows2: bool)
    requires HandleClaim(chest, true, read, updateThrows).chest.claimed
    ensures var again := HandleClaim(HandleClaim(chest, true, read, updateThrows).chest, true, read2, updateThrows2);
            again.write.None? && again.chest == HandleClaim(chest, true, read, updateThrows).chest
  {
  }

  /** A failed attempt can be retried and then pays the reward. */
  lemma RetryAfterThrowPays(wallet: Wallet)
    ensures var first := HandleClaim(Chest(false, false), true, Failed, false);
            && !first.chest.claimed
            && HandleClaim(first.chest, true, Ok(Some(wallet)), false).write.Some?
  {
  }
}
