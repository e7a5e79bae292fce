/** The dashboard's product table: its status badge. */
module ProductTableDashboard {
  import opened StockStatus

  /** The badge colour as written; both of the last two branches are red. */
  function BadgeStatus(q: int, t: int): (b: Badge)
    ensures b == SuccessBadge <==> q > t
    ensures b == WarningBadge <==> q <= t && 0 < q <= 10
    ensures b == ErrorBadge <==> q <= t && (q <= 0 || q > 10)
  {
    if q > t then SuccessBadge
    else if q <= 10 && q > 0 then WarningBadge
    else if q <= 0 then ErrorBadge
    else ErrorBadge
  }

  /** The badge caption as written; a quantity no branch takes is "Unknown". */
  function BadgeText(q: int, t: int): (s: string)
    ensures s == NormalText <==> q > t
    ensures s == LowText <==> q <= t && 0 < q <= 10
    ensures s == OutText <==> q <= t && q <= 0
    ensures s == UnknownText <==> 10 < q <= t
  {
    if q > t then NormalText
    else if q <= 10 && q > 0 then LowText
    else if q <= 0 then OutText
    else UnknownText
  }

  /**
   * Above the reorder point is green and "Normal"; 1 to 10 at or below it is orange and "Low";
   * 0 or less at or below it is red and "Out of Stock", negative quantities included.
   */
  lemma Bands(q: int, t: int)
    ensures q > t ==> BadgeStatus(q, t) == SuccessBadge && BadgeText(q, t) == NormalText
    ensures 0 < q <= 10 && q <= t ==> BadgeStatus(q, t) == WarningBadge && BadgeText(q, t) == LowText
    ensures q <= 0 && q <= t ==> BadgeStatus(q, t) == ErrorBadge && BadgeText(q, t) == OutText
  {
  }

  /**
   * "Unknown" never appears with the default reorder point of 10, where the badge follows the
   * shared levels for every non-negative quantity; above 10 every quantity in `(10, t]` is
   * captioned "Unknown" under a red badge.
   */
  lemma UnknownBand(q: int, t: int)
    ensures BadgeText(q, 10) != UnknownText
    ensures q >= 0 ==>
      BadgeStatus(q, 10) == LevelBadge(Classify(q, 10)) && BadgeText(q, 10) == LevelText(Classify(q, 10))
    ensures t > 10 && 10 < q <= t ==> BadgeText(q, t) == UnknownText && BadgeStatus(q, t) == ErrorBadge
  {
  }

  /** With a reorder point of 20 a quantity of 15 is shown as a red "Unknown". */
  lemma UnknownExample()
    ensures BadgeStatus(15, 20) == ErrorBadge && BadgeText(15, 20) == UnknownText
  {
  }

  /** The badge with the hard-coded 10 replaced by the reorder point: the shared levels. */
  function CorrectedStatus(q: int, t: int): (b: Badge)
    ensures b == LevelBadge(Classify(q, t))
  {
    if q > t then SuccessBadge else if q > 0 then WarningBadge else ErrorBadge
  }

  function CorrectedText(q: int, t: int): (s: string)
    ensures s == LevelText(Classify(q, t))
  {
    if q > t then NormalText else if q > 0 then LowText else OutText
  }

  /**
   * The corrected badge never says "Unknown", always pairs colour and caption, is the written
   * badge wherever that one does not say "Unknown", and matches the summary cards' bands.
   */
  lemma CorrectedNeverUnknown(q: int, t: int)
    ensures CorrectedText(q, t) != UnknownText
    ensures Agree(CorrectedStatus(q, t), CorrectedText(q, t))
    ensures BadgeText(q, t) != UnknownText ==>
      CorrectedStatus(q, t) == BadgeStatus(q, t) && CorrectedText(q, t) == BadgeText(q, t)
  {
    LevelAgrees(Classify(q, t), Classify(q, t));
  }
}
