/**
 * What the dashboard components share about stock levels: the reorder point read from the
 * environment, the badge colours and captions, and one consistent three-way classification that
 * the corrected badges below are measured against.
 */
module StockStatus {
  import opened Wrappers
  import JsText

  /** An Ant Design badge status as the tables use it. */
  datatype Badge = SuccessBadge | WarningBadge | ErrorBadge

  const NormalText: string := "Normal"
  const LowText: string := "Low"
  const OutText: string := "Out of Stock"
  const UnknownText: string := "Unknown"

  /**
   * `parseInt(process.env.NEXT_PUBLIC_REORDER_POINT as string) || 10`, a `parseInt` without a
   * radix. `None` is an unset variable, which `parseInt` reads as the text "undefined", that is `NaN`.
   */
  function ReorderPoint(env: Option<string>): (t: int)
    ensures t != 0
    ensures env.None? ==> t == 10
    ensures env.Some? && JsText.ParseIntAuto(env.value).Some? && JsText.ParseIntAuto(env.value).value != 0 ==>
      t == JsText.ParseIntAuto(env.value).value
    ensures env.Some? && (JsText.ParseIntAuto(env.value).None? || JsText.ParseIntAuto(env.value) == Some(0)) ==>
      t == 10
  {
    JsText.NumberOr(if env.None? then None else JsText.ParseIntAuto(env.value), 10)
  }

  /** A variable holding a number's decimal text gives that number, except 0, which gives 10. */
  lemma ReorderPointOfNumber(n: int)
    ensures ReorderPoint(Some(JsText.NumberText(n))) == if n == 0 then 10 else n
  {
    JsText.ParseIntAutoNumberText(n);
  }

  /** A hexadecimal setting is read as hexadecimal: "0x14" is a reorder point of 20. */
  lemma ReorderPointOfHex()
    ensures ReorderPoint(Some("0x14")) == 20
  {
    JsText.HexBody('1', '4', 20);
    JsText.PrefixedHex("0x14", "14");
  }

  /** A stock level in one consistent reading: above the reorder point, above zero, or out. */
  datatype Level = Normal | Low | Out

  /** The classification the counts on the dashboard use for a non-negative reorder point. */
  function Classify(q: int, t: int): (l: Level)
    ensures l == Normal <==> q > t
    ensures l == Low <==> 0 < q <= t
    ensures l == Out <==> q <= 0 && q <= t
  {
    if q > t then Normal else if q > 0 then Low else Out
  }

  function LevelBadge(l: Level): Badge {
    match l
    case Normal => SuccessBadge
    case Low => WarningBadge
    case Out => ErrorBadge
  }

  function LevelText(l: Level): string {
    match l
    case Normal => NormalText
    case Low => LowText
    case Out => OutText
  }

  /** The caption a badge colour goes with; the tables pair them this way. */
  predicate Agree(b: Badge, text: string) {
    match b
    case SuccessBadge => text == NormalText
    case WarningBadge => text == LowText
    case ErrorBadge => text == OutText
  }

  /** A level's colour and caption always agree, and no two levels share a caption. */
  lemma LevelAgrees(l: Level, m: Level)
    ensures Agree(LevelBadge(l), LevelText(l))
    ensures LevelText(l) == LevelText(m) ==> l == m
  {
  }
}
