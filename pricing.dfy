/** The billing-period switch of the pricing section and what the pricing
    cards show for it (components/PricingSection.tsx): the `isYearly` state
    cell with its three click handlers, the Pro plan's price selection, the
    price block of a card, the "-20%" badge and the feature rows. */
module Pricing {
  import opened Options

  const ProMonthly: string := "2 990₽"
  const ProYearly: string := "2 390₽"
  const ProOldPrice: string := "2 990₽"
  const FreePrice: string := "0₽"
  const EnterprisePrice: string := "По запросу"
  const PerMonth: string := "/месяц"
  const DiscountLabel: string := "-20%"

  // ---------------------------------------------------------------------
  // The billing-period switch

  /** The switch button's handler, `setIsYearly(!isYearly)`. */
  function AfterSwitch(isYearly: bool): (r: bool)
    ensures r != isYearly
  {
    !isYearly
  }

  /** The "Ежемесячно" label: it runs the switch handler only when yearly. */
  function AfterMonthlyLabel(isYearly: bool): (r: bool)
    ensures !r
    ensures r == isYearly <==> !isYearly
  {
    if isYearly then AfterSwitch(isYearly) else isYearly
  }

  /** The "Ежегодно" label: it runs the switch handler only when monthly. */
  function AfterYearlyLabel(isYearly: bool): (r: bool)
    ensures r
    ensures r == isYearly <==> isYearly
  {
    if !isYearly then AfterSwitch(isYearly) else isYearly
  }

  /** Two presses of the switch restore the period. */
  lemma SwitchTwiceRestores(isYearly: bool)
    ensures AfterSwitch(AfterSwitch(isYearly)) == isYearly
  {
  }

  /** Clicking the same label again changes nothing. */
  lemma LabelsIdempotent(isYearly: bool)
    ensures AfterMonthlyLabel(AfterMonthlyLabel(isYearly)) == AfterMonthlyLabel(isYearly)
    ensures AfterYearlyLabel(AfterYearlyLabel(isYearly)) == AfterYearlyLabel(isYearly)
  {
  }

  /** The `isYearly` state cell of `PricingSection` with its click handlers. */
  class BillingPeriod {
    var isYearly: bool

    /** The section opens on the yearly period. */
    constructor ()
      ensures isYearly
    {
      isYearly := true;
    }

    method PressSwitch()
      modifies this
      ensures isYearly == AfterSwitch(old(isYearly))
    {
      isYearly := !isYearly;
    }

    method ClickMonthly()
      modifies this
      ensures isYearly == AfterMonthlyLabel(old(isYearly))
    {
      if isYearly {
        PressSwitch();
      }
    }

    method ClickYearly()
      modifies this
      ensures isYearly == AfterYearlyLabel(old(isYearly))
    {
      if !isYearly {
        PressSwitch();
      }
    }
  }

  // ---------------------------------------------------------------------
  // Cards

  datatype Feature = Feature(text: string, included: bool)

  /** The props of a `PricingCard` that decide its price block and rows, with
      the defaults for absent optional props applied. */
  datatype Card = Card(price: string, oldPrice: Option<string>, period: string,
                       features: seq<Feature>, isYearly: bool, isCustomPrice: bool)

  /** JavaScript truthiness of an optional string prop. */
  predicate Present(s: Option<string>)
  {
    s.Some? && s.value != ""
  }

  /** The free card: a list price of "0₽" per month, never an old price. */
  function FreeCard(isYearly: bool, features: seq<Feature>): (c: Card)
    ensures c.price == FreePrice && c.period == PerMonth
    ensures c.oldPrice == None && !c.isCustomPrice
    ensures c.isYearly == isYearly && c.features == features
  {
    Card(FreePrice, None, PerMonth, features, isYearly, false)
  }

  /** The Pro card: the yearly price with the monthly price as old price when
      yearly, the monthly price and no old price otherwise. */
  function ProCard(isYearly: bool, features: seq<Feature>): (c: Card)
    ensures c.price == (if isYearly then ProYearly else ProMonthly)
    ensures c.oldPrice.Some? <==> isYearly
    ensures c.oldPrice.Some? ==> c.oldPrice.value == ProOldPrice
    ensures c.period == PerMonth && !c.isCustomPrice
    ensures c.isYearly == isYearly && c.features == features
  {
    Card(if isYearly then ProYearly else ProMonthly,
         if isYearly then Some(ProOldPrice) else None,
         PerMonth, features, isYearly, false)
  }

  /** The enterprise card: the custom price "По запросу" with no period. */
  function EnterpriseCard(isYearly: bool, features: seq<Feature>): (c: Card)
    ensures c.isCustomPrice && c.price == EnterprisePrice && c.period == ""
    ensures c.oldPrice == None
    ensures c.isYearly == isYearly && c.features == features
  {
    Card(EnterprisePrice, None, "", features, isYearly, true)
  }

  /** What the price area of a card shows: a custom price alone, or an
      optional struck-through old price, the price and an optional period. */
  datatype PriceBlock =
    | CustomPrice(price: string)
    | ListPrice(struck: Option<string>, price: string, period: Option<string>)

  function PriceBlockOf(c: Card): (b: PriceBlock)
    ensures b.CustomPrice? <==> c.isCustomPrice
    ensures b.price == c.price
    ensures b.ListPrice? ==> (b.struck.Some? <==> c.isYearly && Present(c.oldPrice))
    ensures b.ListPrice? && b.struck.Some? ==> b.struck == c.oldPrice
    ensures b.ListPrice? ==> (b.period.Some? <==> c.period != "")
    ensures b.ListPrice? && b.period.Some? ==> b.period.value == c.period
  {
    if c.isCustomPrice then CustomPrice(c.price)
    else
      ListPrice(if c.isYearly && Present(c.oldPrice) then c.oldPrice else None,
                c.price,
                if c.period != "" then Some(c.period) else None)
  }

  /** The Pro card shows "2 990₽" struck through before "2 390₽" when yearly,
      and "2 990₽" alone when monthly, both per month. */
  lemma ProPriceBlock(isYearly: bool, features: seq<Feature>)
    ensures PriceBlockOf(ProCard(isYearly, features)) ==
      if isYearly then ListPrice(Some(ProOldPrice), ProYearly, Some(PerMonth))
      else ListPrice(None, ProMonthly, Some(PerMonth))
  {
  }

  /** The free card never shows an old price; the enterprise card shows only
      its custom price, whatever the period. */
  lemma OtherPriceBlocks(isYearly: bool, features: seq<Feature>)
    ensures PriceBlockOf(FreeCard(isYearly, features)) == ListPrice(None, FreePrice, Some(PerMonth))
    ensures PriceBlockOf(EnterpriseCard(isYearly, features)) == CustomPrice(EnterprisePrice)
  {
  }

  /** The badge next to the yearly label. */
  function DiscountBadge(isYearly: bool): (badge: Option<string>)
    ensures badge.Some? <==> isYearly
    ensures badge.Some? ==> badge.value == DiscountLabel
  {
    if isYearly then Some(DiscountLabel) else None
  }

  datatype Icon = CheckMark | CloseMark

  /** One rendered feature row: its icon, whether it is dimmed to half
      opacity, whether its text is medium weight, and its text. */
  datatype FeatureRow = FeatureRow(icon: Icon, dimmed: bool, medium: bool, text: string)

  /** One feature's row: a check mark, full opacity and medium weight
      exactly when the feature is included. */
  function RowOf(f: Feature): (row: FeatureRow)
    ensures row.text == f.text
    ensures row.icon == CheckMark <==> f.included
    ensures row.dimmed <==> !f.included
    ensures row.medium <==> f.included
  {
    FeatureRow(if f.included then CheckMark else CloseMark, !f.included, f.included, f.text)
  }

  /** The feature list of a card, row by row in list order: an included
      feature gets a check mark, full opacity and medium weight; an excluded
      one a close mark, half opacity and normal weight. */
  function FeatureRows(fs: seq<Feature>): (rows: seq<FeatureRow>)
    ensures |rows| == |fs|
    ensures forall k :: 0 <= k < |fs| ==>
      rows[k].text == fs[k].text &&
      (rows[k].icon == CheckMark <==> fs[k].included) &&
      (rows[k].dimmed <==> !fs[k].included) &&
      (rows[k].medium <==> fs[k].included)
  {
    if fs == [] then [] else [RowOf(fs[0])] + FeatureRows(fs[1..])
  }
}
