/**
 * The ad table of `AdsService` (backend/src/ads/ads.service.ts): selection
 * of active ads by type and position, the popup "trigger" query, the two
 * engagement counters, and admin update/delete.
 */
module Ads {
  import opened Common

  datatype AdType = Banner | Popup | Native
  datatype AdPosition = Top | Bottom | Inline

  /** One row of the ad table; dates are instants in milliseconds. */
  datatype Ad = Ad(
    title: string,
    adType: AdType,
    position: AdPosition,
    content: string,
    imageUrl: Option<string>,
    linkUrl: string,
    triggerRule: Option<string>,
    isActive: bool,
    startDate: Option<int>,
    endDate: Option<int>,
    impressions: nat,
    clicks: nat)

  type AdTable = map<int, Ad>

  /** `UpdateAdDto`: every field optional; dates arrive as strings. */
  datatype AdUpdate = AdUpdate(
    title: Option<string>,
    adType: Option<AdType>,
    position: Option<AdPosition>,
    content: Option<string>,
    imageUrl: Option<string>,
    linkUrl: Option<string>,
    isActive: Option<bool>,
    startDate: Option<string>,
    endDate: Option<string>)

  /** The request body of `getTriggeredAds` (`AdTriggerContextDto`). */
  datatype TriggerContext = TriggerContext(
    userId: Option<int>,
    chaptersRead: Option<int>,
    currentStoryId: Option<int>,
    position: Option<AdPosition>)

  /** The `where` of `getActiveAds`: active, and of the given type and
      position when those are supplied (an undefined filter is no filter). */
  predicate Selected(ad: Ad, adType: Option<AdType>, position: Option<AdPosition>) {
    ad.isActive
    && (adType.Some? ==> ad.adType == adType.value)
    && (position.Some? ==> ad.position == position.value)
  }

  function ActiveAds(table: AdTable, adType: Option<AdType>, position: Option<AdPosition>): (r: AdTable)
  {
    map id | id in table && Selected(table[id], adType, position) :: table[id]
  }

  /** `getTriggeredAds`: the active ads of the requested position, whatever
      the ad's type; nothing at all when no position is given. */
  function TriggeredAds(table: AdTable, ctx: TriggerContext): (r: AdTable)
  {
    if ctx.position.Some? then ActiveAds(table, None, ctx.position) else map[]
  }

  /** Every ad `getActiveAds` returns is an active ad of the table that
      matches each supplied filter, and every such ad is returned. */
  lemma ActiveAdsExact(table: AdTable, adType: Option<AdType>, position: Option<AdPosition>)
    ensures forall id :: id in ActiveAds(table, adType, position) <==>
      id in table && table[id].isActive
      && (adType.None? || table[id].adType == adType.value)
      && (position.None? || table[id].position == position.value)
    ensures forall id :: id in ActiveAds(table, adType, position) ==> ActiveAds(table, adType, position)[id] == table[id]
  {
  }

  /** Supplying a type or a position can only narrow the selection. */
  lemma FiltersNarrow(table: AdTable, adType: AdType, position: AdPosition)
    ensures ActiveAds(table, Some(adType), Some(position)).Keys <= ActiveAds(table, Some(adType), None).Keys
    ensures ActiveAds(table, Some(adType), None).Keys <= ActiveAds(table, None, None).Keys
    ensures ActiveAds(table, None, Some(position)).Keys <= ActiveAds(table, None, None).Keys
  {
    forall id | id in ActiveAds(table, Some(adType), Some(position))
      ensures id in ActiveAds(table, Some(adType), None)
    {
      assert Selected(table[id], Some(adType), None);
    }
    forall id | id in ActiveAds(table, Some(adType), None)
      ensures id in ActiveAds(table, None, None)
    {
      assert Selected(table[id], None, None);
    }
    forall id | id in ActiveAds(table, None, Some(position))
      ensures id in ActiveAds(table, None, None)
    {
      assert Selected(table[id], None, None);
    }
  }

  /** The active window is not consulted: an active ad whose `endDate` is
      already past, or whose `startDate` is still to come, is selected. */
  lemma DatesIgnored(table: AdTable, id: int, now: int)
    requires id in table && table[id].isActive
    requires table[id].endDate.Some? && table[id].endDate.value < now
    ensures id in ActiveAds(table, None, None)
    ensures id in ActiveAds(table, None, Some(table[id].position))
  {
  }

  /** Rewriting every ad's dates leaves the selection's keys unchanged. */
  lemma SelectionIndependentOfDates(table: AdTable, dated: AdTable, adType: Option<AdType>, position: Option<AdPosition>)
    requires dated.Keys == table.Keys
    requires forall id :: id in table ==>
      dated[id] == table[id].(startDate := dated[id].startDate, endDate := dated[id].endDate)
    ensures ActiveAds(dated, adType, position).Keys == ActiveAds(table, adType, position).Keys
  {
    forall id | id in table
      ensures Selected(dated[id], adType, position) == Selected(table[id], adType, position)
    {
      assert dated[id].isActive == table[id].isActive;
      assert dated[id].adType == table[id].adType;
      assert dated[id].position == table[id].position;
    }
  }

  /** With a position, `getTriggeredAds` is `getActiveAds(undefined, position)`;
      without one it is empty; the reader, the chapters read and the current
      story never matter. */
  lemma TriggeredAdsByPositionOnly(table: AdTable, ctx: TriggerContext, other: TriggerContext)
    requires other.position == ctx.position
    ensures ctx.position.Some? ==> TriggeredAds(table, ctx) == ActiveAds(table, None, ctx.position)
    ensures ctx.position.None? ==> TriggeredAds(table, ctx) == map[]
    ensures TriggeredAds(table, other) == TriggeredAds(table, ctx)
  {
  }

  /** Every triggered ad is an active ad of the requested position; popup
      ads are not preferred over other types. */
  lemma TriggeredAdsSound(table: AdTable, ctx: TriggerContext, id: int)
    requires id in TriggeredAds(table, ctx)
    ensures ctx.position.Some? && id in table && table[id].isActive
    ensures table[id].position == ctx.position.value
    ensures TriggeredAds(table, ctx)[id] == table[id]
  {
  }

  /** The table after `impressions: { increment: 1 }` on `id`. */
  function CountImpression(table: AdTable, id: int): AdTable {
    if id in table then table[id := table[id].(impressions := table[id].impressions + 1)] else table
  }

  /** The table after `clicks: { increment: 1 }` on `id`. */
  function CountClick(table: AdTable, id: int): AdTable {
    if id in table then table[id := table[id].(clicks := table[id].clicks + 1)] else table
  }

  /** An impression raises that ad's impressions by exactly one and changes
      no other field of it and no other ad. */
  lemma ImpressionEffect(table: AdTable, id: int)
    requires id in table
    ensures CountImpression(table, id).Keys == table.Keys
    ensures CountImpression(table, id)[id].impressions == table[id].impressions + 1
    ensures CountImpression(table, id)[id].clicks == table[id].clicks
    ensures CountImpression(table, id)[id].(impressions := 0) == table[id].(impressions := 0)
    ensures forall other :: other in table && other != id ==> CountImpression(table, id)[other] == table[other]
  {
  }

  /** A click raises that ad's clicks by exactly one and changes no other
      field of it and no other ad. */
  lemma ClickEffect(table: AdTable, id: int)
    requires id in table
    ensures CountClick(table, id).Keys == table.Keys
    ensures CountClick(table, id)[id].clicks == table[id].clicks + 1
    ensures CountClick(table, id)[id].impressions == table[id].impressions
    ensures CountClick(table, id)[id].(clicks := 0) == table[id].(clicks := 0)
    ensures forall other :: other in table && other != id ==> CountClick(table, id)[other] == table[other]
  {
  }

  /** `n` impressions recorded one after the other. */
  function Impressions(table: AdTable, id: int, n: nat): AdTable {
    if n == 0 then table else CountImpression(Impressions(table, id, n - 1), id)
  }

  /** Recording `n` impressions in sequence raises the counter by `n`: no
      increment is lost, and nothing else moves. */
  lemma {:induction false} ImpressionsAddUp(table: AdTable, id: int, n: nat)
    requires id in table
    ensures Impressions(table, id, n).Keys == table.Keys
    ensures Impressions(table, id, n)[id] == table[id].(impressions := table[id].impressions + n)
    ensures forall other :: other in table && other != id ==> Impressions(table, id, n)[other] == table[other]
  {
    if n > 0 {
      ImpressionsAddUp(table, id, n - 1);
    }
  }

  /** Clicks and impressions are counted independently: recording them in
      either order gives the same table, and neither bounds the other. */
  lemma CountersCommute(table: AdTable, id: int, other: int)
    ensures CountClick(CountImpression(table, id), other) == CountImpression(CountClick(table, other), id)
  {
  }

  /** A supplied date that `new Date` cannot turn into an instant: the empty
      string is not converted at all and reaches the database as "", which
      it refuses like any unparseable date. */
  predicate BadDate(d: Option<string>, parseDate: string -> Option<int>) {
    d.Some? && (d.value == "" || parseDate(d.value).None?)
  }

  function Pick<T>(supplied: Option<T>, current: T): T {
    if supplied.Some? then supplied.value else current
  }

  /** The row after `update({ data: { ...data, startDate?, endDate? } })`:
      every supplied field is overwritten, every absent one kept. */
  function Updated(ad: Ad, data: AdUpdate, parseDate: string -> Option<int>): (r: Ad)
    requires !BadDate(data.startDate, parseDate) && !BadDate(data.endDate, parseDate)
  {
    Ad(
      Pick(data.title, ad.title),
      Pick(data.adType, ad.adType),
      Pick(data.position, ad.position),
      Pick(data.content, ad.content),
      if data.imageUrl.Some? then data.imageUrl else ad.imageUrl,
      Pick(data.linkUrl, ad.linkUrl),
      ad.triggerRule,
      Pick(data.isActive, ad.isActive),
      if data.startDate.Some? then parseDate(data.startDate.value) else ad.startDate,
      if data.endDate.Some? then parseDate(data.endDate.value) else ad.endDate,
      ad.impressions,
      ad.clicks)
  }

  const NoChange := AdUpdate(None, None, None, None, None, None, None, None, None)

  /** An update keeps the counters and the trigger rule, supplies nothing
      when nothing is supplied, and applying it twice is applying it once. */
  lemma UpdatedProperties(ad: Ad, data: AdUpdate, parseDate: string -> Option<int>)
    requires !BadDate(data.startDate, parseDate) && !BadDate(data.endDate, parseDate)
    ensures Updated(ad, data, parseDate).impressions == ad.impressions
    ensures Updated(ad, data, parseDate).clicks == ad.clicks
    ensures Updated(ad, data, parseDate).triggerRule == ad.triggerRule
    ensures Updated(ad, NoChange, parseDate) == ad
    ensures Updated(Updated(ad, data, parseDate), data, parseDate) == Updated(ad, data, parseDate)
    ensures data.startDate.None? ==> Updated(ad, data, parseDate).startDate == ad.startDate
    ensures data.endDate.None? ==> Updated(ad, data, parseDate).endDate == ad.endDate
    ensures data.startDate.Some? ==> Updated(ad, data, parseDate).startDate.Some?
  {
  }

  /** `AdsService` over its table. */
  class AdService {
    var ads: AdTable

    constructor(table: AdTable)
      ensures ads == table
    {
      ads := table;
    }

    method GetActiveAds(adType: Option<AdType>, position: Option<AdPosition>) returns (r: AdTable)
      ensures r == ActiveAds(ads, adType, position)
      ensures forall id :: id in r ==> id in ads && r[id] == ads[id] && r[id].isActive
    {
      r := map id | id in ads && Selected(ads[id], adType, position) :: ads[id];
    }

    method GetTriggeredAds(ctx: TriggerContext) returns (r: AdTable)
      ensures r == TriggeredAds(ads, ctx)
      ensures ctx.position.None? ==> r == map[]
    {
      if ctx.position.Some? {
        r := GetActiveAds(None, ctx.position);
      } else {
        r := map[];
      }
    }

    method TrackAdImpression(id: int) returns (r: Result<Ad>)
      modifies this
      ensures ads == CountImpression(old(ads), id)
      ensures r == if id in old(ads) then Ok(ads[id]) else Err(MissingRecord)
    {
      if id !in ads {
        return Err(MissingRecord);
      }
      ads := ads[id := ads[id].(impressions := ads[id].impressions + 1)];
      r := Ok(ads[id]);
    }

    method TrackAdClick(id: int) returns (r: Result<Ad>)
      modifies this
      ensures ads == CountClick(old(ads), id)
      ensures r == if id in old(ads) then Ok(ads[id]) else Err(MissingRecord)
    {
      if id !in ads {
        return Err(MissingRecord);
      }
      ads := ads[id := ads[id].(clicks := ads[id].clicks + 1)];
      r := Ok(ads[id]);
    }

    method UpdateAd(id: int, data: AdUpdate, parseDate: string -> Option<int>) returns (r: Result<Ad>)
      modifies this
      ensures BadDate(data.startDate, parseDate) || BadDate(data.endDate, parseDate) ==>
                r == Err(InvalidInput) && ads == old(ads)
      ensures !BadDate(data.startDate, parseDate) && !BadDate(data.endDate, parseDate) && id !in old(ads) ==>
                r == Err(MissingRecord) && ads == old(ads)
      ensures !BadDate(data.startDate, parseDate) && !BadDate(data.endDate, parseDate) && id in old(ads) ==>
                r.Ok? && ads == old(ads)[id := Updated(old(ads)[id], data, parseDate)] && r.value == ads[id]
    {
      if BadDate(data.startDate, parseDate) || BadDate(data.endDate, parseDate) {
        return Err(InvalidInput);
      }
      if id !in ads {
        return Err(MissingRecord);
      }
      ads := ads[id := Updated(ads[id], data, parseDate)];
      r := Ok(ads[id]);
    }

    method DeleteAd(id: int) returns (r: Result<Ad>)
      modifies this
      ensures id !in old(ads) ==> r == Err(MissingRecord) && ads == old(ads)
      ensures id in old(ads) ==> r == Ok(old(ads)[id]) && ads == old(ads) - {id}
    {
      if id !in ads {
        return Err(MissingRecord);
      }
      r := Ok(ads[id]);
      ads := ads - {id};
    }
  }
}
