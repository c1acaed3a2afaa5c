/**
 * The Russian Post shipping-method plugin: service registration when the
 * plugin is created, the add-on descriptions of its configuration form, and
 * the rate loop that asks the tariff library for one price per configured
 * service.
 */
module RussianPost {
  import opened Wrappers
  import opened PhpArrays
  import opened Catalog
  import opened RussianPostManager
  import opened Seqs

  /** One entry of `dynamic_services`: the service id and its checked add-ons (add-on id to add-on id). */
  datatype SelectedService = SelectedService(id: int, additionalServices: PhpArray<int, int>)

  /** `dynamic_services`: service id to selected service, in the order the merchant saved them. */
  type DynamicServices = PhpArray<int, SelectedService>

  /** A value in the plugin configuration. */
  datatype ConfigValue =
    | Null
    | DynamicServicesValue(entries: DynamicServices)
    | ServiceIds(ids: seq<int>)
    | Opaque(text: string)

  /** The plugin configuration array. */
  type Configuration = map<string, ConfigValue>

  /**
   * `dynamic_services` as the loops see it: a missing key or NULL (its default)
   * is read as the empty array, by `?? []` or by a `foreach` over NULL.
   */
  function DynamicServicesOf(configuration: Configuration): DynamicServices {
    if "dynamic_services" in configuration && configuration["dynamic_services"].DynamicServicesValue? then
      configuration["dynamic_services"].entries
    else
      []
  }

  datatype ShippingService = ShippingService(id: int, name: string)

  /** A message handed to the messenger as an error. */
  datatype Message = NotFound(serviceId: int) | TariffFailed(text: string)

  // ---------------------------------------------------------------------------
  // getServiceDataById
  // ---------------------------------------------------------------------------

  datatype Lookup = Lookup(data: Record, cache: Cache)

  /** Looks `id` up in the category list read through the cache with the default exclusion list. */
  function GetServiceDataById(cache: Cache, source: CategorySource, id: int): (r: Lookup)
    ensures var f := GetCategoryList(cache, source, DefaultExclude);
            && r.cache == f.cache
            && (r.data == map[] <==> !Listed(f.data, id))
            && (Listed(f.data, id) ==> r.data == Enrich(Found(f.data, id)))
  {
    var f := GetCategoryList(cache, source, DefaultExclude);
    FoundData(f.data, id);
    Lookup(ServiceData(f.data, id), f.cache)
  }

  /**
   * During one walk over the configured services every lookup reads the same
   * category list: the first one may fill the cache, the later ones hit it.
   */
  lemma LookupsShareCatalog(cache: Cache, current: Cache, source: CategorySource, id: int)
    requires current == cache || current == GetCategoryList(cache, source, DefaultExclude).cache
    ensures var f := GetCategoryList(cache, source, DefaultExclude);
            GetServiceDataById(current, source, id) == Lookup(ServiceData(f.data, id), f.cache)
  {
  }

  /** What a lookup during a walk yields: found or not, and the name and add-ons the walk reads from it. */
  lemma SharedLookup(cache: Cache, current: Cache, source: CategorySource, id: int)
    requires current == cache || current == GetCategoryList(cache, source, DefaultExclude).cache
    ensures var f := GetCategoryList(cache, source, DefaultExclude);
            var r := GetServiceDataById(current, source, id);
            && r.cache == f.cache
            && (r.data == map[] <==> !Listed(f.data, id))
            && (Listed(f.data, id) ==>
                  && NameOf(r.data) == Found(f.data, id).service.name
                  && AddOnsOf(r.data) == AddOns(Found(f.data, id).service))
  {
    var f := GetCategoryList(cache, source, DefaultExclude);
    LookupsShareCatalog(cache, current, source, id);
    if Listed(f.data, id) {
      FoundData(f.data, id);
      EnrichedName(Found(f.data, id));
      EnrichedAddOns(Found(f.data, id));
    }
  }

  // ---------------------------------------------------------------------------
  // create: keep the configured services the catalog knows
  // ---------------------------------------------------------------------------

  /** The ids of `ids` listed in the catalog, in order. */
  function KnownIds(t: Tree, ids: seq<int>): seq<int> {
    if |ids| == 0 then []
    else
      var init := ids[..|ids| - 1];
      var last := ids[|ids| - 1];
      assert ids == init + [last];
      KnownIds(t, init) + (if Listed(t, last) then [last] else [])
  }

  /** One `Not found` message per id of `ids` the catalog does not list, in order. */
  function NotFoundMessages(t: Tree, ids: seq<int>): seq<Message> {
    if |ids| == 0 then []
    else
      var init := ids[..|ids| - 1];
      var last := ids[|ids| - 1];
      assert ids == init + [last];
      NotFoundMessages(t, init) + (if Listed(t, last) then [] else [NotFound(last)])
  }

  /** Each configured id is either kept or reported, never both. */
  lemma {:induction false} RegistrationCount(t: Tree, ids: seq<int>)
    ensures |KnownIds(t, ids)| + |NotFoundMessages(t, ids)| == |ids|
  {
    if |ids| > 0 {
      RegistrationCount(t, ids[..|ids| - 1]);
    }
  }

  /** The kept ids are exactly the configured ids the catalog lists; every other id gets one message. */
  lemma {:induction false} RegistrationSplit(t: Tree, ids: seq<int>)
    ensures forall x :: x in KnownIds(t, ids) <==> x in ids && Listed(t, x)
    ensures forall m :: m in NotFoundMessages(t, ids) <==> m.NotFound? && m.serviceId in ids && !Listed(t, m.serviceId)
  {
    if |ids| > 0 {
      var init := ids[..|ids| - 1];
      assert ids == init + [ids[|ids| - 1]];
      RegistrationSplit(t, init);
    }
  }

  /** The label `create` gives a found service: the `name` entry of its data. */
  function NameOf(data: Record): string {
    if "name" in data && data["name"].Text? then data["name"].s else ""
  }

  lemma EnrichedName(l: Located)
    ensures NameOf(Enrich(l)) == l.service.name
  {
  }

  /** The shipping services `create` registers while walking `ids` against a fixed catalog. */
  function RegisteredServices(t: Tree, ids: seq<int>): PhpArray<int, ShippingService> {
    if |ids| == 0 then []
    else
      var init := ids[..|ids| - 1];
      var last := ids[|ids| - 1];
      var prev := RegisteredServices(t, init);
      if Listed(t, last) then Assign(prev, last, ShippingService(last, Found(t, last).service.name)) else prev
  }

  /**
   * For distinct configured ids, the registered services are keyed by the kept
   * ids in configuration order, each named after its catalog entry.
   */
  lemma RegisteredServicesSpec(t: Tree, ids: seq<int>)
    requires forall i, j :: 0 <= i < j < |ids| ==> ids[i] != ids[j]
    ensures Keys(RegisteredServices(t, ids)) == KnownIds(t, ids)
    ensures forall p :: p in RegisteredServices(t, ids) ==>
              Listed(t, p.key) && p.val == ShippingService(p.key, Found(t, p.key).service.name)
  {
    RegisteredKeys(t, ids);
    RegisteredEntries(t, ids);
  }

  lemma {:induction false} RegisteredKeys(t: Tree, ids: seq<int>)
    requires forall i, j :: 0 <= i < j < |ids| ==> ids[i] != ids[j]
    ensures Keys(RegisteredServices(t, ids)) == KnownIds(t, ids)
  {
    if |ids| > 0 {
      var init := ids[..|ids| - 1];
      var last := ids[|ids| - 1];
      assert forall i, j :: 0 <= i < j < |init| ==> init[i] != init[j] by {
        forall i, j | 0 <= i < j < |init|
          ensures init[i] != init[j]
        {
          assert init[i] == ids[i] && init[j] == ids[j];
        }
      }
      RegisteredKeys(t, init);
      if Listed(t, last) {
        RegistrationSplit(t, init);
        assert last !in init by {
          forall i | 0 <= i < |init|
            ensures init[i] != last
          {
            assert init[i] == ids[i];
          }
        }
        AssignNewKey(RegisteredServices(t, init), last, ShippingService(last, Found(t, last).service.name));
      }
    }
  }

  lemma {:induction false} RegisteredEntries(t: Tree, ids: seq<int>)
    ensures forall p :: p in RegisteredServices(t, ids) ==>
              Listed(t, p.key) && p.val == ShippingService(p.key, Found(t, p.key).service.name)
  {
    if |ids| > 0 {
      var init := ids[..|ids| - 1];
      var last := ids[|ids| - 1];
      RegisteredEntries(t, init);
      if Listed(t, last) {
        AssignPairs(RegisteredServices(t, init), last, ShippingService(last, Found(t, last).service.name));
      }
    }
  }

  /** One more configured id extends the kept ids, the messages and the registered services by its own outcome. */
  lemma WalkStep(t: Tree, ids: seq<int>, i: int)
    requires 0 <= i < |ids|
    ensures var x := ids[i];
            && KnownIds(t, ids[..i + 1]) == KnownIds(t, ids[..i]) + (if Listed(t, x) then [x] else [])
            && NotFoundMessages(t, ids[..i + 1]) == NotFoundMessages(t, ids[..i]) + (if Listed(t, x) then [] else [NotFound(x)])
            && RegisteredServices(t, ids[..i + 1])
               == if Listed(t, x) then Assign(RegisteredServices(t, ids[..i]), x, ShippingService(x, Found(t, x).service.name))
                  else RegisteredServices(t, ids[..i])
  {
    PrefixStep(ids, i);
  }

  /**
   * `create`: walks the keys of `dynamic_services`, keeps those the catalog
   * lists as `services` (in configuration order) and registers a shipping
   * service for each, and reports every other id as not found.
   */
  method Create(configuration: Configuration, cache: Cache, source: CategorySource)
    returns (created: Configuration, services: PhpArray<int, ShippingService>, messages: seq<Message>, cacheAfter: Cache)
    ensures var first := GetCategoryList(cache, source, DefaultExclude);
            var ids := Keys(DynamicServicesOf(configuration));
            && created == configuration["services" := ServiceIds(KnownIds(first.data, ids))]
            && services == RegisteredServices(first.data, ids)
            && messages == NotFoundMessages(first.data, ids)
            && cacheAfter == (if |ids| == 0 then cache else first.cache)
  {
    ghost var first := GetCategoryList(cache, source, DefaultExclude);
    ghost var catalog := first.data;
    var ids := Keys(DynamicServicesOf(configuration));
    var kept: seq<int> := [];
    services := [];
    messages := [];
    cacheAfter := cache;
    var i := 0;
    while i < |ids|
      invariant 0 <= i <= |ids|
      invariant cacheAfter == (if i == 0 then cache else first.cache)
      invariant kept == KnownIds(catalog, ids[..i])
      invariant messages == NotFoundMessages(catalog, ids[..i])
      invariant services == RegisteredServices(catalog, ids[..i])
    {
      var id := ids[i];
      WalkStep(catalog, ids, i);
      SharedLookup(cache, cacheAfter, source, id);
      var lookup := GetServiceDataById(cacheAfter, source, id);
      cacheAfter := lookup.cache;
      if lookup.data == map[] {
        messages := messages + [NotFound(id)];
      } else {
        assert Listed(catalog, id) && NameOf(lookup.data) == Found(catalog, id).service.name;
        services := Assign(services, id, ShippingService(id, NameOf(lookup.data)));
        kept := kept + [id];
      }
      i := i + 1;
    }
    WholePrefix(ids);
    created := configuration["services" := ServiceIds(kept)];
  }

  /** The configured ids are the keys of a PHP array, so they are distinct. */
  lemma ConfiguredIdsDistinct(configuration: Configuration)
    ensures var ids := Keys(DynamicServicesOf(configuration));
            forall i, j :: 0 <= i < j < |ids| ==> ids[i] != ids[j]
  {
  }

  // ---------------------------------------------------------------------------
  // buildConfigurationForm: the add-on description of each configured service
  // ---------------------------------------------------------------------------

  /** The names of the add-ons in `list` whose id is `a`, in list order. */
  function NamesFor(a: int, list: seq<AddOn>): (r: seq<string>)
    ensures |r| <= |list|
  {
    if |list| == 0 then []
    else
      var init := list[..|list| - 1];
      var last := list[|list| - 1];
      assert list == init + [last];
      NamesFor(a, init) + (if last.id == a then [last.name] else [])
  }

  /**
   * The nested loops of `buildConfigurationForm`: for each selected add-on id
   * in selection order, the names of the matching `service_list` entries.
   */
  function AddOnNames(selected: seq<int>, list: seq<AddOn>): seq<string>
  {
    if |selected| == 0 then []
    else
      var init := selected[..|selected| - 1];
      var last := selected[|selected| - 1];
      assert selected == init + [last];
      AddOnNames(init, list) + NamesFor(last, list)
  }

  lemma {:induction false} NamesForMembers(a: int, list: seq<AddOn>)
    ensures forall n :: n in NamesFor(a, list) <==> exists x :: x in list && x.id == a && x.name == n
    ensures NamesFor(a, list) == [] <==> forall x :: x in list ==> x.id != a
  {
    if |list| > 0 {
      var init := list[..|list| - 1];
      assert list == init + [list[|list| - 1]];
      NamesForMembers(a, init);
    }
  }

  /**
   * Every listed name belongs to an add-on of the service whose id was selected,
   * and every such add-on's name is listed; so nothing is listed exactly when no
   * selected id is among the service's add-ons.
   */
  lemma {:induction false} AddOnNamesMembers(selected: seq<int>, list: seq<AddOn>)
    ensures forall n :: n in AddOnNames(selected, list) <==> exists x :: x in list && x.id in selected && x.name == n
    ensures AddOnNames(selected, list) == [] <==> forall x :: x in list ==> x.id !in selected
  {
    if |selected| > 0 {
      var init := selected[..|selected| - 1];
      var last := selected[|selected| - 1];
      assert selected == init + [last];
      AddOnNamesMembers(init, list);
      NamesForMembers(last, list);
    }
  }

  /** Selection order is kept: the names for a longer selection extend those for its prefix. */
  lemma {:induction false} AddOnNamesAppend(s1: seq<int>, s2: seq<int>, list: seq<AddOn>)
    ensures AddOnNames(s1 + s2, list) == AddOnNames(s1, list) + AddOnNames(s2, list)
    decreases |s2|
  {
    if |s2| == 0 {
      AppendNothing(s1, s2);
    } else {
      var init := s2[..|s2| - 1];
      var last := s2[|s2| - 1];
      AddOnNamesAppend(s1, init, list);
      calc {
        AddOnNames(s1 + s2, list);
        { SplitLast(s1, s2); }
        AddOnNames((s1 + init) + [last], list);
        { AddOnNamesSnoc(s1 + init, last, list); }
        AddOnNames(s1, list) + AddOnNames(init, list) + NamesFor(last, list);
        { AddOnNamesSnoc(init, last, list); SplitLast(s1, s2); }
        AddOnNames(s1, list) + AddOnNames(s2, list);
      }
    }
  }

  lemma AddOnNamesSnoc(selected: seq<int>, a: int, list: seq<AddOn>)
    ensures AddOnNames(selected + [a], list) == AddOnNames(selected, list) + NamesFor(a, list)
  {
    assert (selected + [a])[..|selected|] == selected;
  }

  /** A selected id that no add-on of the service has contributes nothing. */
  lemma UnknownAddOnDropped(selected: seq<int>, a: int, list: seq<AddOn>)
    requires forall x :: x in list ==> x.id != a
    ensures AddOnNames(selected + [a], list) == AddOnNames(selected, list)
  {
    assert (selected + [a])[..|selected|] == selected;
    NamesForMembers(a, list);
  }

  lemma {:induction false} NamesForUnique(k: int, list: seq<AddOn>)
    requires 0 <= k < |list|
    requires forall i, j :: 0 <= i < j < |list| ==> list[i].id != list[j].id
    ensures NamesFor(list[k].id, list) == [list[k].name]
  {
    var init := list[..|list| - 1];
    if k == |list| - 1 {
      NamesForMembers(list[k].id, init);
    } else {
      NamesForUnique(k, init);
    }
  }

  /** When add-on ids are distinct, a known selected id contributes exactly its add-on's name. */
  lemma KnownAddOnNamed(k: int, list: seq<AddOn>)
    requires 0 <= k < |list|
    requires forall i, j :: 0 <= i < j < |list| ==> list[i].id != list[j].id
    ensures AddOnNames([list[k].id], list) == [list[k].name]
  {
    NamesForUnique(k, list);
    assert [list[k].id][..0] == [];
  }

  datatype Description = NotSelected | AdditionalServices(names: seq<string>)

  /** The description of a configured service found in the catalog. */
  function Describe(e: SelectedService, l: Located): (d: Description)
    ensures d == NotSelected <==> forall x :: x in AddOns(l.service) ==> x.id !in Values(e.additionalServices)
    ensures d.AdditionalServices? ==> d.names == AddOnNames(Values(e.additionalServices), AddOns(l.service))
  {
    AddOnNamesMembers(Values(e.additionalServices), AddOns(l.service));
    var names := AddOnNames(Values(e.additionalServices), AddOns(l.service));
    if names == [] then NotSelected else AdditionalServices(names)
  }

  /**
   * The descriptions written while walking `entries` against a fixed catalog:
   * one per listed service id, the last entry for an id winning.
   */
  function DescriptionsFor(t: Tree, entries: seq<SelectedService>): PhpArray<int, Description>
  {
    if |entries| == 0 then []
    else
      var init := entries[..|entries| - 1];
      var last := entries[|entries| - 1];
      assert entries == init + [last];
      var prev := DescriptionsFor(t, init);
      if Listed(t, last.id) then Assign(prev, last.id, Describe(last, Found(t, last.id))) else prev
  }

  /** A description is recorded for exactly the configured ids the catalog lists. */
  lemma {:induction false} DescribedIds(t: Tree, entries: seq<SelectedService>)
    ensures forall id :: HasKey(DescriptionsFor(t, entries), id) <==> Listed(t, id) && exists e :: e in entries && e.id == id
  {
    if |entries| > 0 {
      var init := entries[..|entries| - 1];
      var last := entries[|entries| - 1];
      MembersSplitLast(entries);
      DescribedIds(t, init);
      if Listed(t, last.id) {
        AssignKeys(DescriptionsFor(t, init), last.id, Describe(last, Found(t, last.id)));
      }
    }
  }

  /** The last entry for a listed id decides its description. */
  lemma {:induction false} LastEntryDescribes(t: Tree, entries: seq<SelectedService>, i: int)
    requires 0 <= i < |entries| && Listed(t, entries[i].id)
    requires forall j :: i < j < |entries| ==> entries[j].id != entries[i].id
    ensures Get(DescriptionsFor(t, entries), entries[i].id) == Some(Describe(entries[i], Found(t, entries[i].id)))
  {
    var init := entries[..|entries| - 1];
    assert entries == init + [entries[|entries| - 1]];
    if i < |entries| - 1 {
      LastEntryDescribes(t, init, i);
    }
  }

  /** One more configured service records its description, or nothing when the catalog does not list it. */
  lemma DescriptionsStep(t: Tree, entries: seq<SelectedService>, i: int)
    requires 0 <= i < |entries|
    ensures var e := entries[i];
            DescriptionsFor(t, entries[..i + 1])
            == if Listed(t, e.id) then Assign(DescriptionsFor(t, entries[..i]), e.id, Describe(e, Found(t, e.id)))
               else DescriptionsFor(t, entries[..i])
  {
    PrefixStep(entries, i);
  }

  /** `$data['service_list'] ?? []`: the add-on list stored in a service's data. */
  function AddOnsOf(data: Record): seq<AddOn> {
    if "service_list" in data && data["service_list"].AddOnList? then data["service_list"].items else []
  }

  lemma EnrichedAddOns(l: Located)
    ensures AddOnsOf(Enrich(l)) == AddOns(l.service)
  {
  }

  /**
   * The description part of `buildConfigurationForm`: walks the configured
   * services, skips those the catalog does not list, and records the add-on
   * description of each other one under its id.
   */
  method BuildConfigurationForm(configuration: Configuration, cache: Cache, source: CategorySource)
    returns (descriptions: PhpArray<int, Description>, cacheAfter: Cache)
    ensures var first := GetCategoryList(cache, source, DefaultExclude);
            var entries := Values(DynamicServicesOf(configuration));
            && descriptions == DescriptionsFor(first.data, entries)
            && cacheAfter == (if |entries| == 0 then cache else first.cache)
  {
    ghost var first := GetCategoryList(cache, source, DefaultExclude);
    var entries := Values(DynamicServicesOf(configuration));
    descriptions := [];
    cacheAfter := cache;
    var i := 0;
    while i < |entries|
      invariant 0 <= i <= |entries|
      invariant cacheAfter == (if i == 0 then cache else first.cache)
      invariant descriptions == DescriptionsFor(first.data, entries[..i])
    {
      var service := entries[i];
      DescriptionsStep(first.data, entries, i);
      SharedLookup(cache, cacheAfter, source, service.id);
      var lookup := GetServiceDataById(cacheAfter, source, service.id);
      cacheAfter := lookup.cache;
      if lookup.data != map[] {
        var names := AddOnNames(Values(service.additionalServices), AddOnsOf(lookup.data));
        var description := if names == [] then NotSelected else AdditionalServices(names);
        descriptions := Assign(descriptions, service.id, description);
      }
      i := i + 1;
    }
    WholePrefix(entries);
  }

  // ---------------------------------------------------------------------------
  // calculateRates
  // ---------------------------------------------------------------------------

  /** A monetary amount; the number is kept as the decimal string it is. */
  datatype Price = Price(number: string, currencyCode: string)

  /** What the rate loop reads from a shipment and its shipping profile. */
  datatype Shipment = Shipment(profileHasAddress: bool, hasItems: bool, declaredValue: Price)

  datatype TariffParams = TariffParams(weight: int, sumoc: string, from: int, to: int, pack: int)

  /** The tariff library's answer: the price with VAT, or the exception it throws. */
  datatype TariffResult = Calculated(payNds: string) | RussianPostError(message: string)

  /** The tariff library: service id, request parameters and add-on selection to a result. */
  type TariffCalculation = (int, TariffParams, PhpArray<int, int>) -> TariffResult

  datatype TariffCall = TariffCall(serviceId: int, params: TariffParams, additionalServices: PhpArray<int, int>)

  datatype ShippingRate = ShippingRate(shippingMethodId: int, service: Option<ShippingService>, amount: Price)

  /** The request parameters: fixed weight, origin, destination and package; only `sumoc` comes from the shipment. */
  const RequestWeight := 20
  const RequestFrom := 109012
  const RequestTo := 664000
  const RequestPack := 10

  function RequestParams(declared: Price): TariffParams {
    TariffParams(RequestWeight, declared.number, RequestFrom, RequestTo, RequestPack)
  }

  /** What stays fixed over one run of the rate loop. */
  datatype RateContext = RateContext(
    tariff: TariffCalculation,
    params: TariffParams,
    services: PhpArray<int, ShippingService>,
    methodId: int,
    currencyCode: string)

  /** The rate for one configured service, absent when the tariff call throws. */
  function Quote(ctx: RateContext, e: SelectedService): Option<ShippingRate> {
    match ctx.tariff(e.id, ctx.params, e.additionalServices)
    case Calculated(pay) => Some(ShippingRate(ctx.methodId, Get(ctx.services, e.id), Price(pay, ctx.currencyCode)))
    case RussianPostError(_) => None
  }

  /** What one configured service adds to the rates: its rate, or nothing when the call throws. */
  function RateFor(ctx: RateContext, e: SelectedService): seq<ShippingRate> {
    match Quote(ctx, e)
    case Some(q) => [q]
    case None => []
  }

  /** What one configured service adds to the messages: the exception's text, or nothing. */
  function MessageFor(ctx: RateContext, e: SelectedService): seq<Message> {
    match ctx.tariff(e.id, ctx.params, e.additionalServices)
    case Calculated(_) => []
    case RussianPostError(msg) => [TariffFailed(msg)]
  }

  /** The rates of the services whose tariff call succeeds, in configuration order. */
  function Quotes(ctx: RateContext, entries: seq<SelectedService>): seq<ShippingRate> {
    if |entries| == 0 then []
    else
      var init := entries[..|entries| - 1];
      Quotes(ctx, init) + RateFor(ctx, entries[|entries| - 1])
  }

  /** One error message per service whose tariff call throws, in configuration order. */
  function Failures(ctx: RateContext, entries: seq<SelectedService>): seq<Message> {
    if |entries| == 0 then []
    else
      var init := entries[..|entries| - 1];
      Failures(ctx, init) + MessageFor(ctx, entries[|entries| - 1])
  }

  /** Each configured service yields exactly one of a rate and an error message. */
  lemma {:induction false} OutcomeCount(ctx: RateContext, entries: seq<SelectedService>)
    ensures |Quotes(ctx, entries)| + |Failures(ctx, entries)| == |entries|
  {
    if |entries| > 0 {
      OutcomeCount(ctx, entries[..|entries| - 1]);
    }
  }

  /**
   * Every rate carries the shipping method and the declared value's currency and
   * is the priced answer for one configured service; every message is the text
   * of the exception thrown for one configured service.
   */
  lemma {:induction false} QuotesSound(ctx: RateContext, entries: seq<SelectedService>)
    ensures forall q :: q in Quotes(ctx, entries) ==>
              && q.shippingMethodId == ctx.methodId
              && q.amount.currencyCode == ctx.currencyCode
              && exists e :: e in entries && Quote(ctx, e) == Some(q)
    ensures forall m :: m in Failures(ctx, entries) ==>
              m.TariffFailed? &&
              exists e :: e in entries && ctx.tariff(e.id, ctx.params, e.additionalServices) == RussianPostError(m.text)
  {
    if |entries| > 0 {
      var init := entries[..|entries| - 1];
      assert entries == init + [entries[|entries| - 1]];
      QuotesSound(ctx, init);
    }
  }

  lemma QuotesAppend(ctx: RateContext, a: seq<SelectedService>, b: seq<SelectedService>)
    ensures Quotes(ctx, a + b) == Quotes(ctx, a) + Quotes(ctx, b)
    ensures Failures(ctx, a + b) == Failures(ctx, a) + Failures(ctx, b)
  {
    RatesAppend(ctx, a, b);
    MessagesAppend(ctx, a, b);
  }

  lemma {:induction false} RatesAppend(ctx: RateContext, a: seq<SelectedService>, b: seq<SelectedService>)
    ensures Quotes(ctx, a + b) == Quotes(ctx, a) + Quotes(ctx, b)
    decreases |b|
  {
    if |b| == 0 {
      AppendNothing(a, b);
    } else {
      var init := b[..|b| - 1];
      var last := b[|b| - 1];
      RatesAppend(ctx, a, init);
      calc {
        Quotes(ctx, a + b);
        { SplitLast(a, b); }
        Quotes(ctx, (a + init) + [last]);
        { QuotesSnoc(ctx, a + init, last); }
        Quotes(ctx, a) + Quotes(ctx, init) + RateFor(ctx, last);
        { QuotesSnoc(ctx, init, last); SplitLast(a, b); }
        Quotes(ctx, a) + Quotes(ctx, b);
      }
    }
  }

  lemma {:induction false} MessagesAppend(ctx: RateContext, a: seq<SelectedService>, b: seq<SelectedService>)
    ensures Failures(ctx, a + b) == Failures(ctx, a) + Failures(ctx, b)
    decreases |b|
  {
    if |b| == 0 {
      AppendNothing(a, b);
    } else {
      var init := b[..|b| - 1];
      var last := b[|b| - 1];
      MessagesAppend(ctx, a, init);
      calc {
        Failures(ctx, a + b);
        { SplitLast(a, b); }
        Failures(ctx, (a + init) + [last]);
        { QuotesSnoc(ctx, a + init, last); }
        Failures(ctx, a) + Failures(ctx, init) + MessageFor(ctx, last);
        { QuotesSnoc(ctx, init, last); SplitLast(a, b); }
        Failures(ctx, a) + Failures(ctx, b);
      }
    }
  }

  lemma QuotesSnoc(ctx: RateContext, entries: seq<SelectedService>, e: SelectedService)
    ensures Quotes(ctx, entries + [e]) == Quotes(ctx, entries) + RateFor(ctx, e)
    ensures Failures(ctx, entries + [e]) == Failures(ctx, entries) + MessageFor(ctx, e)
  {
    assert (entries + [e])[..|entries|] == entries;
  }

  lemma QuotesSingle(ctx: RateContext, e: SelectedService)
    ensures Quotes(ctx, [e]) == RateFor(ctx, e)
    ensures Failures(ctx, [e]) == MessageFor(ctx, e)
  {
    assert [e][..0] == [];
  }

  /** Each service's outcome touches only its own slot: what comes before and after it is unaffected. */
  lemma FailureIsolated(ctx: RateContext, entries: seq<SelectedService>, k: int)
    requires 0 <= k < |entries|
    ensures Quotes(ctx, entries) ==
              Quotes(ctx, entries[..k]) + Quotes(ctx, [entries[k]]) + Quotes(ctx, entries[k + 1..])
    ensures Quotes(ctx, [entries[k]]) == (match Quote(ctx, entries[k]) case Some(q) => [q] case None => [])
    ensures Failures(ctx, entries) ==
              Failures(ctx, entries[..k]) + Failures(ctx, [entries[k]]) + Failures(ctx, entries[k + 1..])
  {
    SplitAt(entries, k);
    QuotesAppend(ctx, entries[..k], [entries[k]]);
    QuotesAppend(ctx, entries[..k] + [entries[k]], entries[k + 1..]);
    QuotesSingle(ctx, entries[k]);
  }

  /** A service whose tariff call throws leaves no rate: the rates are those of the services around it. */
  lemma QuotesAroundFailure(ctx: RateContext, entries: seq<SelectedService>, k: int)
    requires 0 <= k < |entries|
    requires Quote(ctx, entries[k]).None?
    ensures Quotes(ctx, entries) == Quotes(ctx, entries[..k]) + Quotes(ctx, entries[k + 1..])
  {
    FailureIsolated(ctx, entries, k);
    AppendNothing(Quotes(ctx, entries[..k]), Quotes(ctx, [entries[k]]));
  }

  /** When exactly one service's tariff call throws, only its rate is missing. */
  lemma SingleFailureKeepsOthers(ctx: RateContext, entries: seq<SelectedService>, k: int)
    requires 0 <= k < |entries|
    requires Quote(ctx, entries[k]).None?
    requires forall j :: 0 <= j < |entries| && j != k ==> Quote(ctx, entries[j]).Some?
    ensures |Quotes(ctx, entries)| == |entries| - 1
    ensures Quotes(ctx, entries) == Quotes(ctx, entries[..k]) + Quotes(ctx, entries[k + 1..])
  {
    QuotesAroundFailure(ctx, entries, k);
    var before := entries[..k];
    var after := entries[k + 1..];
    forall j | 0 <= j < |before|
      ensures Quote(ctx, before[j]).Some?
    {
      assert before[j] == entries[j];
    }
    forall j | 0 <= j < |after|
      ensures Quote(ctx, after[j]).Some?
    {
      assert after[j] == entries[k + 1 + j];
    }
    AllSucceed(ctx, before);
    AllSucceed(ctx, after);
  }

  /** When exactly one service's tariff call throws, exactly one error message is reported. */
  lemma SingleFailureReportsOnce(ctx: RateContext, entries: seq<SelectedService>, k: int)
    requires 0 <= k < |entries|
    requires Quote(ctx, entries[k]).None?
    requires forall j :: 0 <= j < |entries| && j != k ==> Quote(ctx, entries[j]).Some?
    ensures |Failures(ctx, entries)| == 1
  {
    SingleFailureKeepsOthers(ctx, entries, k);
    OutcomeCount(ctx, entries);
  }

  lemma {:induction false} AllSucceed(ctx: RateContext, entries: seq<SelectedService>)
    requires forall j :: 0 <= j < |entries| ==> Quote(ctx, entries[j]).Some?
    ensures |Quotes(ctx, entries)| == |entries|
    ensures Failures(ctx, entries) == []
  {
    if |entries| > 0 {
      AllSucceed(ctx, entries[..|entries| - 1]);
    }
  }

  /** One more configured service adds its own outcome at the end of the rates or of the messages. */
  lemma RatesStep(ctx: RateContext, entries: seq<SelectedService>, i: int)
    requires 0 <= i < |entries|
    ensures Quotes(ctx, entries[..i + 1]) == Quotes(ctx, entries[..i]) + RateFor(ctx, entries[i])
    ensures Failures(ctx, entries[..i + 1]) == Failures(ctx, entries[..i]) + MessageFor(ctx, entries[i])
    ensures CallsFor(ctx.params, entries[..i + 1])
            == CallsFor(ctx.params, entries[..i]) + [TariffCall(entries[i].id, ctx.params, entries[i].additionalServices)]
  {
    PrefixStep(entries, i);
  }

  /** The tariff calls the rate loop makes: one per configured service, in order. */
  function CallsFor(params: TariffParams, entries: seq<SelectedService>): seq<TariffCall> {
    if |entries| == 0 then []
    else
      var last := entries[|entries| - 1];
      CallsFor(params, entries[..|entries| - 1]) + [TariffCall(last.id, params, last.additionalServices)]
  }

  lemma {:induction false} CallsForSpec(params: TariffParams, entries: seq<SelectedService>)
    ensures |CallsFor(params, entries)| == |entries|
    ensures forall j :: 0 <= j < |entries| ==>
              CallsFor(params, entries)[j] == TariffCall(entries[j].id, params, entries[j].additionalServices)
  {
    if |entries| > 0 {
      var init := entries[..|entries| - 1];
      CallsForSpec(params, init);
      forall j | 0 <= j < |entries|
        ensures CallsFor(params, entries)[j] == TariffCall(entries[j].id, params, entries[j].additionalServices)
      {
        if j < |init| {
          assert entries[j] == init[j];
        }
      }
    }
  }

  /**
   * `calculateRates`: nothing without an address field or without items;
   * otherwise one tariff call per configured service, in configuration order,
   * a rate for each call that succeeds and an error message for each that throws.
   */
  method CalculateRates(
    configuration: Configuration, shipment: Shipment, tariff: TariffCalculation,
    services: PhpArray<int, ShippingService>, methodId: int)
    returns (rates: seq<ShippingRate>, calls: seq<TariffCall>, messages: seq<Message>)
    ensures !shipment.profileHasAddress || !shipment.hasItems ==> rates == [] && calls == [] && messages == []
    ensures shipment.profileHasAddress && shipment.hasItems ==>
              var entries := Values(DynamicServicesOf(configuration));
              var ctx := RateContext(tariff, RequestParams(shipment.declaredValue), services, methodId,
                                     shipment.declaredValue.currencyCode);
              && |calls| == |entries|
              && (forall j :: 0 <= j < |entries| ==>
                    calls[j] == TariffCall(entries[j].id,
                                           TariffParams(20, shipment.declaredValue.number, 109012, 664000, 10),
                                           entries[j].additionalServices))
              && rates == Quotes(ctx, entries)
              && messages == Failures(ctx, entries)
  {
    rates := [];
    calls := [];
    messages := [];
    if !shipment.profileHasAddress {
      return;
    }
    if !shipment.hasItems {
      return;
    }
    var declared := shipment.declaredValue;
    var entries := Values(DynamicServicesOf(configuration));
    ghost var ctx := RateContext(tariff, RequestParams(declared), services, methodId, declared.currencyCode);
    var i := 0;
    while i < |entries|
      invariant 0 <= i <= |entries|
      invariant calls == CallsFor(ctx.params, entries[..i])
      invariant rates == Quotes(ctx, entries[..i])
      invariant messages == Failures(ctx, entries[..i])
    {
      var service := entries[i];
      RatesStep(ctx, entries, i);
      var params := TariffParams(RequestWeight, declared.number, RequestFrom, RequestTo, RequestPack);
      calls := calls + [TariffCall(service.id, params, service.additionalServices)];
      var calcInfo := tariff(service.id, params, service.additionalServices);
      if calcInfo.Calculated? {
        rates := rates + [ShippingRate(methodId, Get(services, service.id), Price(calcInfo.payNds, declared.currencyCode))];
      } else {
        messages := messages + [TariffFailed(calcInfo.message)];
      }
      i := i + 1;
    }
    WholePrefix(entries);
    CallsForSpec(ctx.params, entries);
  }
}
