/**
 * The service picker form: it renders the catalog as checkboxes with the
 * current selection checked, and on submit turns the checked services and
 * their checked add-ons into the plugin's `dynamic_services`.
 */
module AddService {
  import opened Wrappers
  import opened PhpArrays
  import opened Catalog
  import opened RussianPostManager
  import opened RussianPost
  import opened Seqs

  // ---------------------------------------------------------------------------
  // submitForm
  // ---------------------------------------------------------------------------

  /**
   * The submitted values of one service container: its checkbox (1 or 0) and,
   * when it was rendered, its add-on checkboxes (add-on id to the id when
   * checked, 0 when not).
   */
  datatype ServiceValues = ServiceValues(status: Option<int>, addServiceList: Option<PhpArray<int, int>>)

  /** `!empty($v)` for an integer form value that may be missing. */
  predicate Truthy(v: Option<int>) {
    v.Some? && v.value != 0
  }

  /** `array_filter` without a callback on integer values: drops the zero entries, keeping keys. */
  function ArrayFilter(a: PhpArray<int, int>): (r: PhpArray<int, int>)
    ensures forall p :: p in r <==> p in a && p.val != 0
    ensures |r| <= |a|
  {
    if |a| == 0 then []
    else
      var init: PhpArray<int, int> := a[..|a| - 1];
      var last := a[|a| - 1];
      assert a == init + [last];
      var prev := ArrayFilter(init);
      if last.val != 0 then
        assert forall i :: 0 <= i < |prev| ==> prev[i] in init;
        var r: seq<Pair<int, int>> := prev + [last];
        r
      else
        prev
  }

  /** An array whose values are all non-zero passes through `array_filter` unchanged. */
  lemma {:induction false} ArrayFilterKeepsTruthy(a: PhpArray<int, int>)
    requires forall p :: p in a ==> p.val != 0
    ensures ArrayFilter(a) == a
  {
    if |a| > 0 {
      var init: PhpArray<int, int> := a[..|a| - 1];
      assert a == init + [a[|a| - 1]];
      ArrayFilterKeepsTruthy(init);
    }
  }

  /** Filtering one more entry appends it exactly when its value is non-zero. */
  lemma ArrayFilterSnoc(a: PhpArray<int, int>, p: Pair<int, int>)
    requires UniqueKeys(a + [p])
    ensures ArrayFilter(a + [p]) == ArrayFilter(a) + (if p.val != 0 then [p] else [])
  {
    var ap: PhpArray<int, int> := a + [p];
    assert ap[..|ap| - 1] == a;
  }

  /** `array_filter` keeps the order of the entries it keeps: it distributes over concatenation. */
  lemma {:induction false} ArrayFilterAppend(a: PhpArray<int, int>, b: PhpArray<int, int>)
    requires UniqueKeys(a + b)
    ensures ArrayFilter(a + b) == ArrayFilter(a) + ArrayFilter(b)
  {
    if |b| == 0 {
      AppendNothing(a, b);
      AppendNothing(ArrayFilter(a), ArrayFilter(b));
    } else {
      var init: PhpArray<int, int> := b[..|b| - 1];
      var last := b[|b| - 1];
      SplitLast(a, b);
      UniqueKeysSnoc(a + init, last);
      var ai: PhpArray<int, int> := a + init;
      ArrayFilterAppend(a, init);
      ArrayFilterSnoc(ai, last);
      ArrayFilterSnoc(init, last);
    }
  }

  /** Entries the filter keeps appear in the same relative order as in its input. */
  lemma {:induction false} ArrayFilterOrder(a: PhpArray<int, int>)
    ensures InOrderOf(ArrayFilter(a), a)
  {
    if |a| > 0 {
      var init: PhpArray<int, int> := a[..|a| - 1];
      var last := a[|a| - 1];
      assert a == init + [last];
      UniqueKeysSnoc(init, last);
      ArrayFilterOrder(init);
      ArrayFilterSnoc(init, last);
      var prev := ArrayFilter(init);
      var r := ArrayFilter(a);
      forall i | 0 <= i < |prev|
        ensures 0 <= IndexOf(a, prev[i].key) == IndexOf(init, prev[i].key) < |init|
      {
        assert prev[i] in init;
        IndexOfSnoc(init, last, prev[i].key);
      }
      IndexOfSnoc(init, last, last.key);
      forall i, j | 0 <= i < j < |r|
        ensures 0 <= IndexOf(a, r[i].key) < IndexOf(a, r[j].key)
      {
        assert r[i] == prev[i];
      }
    }
  }

  /** `additional_services` for one checked service: its checked add-ons, or nothing when none were rendered. */
  function AdditionalFrom(v: ServiceValues): (r: PhpArray<int, int>)
    ensures v.addServiceList.None? ==> r == []
    ensures forall p :: p in r <==> v.addServiceList.Some? && p in v.addServiceList.value && p.val != 0
    ensures v.addServiceList.Some? ==> InOrderOf(r, v.addServiceList.value)
  {
    match v.addServiceList
    case Some(list) => ArrayFilterOrder(list); ArrayFilter(list)
    case None => []
  }

  /** The ids of the checked services, in form order. */
  function CheckedIds(values: PhpArray<int, ServiceValues>): seq<int> {
    if |values| == 0 then []
    else
      var init: PhpArray<int, ServiceValues> := values[..|values| - 1];
      var last := values[|values| - 1];
      CheckedIds(init) + (if Truthy(last.val.status) then [last.key] else [])
  }

  /** The `dynamic_services` array the submit loop builds from the form values. */
  function SavedServices(values: PhpArray<int, ServiceValues>): PhpArray<int, SelectedService> {
    if |values| == 0 then []
    else
      var init: PhpArray<int, ServiceValues> := values[..|values| - 1];
      var last := values[|values| - 1];
      var prev := SavedServices(init);
      if Truthy(last.val.status) then
        Assign(prev, last.key, SelectedService(last.key, AdditionalFrom(last.val)))
      else
        prev
  }

  /**
   * Only checked services are saved, keyed by their id in form order; each
   * entry's `id` equals its key and its add-ons are the checked add-on values
   * of that service.
   */
  lemma SavedServicesSpec(values: PhpArray<int, ServiceValues>)
    ensures Keys(SavedServices(values)) == CheckedIds(values)
    ensures forall k :: HasKey(SavedServices(values), k) <==> exists q :: q in values && q.key == k && Truthy(q.val.status)
    ensures forall p :: p in SavedServices(values) ==>
              && p.val.id == p.key
              && exists q :: q in values && q.key == p.key && Truthy(q.val.status)
                             && p.val.additionalServices == AdditionalFrom(q.val)
  {
    SavedServicesKeys(values);
    CheckedIdsMembers(values);
    SavedServicesEntries(values);
  }

  lemma {:induction false} SavedServicesKeys(values: PhpArray<int, ServiceValues>)
    ensures Keys(SavedServices(values)) == CheckedIds(values)
  {
    if |values| > 0 {
      var init: PhpArray<int, ServiceValues> := values[..|values| - 1];
      var last := values[|values| - 1];
      SavedServicesKeys(init);
      CheckedIdsMembers(init);
      var prev := SavedServices(init);
      if Truthy(last.val.status) {
        assert last.key !in CheckedIds(init) by {
          forall q | q in init
            ensures q.key != last.key
          {
            var i :| 0 <= i < |init| && init[i] == q;
            assert values[i] == q;
          }
        }
        assert !HasKey(prev, last.key);
        var entry := Pair(last.key, SelectedService(last.key, AdditionalFrom(last.val)));
        assert SavedServices(values) == prev + [entry];
        assert Keys(prev + [entry]) == Keys(prev) + [last.key];
      }
    }
  }

  /** An id is checked exactly when some submitted service with that key has a truthy status. */
  lemma {:induction false} CheckedIdsMembers(values: PhpArray<int, ServiceValues>)
    ensures forall k :: k in CheckedIds(values) <==> exists q :: q in values && q.key == k && Truthy(q.val.status)
  {
    if |values| > 0 {
      var init: PhpArray<int, ServiceValues> := values[..|values| - 1];
      var last := values[|values| - 1];
      assert values == init + [last];
      CheckedIdsMembers(init);
    }
  }

  lemma {:induction false} SavedServicesEntries(values: PhpArray<int, ServiceValues>)
    ensures forall p :: p in SavedServices(values) ==>
              && p.val.id == p.key
              && exists q :: q in values && q.key == p.key && Truthy(q.val.status)
                             && p.val.additionalServices == AdditionalFrom(q.val)
  {
    if |values| > 0 {
      var init: PhpArray<int, ServiceValues> := values[..|values| - 1];
      var last := values[|values| - 1];
      assert values == init + [last];
      SavedServicesEntries(init);
      var prev := SavedServices(init);
      if Truthy(last.val.status) {
        AssignPairs(prev, last.key, SelectedService(last.key, AdditionalFrom(last.val)));
      }
    }
  }

  /**
   * `submitForm`: builds `dynamic_services` from the checked services and
   * stores it in the plugin configuration, replacing the old value and
   * leaving every other configuration key as it was.
   */
  method SubmitForm(values: Option<PhpArray<int, ServiceValues>>, configuration: Configuration)
    returns (updated: Configuration)
    ensures updated.Keys == configuration.Keys + {"dynamic_services"}
    ensures forall k :: k in configuration && k != "dynamic_services" ==> updated[k] == configuration[k]
    ensures DynamicServicesOf(updated) == SavedServices(values.GetOr([]))
  {
    var submitted := values.GetOr([]);
    var services: PhpArray<int, SelectedService> := [];
    var i := 0;
    while i < |submitted|
      invariant 0 <= i <= |submitted|
      invariant services == SavedServices(submitted[..i])
    {
      var id := submitted[i].key;
      var service := submitted[i].val;
      PrefixStep(submitted, i);
      if Truthy(service.status) {
        var additional := if service.addServiceList.Some? then ArrayFilter(service.addServiceList.value) else [];
        services := Assign(services, id, SelectedService(id, additional));
      }
      i := i + 1;
    }
    WholePrefix(submitted);
    updated := configuration["dynamic_services" := DynamicServicesValue(services)];
  }

  // ---------------------------------------------------------------------------
  // validateForm
  // ---------------------------------------------------------------------------

  datatype Plugin = RussianPostPlugin(configuration: Configuration) | OtherPlugin

  datatype ShippingMethod = ShippingMethod(id: int, plugin: Plugin)

  /** What the form state holds under `commerce_shipping_method`. */
  datatype Stored = NothingStored | StoredMethod(shippingMethod: ShippingMethod) | StoredOther

  /** `validateForm`: one error when the form state holds no shipping method. */
  function ValidateForm(stored: Stored): (errors: seq<string>)
    ensures errors == [] <==> stored.StoredMethod?
    ensures |errors| <= 1
  {
    match stored
    case StoredMethod(_) => []
    case _ => ["Not defined shipping method."]
  }

  // ---------------------------------------------------------------------------
  // buildForm
  // ---------------------------------------------------------------------------

  /** The assignments of the add-on loop: each add-on's name under its id. */
  function OptionPairs(list: seq<AddOn>): (ps: seq<Pair<int, string>>)
    ensures |ps| == |list|
    ensures forall i :: 0 <= i < |list| ==> ps[i] == Pair(list[i].id, list[i].name)
  {
    seq(|list|, i requires 0 <= i < |list| => Pair(list[i].id, list[i].name))
  }

  /** The option list `[add-on id => name]` of one service's add-on checkboxes. */
  function AddOnOptions(list: seq<AddOn>): PhpArray<int, string> {
    FromPairs(OptionPairs(list))
  }

  /**
   * Every add-on id is an option, every option comes from an add-on, and there
   * are options exactly when the service has add-ons.
   */
  lemma AddOnOptionsKeys(list: seq<AddOn>)
    ensures AddOnOptions(list) == [] <==> |list| == 0
    ensures forall x :: x in list ==> HasKey(AddOnOptions(list), x.id)
    ensures forall k :: HasKey(AddOnOptions(list), k) ==> exists x :: x in list && x.id == k
  {
    var ps := OptionPairs(list);
    FromPairsKeys(ps);
    forall x | x in list
      ensures HasKey(AddOnOptions(list), x.id)
    {
      var i :| 0 <= i < |list| && list[i] == x;
      assert ps[i].key == x.id;
    }
    forall k | HasKey(AddOnOptions(list), k)
      ensures exists x :: x in list && x.id == k
    {
      var i :| 0 <= i < |ps| && ps[i].key == k;
      assert list[i] in list;
    }
    if |list| > 0 {
      assert HasKey(AddOnOptions(list), list[0].id);
    }
  }

  /** The last add-on with a given id names its option. */
  lemma AddOnOptionsNames(list: seq<AddOn>, i: int)
    requires 0 <= i < |list|
    requires forall j :: i < j < |list| ==> list[j].id != list[i].id
    ensures Get(AddOnOptions(list), list[i].id) == Some(list[i].name)
  {
    FromPairsLast(OptionPairs(list), i);
  }

  /** The checkbox of one service, with its add-on checkboxes when it has add-ons. */
  datatype ServiceWidget = ServiceWidget(serviceId: int, title: string, checked: bool, addOnOptions: Option<PhpArray<int, string>>)

  /** One subcategory's details element: its service containers keyed by service id. */
  datatype SubcategoryPane = SubcategoryPane(id: int, title: string, description: string, open: bool, widgets: PhpArray<int, ServiceWidget>)

  /** One category's details element: its subcategory panes keyed by subcategory id. */
  datatype CategoryPane = CategoryPane(id: int, title: string, subcategories: PhpArray<int, SubcategoryPane>)

  /** The rendered form: an error when the method is not a Russian Post one, otherwise the panes keyed by category id. */
  datatype Form = NotSupported | ServicePicker(categories: PhpArray<int, CategoryPane>)

  function Widget(selected: DynamicServices, s: Service): ServiceWidget {
    var options := AddOnOptions(AddOns(s));
    ServiceWidget(s.id, s.name, HasKey(selected, s.id), if options == [] then None else Some(options))
  }

  /** The assignments of the item loop: each service's container under its id. */
  function WidgetPairs(selected: DynamicServices, items: seq<Service>): (ps: seq<Pair<int, ServiceWidget>>)
    ensures |ps| == |items|
    ensures forall i :: 0 <= i < |items| ==> ps[i] == Pair(items[i].id, Widget(selected, items[i]))
  {
    seq(|items|, i requires 0 <= i < |items| => Pair(items[i].id, Widget(selected, items[i])))
  }

  /**
   * A subcategory pane as the item loop leaves it: each service's container is
   * assigned under its id, and the pane is opened by any selected service.
   */
  function SubPane(selected: DynamicServices, sub: Subcategory): SubcategoryPane {
    var items := Items(sub);
    var open := exists i :: 0 <= i < |items| && HasKey(selected, items[i].id);
    SubcategoryPane(sub.id, sub.name, sub.description, open, FromPairs(WidgetPairs(selected, items)))
  }

  /** The assignments of the subcategory loop: each subcategory's pane under its id. */
  function SubPairs(selected: DynamicServices, subs: seq<Subcategory>): (ps: seq<Pair<int, SubcategoryPane>>)
    ensures |ps| == |subs|
    ensures forall i :: 0 <= i < |subs| ==> ps[i] == Pair(subs[i].id, SubPane(selected, subs[i]))
  {
    seq(|subs|, i requires 0 <= i < |subs| => Pair(subs[i].id, SubPane(selected, subs[i])))
  }

  /** A category pane: each subcategory's pane is assigned under its id, replacing an earlier one with that id. */
  function CatPane(selected: DynamicServices, c: Category): CategoryPane {
    CategoryPane(c.id, c.name, FromPairs(SubPairs(selected, Subcategories(c))))
  }

  /** The assignments of the category loop: each category's pane under its id. */
  function CatPairs(selected: DynamicServices, cats: seq<Category>): (ps: seq<Pair<int, CategoryPane>>)
    ensures |ps| == |cats|
    ensures forall i :: 0 <= i < |cats| ==> ps[i] == Pair(cats[i].id, CatPane(selected, cats[i]))
  {
    seq(|cats|, i requires 0 <= i < |cats| => Pair(cats[i].id, CatPane(selected, cats[i])))
  }

  /** The picker's panes: each category's pane is assigned under its id, replacing an earlier one with that id. */
  function CatPanes(selected: DynamicServices, cats: seq<Category>): PhpArray<int, CategoryPane> {
    FromPairs(CatPairs(selected, cats))
  }

  /** No later entry of `cats` shares the id of entry `i`. */
  predicate LastWithId(cats: seq<Category>, i: int)
    requires 0 <= i < |cats|
  {
    forall j :: i < j < |cats| ==> cats[j].id != cats[i].id
  }

  /**
   * There is a pane for exactly the category ids of the catalog, and the pane
   * under an id is the one of the last category with that id.
   */
  lemma CatPanesKeyed(selected: DynamicServices, cats: seq<Category>)
    ensures forall k :: HasKey(CatPanes(selected, cats), k) <==> exists i :: 0 <= i < |cats| && cats[i].id == k
    ensures forall i :: 0 <= i < |cats| && LastWithId(cats, i) ==> Get(CatPanes(selected, cats), cats[i].id) == Some(CatPane(selected, cats[i]))
  {
    CatPanesKeys(selected, cats);
    forall i | 0 <= i < |cats| && LastWithId(cats, i)
      ensures Get(CatPanes(selected, cats), cats[i].id) == Some(CatPane(selected, cats[i]))
    {
      FromPairsLast(CatPairs(selected, cats), i);
    }
  }

  lemma CatPanesKeys(selected: DynamicServices, cats: seq<Category>)
    ensures forall k :: HasKey(CatPanes(selected, cats), k) <==> exists i :: 0 <= i < |cats| && cats[i].id == k
  {
    var ps := CatPairs(selected, cats);
    FromPairsKeys(ps);
    forall k
      ensures Assigns(ps, k) <==> exists i :: 0 <= i < |cats| && cats[i].id == k
    {
      if exists i :: 0 <= i < |cats| && cats[i].id == k {
        var i :| 0 <= i < |cats| && cats[i].id == k;
        assert ps[i].key == k;
      }
    }
  }

  /** When the category ids are distinct, there is one pane per category, in catalog order. */
  lemma CatPanesDistinct(selected: DynamicServices, cats: seq<Category>)
    requires forall i, j :: 0 <= i < j < |cats| ==> cats[i].id != cats[j].id
    ensures |CatPanes(selected, cats)| == |cats|
    ensures forall i :: 0 <= i < |cats| ==> CatPanes(selected, cats)[i] == Pair(cats[i].id, CatPane(selected, cats[i]))
  {
    FromPairsDistinct(CatPairs(selected, cats));
  }

  datatype Built = Built(form: Form, stored: Stored, cache: Cache)

  /**
   * `buildForm`: a method whose plugin is not Russian Post gets the error form
   * and nothing else happens; otherwise the method is put in the form state and
   * the catalog, read once through the cache, is rendered as one pane per
   * category id, the last category with an id supplying its pane.
   */
  function BuildForm(m: ShippingMethod, stored: Stored, cache: Cache, source: CategorySource): (r: Built)
    ensures !m.plugin.RussianPostPlugin? ==> r == Built(NotSupported, stored, cache)
    ensures m.plugin.RussianPostPlugin? ==>
              var f := GetCategoryList(cache, source, DefaultExclude);
              var selected := DynamicServicesOf(m.plugin.configuration);
              && r.stored == StoredMethod(m)
              && r.cache == f.cache
              && r.form.ServicePicker?
              && (forall k :: HasKey(r.form.categories, k) <==> exists i :: 0 <= i < |f.data| && f.data[i].id == k)
              && (forall i :: 0 <= i < |f.data| && LastWithId(f.data, i) ==>
                    Get(r.form.categories, f.data[i].id) == Some(CatPane(selected, f.data[i])))
  {
    match m.plugin
    case OtherPlugin => Built(NotSupported, stored, cache)
    case RussianPostPlugin(config) =>
      var f := GetCategoryList(cache, source, DefaultExclude);
      var selected := DynamicServicesOf(config);
      CatPanesKeyed(selected, f.data);
      Built(ServicePicker(CatPanes(selected, f.data)), StoredMethod(m), f.cache)
  }

  /**
   * In the pane of a subcategory that is the last with its id, the container
   * of a service that is the last with its id shows that service: checked
   * exactly when its id is a key of the stored `dynamic_services`, opening the
   * pane when checked; the pane is open exactly when one of its services is
   * checked; the add-on element exists exactly when the service has add-ons,
   * and then offers every add-on id.
   */
  lemma PickerDefaults(selected: DynamicServices, c: Category, si: int, wi: int)
    requires 0 <= si < |Subcategories(c)|
    requires forall j :: si < j < |Subcategories(c)| ==> Subcategories(c)[j].id != Subcategories(c)[si].id
    requires 0 <= wi < |Items(Subcategories(c)[si])|
    requires forall j :: wi < j < |Items(Subcategories(c)[si])| ==> Items(Subcategories(c)[si])[j].id != Items(Subcategories(c)[si])[wi].id
    ensures var sub := Subcategories(c)[si];
            var s := Items(sub)[wi];
            var pane := Get(CatPane(selected, c).subcategories, sub.id);
            && pane.Some?
            && pane.value.id == sub.id
            && Get(pane.value.widgets, s.id).Some?
            && var w := Get(pane.value.widgets, s.id).value;
            && w.serviceId == s.id && w.title == s.name
            && (w.checked <==> HasKey(selected, s.id))
            && (w.checked ==> pane.value.open)
            && (pane.value.open <==> exists s' :: s' in Items(sub) && HasKey(selected, s'.id))
            && (w.addOnOptions.Some? <==> |AddOns(s)| > 0)
            && (w.addOnOptions.Some? ==> forall x :: x in AddOns(s) ==> HasKey(w.addOnOptions.value, x.id))
  {
    var sub := Subcategories(c)[si];
    SubPaneUnder(selected, Subcategories(c), si);
    WidgetUnder(selected, Items(sub), wi);
    PaneOpen(selected, sub);
  }

  /** The last subcategory with an id supplies the pane under that id. */
  lemma SubPaneUnder(selected: DynamicServices, subs: seq<Subcategory>, si: int)
    requires 0 <= si < |subs|
    requires forall j :: si < j < |subs| ==> subs[j].id != subs[si].id
    ensures Get(FromPairs(SubPairs(selected, subs)), subs[si].id) == Some(SubPane(selected, subs[si]))
  {
    FromPairsLast(SubPairs(selected, subs), si);
  }

  /** The last service with an id supplies the container under that id, with its add-on options. */
  lemma WidgetUnder(selected: DynamicServices, items: seq<Service>, wi: int)
    requires 0 <= wi < |items|
    requires forall j :: wi < j < |items| ==> items[j].id != items[wi].id
    ensures Get(FromPairs(WidgetPairs(selected, items)), items[wi].id) == Some(Widget(selected, items[wi]))
    ensures Widget(selected, items[wi]).addOnOptions.Some? <==> |AddOns(items[wi])| > 0
    ensures Widget(selected, items[wi]).addOnOptions.Some? ==>
              forall x :: x in AddOns(items[wi]) ==> HasKey(Widget(selected, items[wi]).addOnOptions.value, x.id)
  {
    FromPairsLast(WidgetPairs(selected, items), wi);
    AddOnOptionsKeys(AddOns(items[wi]));
  }

  /** A subcategory pane is open exactly when one of its services is selected. */
  lemma PaneOpen(selected: DynamicServices, sub: Subcategory)
    ensures SubPane(selected, sub).open <==> exists s :: s in Items(sub) && HasKey(selected, s.id)
  {
    var items := Items(sub);
    if exists s :: s in items && HasKey(selected, s.id) {
      var s :| s in items && HasKey(selected, s.id);
      var k :| 0 <= k < |items| && items[k] == s;
      assert HasKey(selected, items[k].id);
    }
  }

  /** After the picker is built for a Russian Post method, validation reports nothing. */
  lemma BuiltFormValidates(m: ShippingMethod, stored: Stored, cache: Cache, source: CategorySource)
    requires m.plugin.RussianPostPlugin?
    ensures ValidateForm(BuildForm(m, stored, cache, source).stored) == []
  {
  }
}
