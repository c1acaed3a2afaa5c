/**
 * The Russian Post service catalog as the category-list library returns it:
 * categories hold subcategories, subcategories hold services, services may
 * carry a list of add-on services. A list key the library leaves out
 * (`subcategory_list`, `items`, `service_list`) is read as empty.
 */
module Catalog {
  import opened Wrappers

  datatype AddOn = AddOn(id: int, name: string)

  /** A value stored in a PHP service array. */
  datatype Value = Int(i: int) | Text(s: string) | AddOnList(items: seq<AddOn>)

  /** A PHP associative array with string keys. */
  type Record = map<string, Value>

  /**
   * A service: its id, name and optional add-on list, plus every other key
   * the library puts in the service's array (`attrs`).
   */
  datatype Service = Service(id: int, name: string, serviceList: Option<seq<AddOn>>, attrs: Record)

  datatype Subcategory = Subcategory(id: int, name: string, description: string, items: Option<seq<Service>>)

  datatype Category = Category(id: int, name: string, subcategoryList: Option<seq<Subcategory>>)

  /** The category list, in the order the library returns it. */
  type Tree = seq<Category>

  function AddOns(s: Service): seq<AddOn> {
    s.serviceList.GetOr([])
  }

  function Subcategories(c: Category): seq<Subcategory> {
    c.subcategoryList.GetOr([])
  }

  function Items(s: Subcategory): seq<Service> {
    s.items.GetOr([])
  }

  /** The service's own PHP array: `attrs` together with its `id`, `name` and, when present, `service_list`. */
  function Fields(s: Service): (r: Record)
    ensures "id" in r && r["id"] == Int(s.id)
    ensures "name" in r && r["name"] == Text(s.name)
    ensures "service_list" in r <==> s.serviceList.Some?
    ensures s.serviceList.Some? ==> r["service_list"] == AddOnList(s.serviceList.value)
  {
    var own := s.attrs - {"id", "name", "service_list"};
    var typed := map["id" := Int(s.id), "name" := Text(s.name)];
    match s.serviceList
    case Some(l) => own + typed["service_list" := AddOnList(l)]
    case None => own + typed
  }

  /** A service together with the category and subcategory it is listed under. */
  datatype Located = Located(category: Category, sub: Subcategory, service: Service)

  /**
   * The found service's array extended with its category name, subcategory name
   * and subcategory description. PHP's array `+` keeps the left operand's entry
   * on a shared key, so the service's own keys win.
   */
  function Enrich(l: Located): (r: Record)
    ensures r.Keys == Fields(l.service).Keys + {"category", "sub_category_name", "sub_category_description"}
    ensures forall k :: k in Fields(l.service) ==> r[k] == Fields(l.service)[k]
    ensures "category" !in Fields(l.service) ==> r["category"] == Text(l.category.name)
    ensures "sub_category_name" !in Fields(l.service) ==> r["sub_category_name"] == Text(l.sub.name)
    ensures "sub_category_description" !in Fields(l.service) ==> r["sub_category_description"] == Text(l.sub.description)
  {
    var added := map[
      "category" := Text(l.category.name),
      "sub_category_name" := Text(l.sub.name),
      "sub_category_description" := Text(l.sub.description)];
    added + Fields(l.service)
  }

  // ---------------------------------------------------------------------------
  // Reference view: the tree flattened into one list of located services.
  // ---------------------------------------------------------------------------

  function FlattenItems(c: Category, s: Subcategory, items: seq<Service>): seq<Located> {
    if |items| == 0 then [] else [Located(c, s, items[0])] + FlattenItems(c, s, items[1..])
  }

  function FlattenSubs(c: Category, subs: seq<Subcategory>): seq<Located> {
    if |subs| == 0 then [] else FlattenItems(c, subs[0], Items(subs[0])) + FlattenSubs(c, subs[1..])
  }

  /** Every service of the tree, category by category, subcategory by subcategory, in listing order. */
  function Flatten(t: Tree): seq<Located> {
    if |t| == 0 then [] else FlattenSubs(t[0], Subcategories(t[0])) + Flatten(t[1..])
  }

  /** Some service anywhere in the tree has id `id`. */
  predicate Listed(t: Tree, id: int) {
    exists l :: l in Flatten(t) && l.service.id == id
  }

  /** Position `i` holds the first service with id `id`. */
  predicate FirstMatchAt(ls: seq<Located>, id: int, i: int) {
    && 0 <= i < |ls|
    && ls[i].service.id == id
    && forall j :: 0 <= j < i ==> ls[j].service.id != id
  }

  /** The first entry of a flat list whose service has id `id`. */
  function FindFirst(ls: seq<Located>, id: int): (r: Option<Located>)
    ensures r.None? <==> forall l :: l in ls ==> l.service.id != id
    ensures r.Some? ==> exists i :: FirstMatchAt(ls, id, i) && ls[i] == r.value
  {
    if |ls| == 0 then None
    else if ls[0].service.id == id then
      assert FirstMatchAt(ls, id, 0);
      Some(ls[0])
    else
      var r := FindFirst(ls[1..], id);
      assert forall l :: l in ls ==> l == ls[0] || l in ls[1..];
      if r.Some? then
        var i :| FirstMatchAt(ls[1..], id, i) && ls[1..][i] == r.value;
        assert FirstMatchAt(ls, id, i + 1);
        r
      else
        r
  }

  lemma {:induction false} FindFirstAppend(a: seq<Located>, b: seq<Located>, id: int)
    ensures FindFirst(a + b, id) == if FindFirst(a, id).Some? then FindFirst(a, id) else FindFirst(b, id)
  {
    if |a| == 0 {
      assert a + b == b;
    } else {
      assert (a + b)[0] == a[0];
      assert (a + b)[1..] == a[1..] + b;
      FindFirstAppend(a[1..], b, id);
    }
  }

  // ---------------------------------------------------------------------------
  // The search as the plugin writes it: three nested loops with an early return.
  // ---------------------------------------------------------------------------

  function SearchItems(c: Category, s: Subcategory, items: seq<Service>, id: int): Option<Located> {
    if |items| == 0 then None
    else if items[0].id == id then Some(Located(c, s, items[0]))
    else SearchItems(c, s, items[1..], id)
  }

  function SearchSubs(c: Category, subs: seq<Subcategory>, id: int): Option<Located> {
    if |subs| == 0 then None
    else
      match SearchItems(c, subs[0], Items(subs[0]), id)
      case Some(l) => Some(l)
      case None => SearchSubs(c, subs[1..], id)
  }

  function SearchTree(t: Tree, id: int): Option<Located> {
    if |t| == 0 then None
    else
      match SearchSubs(t[0], Subcategories(t[0]), id)
      case Some(l) => Some(l)
      case None => SearchTree(t[1..], id)
  }

  lemma {:induction false} SearchItemsIsFirstMatch(c: Category, s: Subcategory, items: seq<Service>, id: int)
    ensures SearchItems(c, s, items, id) == FindFirst(FlattenItems(c, s, items), id)
  {
    if |items| > 0 {
      SearchItemsIsFirstMatch(c, s, items[1..], id);
    }
  }

  lemma {:induction false} SearchSubsIsFirstMatch(c: Category, subs: seq<Subcategory>, id: int)
    ensures SearchSubs(c, subs, id) == FindFirst(FlattenSubs(c, subs), id)
  {
    if |subs| > 0 {
      SearchItemsIsFirstMatch(c, subs[0], Items(subs[0]), id);
      SearchSubsIsFirstMatch(c, subs[1..], id);
      FindFirstAppend(FlattenItems(c, subs[0], Items(subs[0])), FlattenSubs(c, subs[1..]), id);
    }
  }

  /** The nested search finds exactly the first service with that id in listing order. */
  lemma {:induction false} SearchTreeIsFirstMatch(t: Tree, id: int)
    ensures SearchTree(t, id) == FindFirst(Flatten(t), id)
  {
    if |t| > 0 {
      SearchSubsIsFirstMatch(t[0], Subcategories(t[0]), id);
      SearchTreeIsFirstMatch(t[1..], id);
      FindFirstAppend(FlattenSubs(t[0], Subcategories(t[0])), Flatten(t[1..]), id);
    }
  }

  /**
   * `getServiceDataById` over a given category list: the first service with
   * that id, enriched with its category and subcategory, or the empty array.
   */
  function ServiceData(t: Tree, id: int): (r: Record)
    ensures r == map[] <==> !Listed(t, id)
    ensures r != map[] ==> exists i :: FirstMatchAt(Flatten(t), id, i) && r == Enrich(Flatten(t)[i])
    ensures r != map[] ==> "id" in r && r["id"] == Int(id)
  {
    SearchTreeIsFirstMatch(t, id);
    match SearchTree(t, id)
    case Some(l) =>
      assert "id" in Enrich(l);
      Enrich(l)
    case None => map[]
  }

  /**
   * The located service behind a non-empty `ServiceData` result: the first
   * entry with that id in catalog order.
   */
  function Found(t: Tree, id: int): (l: Located)
    requires Listed(t, id)
    ensures l in Flatten(t) && l.service.id == id
    ensures exists i :: FirstMatchAt(Flatten(t), id, i) && Flatten(t)[i] == l
  {
    SearchTreeIsFirstMatch(t, id);
    SearchTree(t, id).value
  }

  /** A non-empty `ServiceData` result is the enriched array of the service `Found` names. */
  lemma FoundData(t: Tree, id: int)
    ensures Listed(t, id) ==> ServiceData(t, id) == Enrich(Found(t, id))
  {
    SearchTreeIsFirstMatch(t, id);
  }
}
