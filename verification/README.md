# Russian Post shipping for Drupal Commerce — a Dafny model

This project models the logic layer of a Drupal Commerce shipping-method plugin.
The plugin prices shipments with the Russian Post tariff library. Under the
form and render-array glue there are five pieces of logic, and each one is
modelled here as pure functions and short methods over immutable data:

- **Read-through catalog cache** (`RussianPostManager::getCategoryList`). The
  cache is a map from cache id to category list. The cache id is
  `russian_post_category:` followed by the JSON of the exclusion list. That list
  is not sorted, so a reordered list gets its own entry. A hit returns the
  stored list. A miss asks the category-list library, stores the answer under
  the id and returns it.
- **Catalog lookup** (`getServiceDataById`). It searches categories, then
  subcategories, then services in order, and takes the first service whose id
  matches. It returns the service's own array extended with `category`,
  `sub_category_name` and `sub_category_description`, where the service's own
  keys win. When nothing matches it returns the empty array.
- **Service registration** (`create`). It walks the keys of `dynamic_services`.
  Ids the catalog lists are kept as `services`, in configuration order, and a
  shipping service is registered for each. Every other id gets one
  "Not found" error.
- **Rate loop** (`calculateRates`). It returns nothing without an address field
  or without shipment items. Otherwise it makes one tariff call per configured
  service, with fixed weight 20, origin 109012, destination 664000 and
  package 10; only `sumoc` is the declared value. A service whose call throws
  is skipped and adds one error message. The other rates keep configuration
  order and use the declared value's currency.
- **Selection transforms.** `buildConfigurationForm` builds each service's
  add-on description. `submitForm` turns the form values into
  `dynamic_services`. `buildForm` derives the checkbox defaults and add-on
  options. It assigns each category, subcategory and service element under
  its id, so an element with a repeated id replaces the earlier one in place. `validateForm` checks that the form state holds a shipping method.

The two external libraries are parameters of the model. The category-list
library is a function from exclusion list to category list
(`RussianPostManager.CategorySource`). The tariff library is a function from
service id, request parameters and add-on selection to either a price or a
`RussianPostError` (`RussianPost.TariffCalculation`). Every caller of
`getCategoryList` threads the cache state explicitly, so the model shows that
all lookups in one walk read the same category list.

Files: `wrappers.dfy` (Option), `seqs.dfy` (slicing facts), `php_arrays.dfy` (PHP ordered arrays and
`$a[$k] = $v`), `json.dfy` (integer-list JSON encoding and its injectivity),
`catalog.dfy` (catalog tree, enrichment, first-match search),
`russian_post_manager.dfy` (cache), `russian_post.dfy` (the plugin) and
`add_service.dfy` (the picker form).

The cache key uses the exclusion list as given (unsorted). The tariff request
uses fixed weight, origin, destination and package values.

## Model

| member | source | states |
|---|---|---|
| `Json.EncodeIntsInjective` | src/RussianPostManager.php:45 | Two integer lists have the same JSON encoding iff they are the same list, so the order of the codes matters. |
| `RussianPostManager.GetCategoryList` | src/RussianPostManager.php:44-55 | Afterwards the computed key holds exactly the returned data. A hit returns the stored data, leaves the cache unchanged and does not call the library. A miss calls the library with the caller's list and returns its answer. Only the computed key is written; every other entry is unchanged. |
| `RussianPostManager.CacheKeyInjective` | src/RussianPostManager.php:45 | Two exclusion lists share a cache id iff they are equal lists. |
| `RussianPostManager.DefaultCacheKey` | src/RussianPostManager.php:44-45 | The default list [400, 700, 800] is keyed `russian_post_category:[400,700,800]`, and the reordering [700, 400, 800] gets a different key. |
| `RussianPostManager.SecondCallHits` | src/RussianPostManager.php:45-54 | A second call with the same list returns the first call's data, leaves the cache as the first call left it, and makes no library call. |
| `RussianPostManager.CoherentCacheIsTransparent` | src/RussianPostManager.php:44-55 | Suppose every entry holds the library's answer for the list it is keyed by. Then a call returns exactly what the library returns for the caller's list, and every entry afterwards still holds the library's answer for its list. |
| `Catalog.Enrich` | src/Plugin/Commerce/ShippingMethod/RussianPost.php:189-193 | The result has all of the service's own keys plus `category`, `sub_category_name` and `sub_category_description`. The service's own values are unchanged. Each added key carries the category or subcategory text only when the service does not already have that key. |
| `Catalog.FindFirst` | src/Plugin/Commerce/ShippingMethod/RussianPost.php:185-198 | Over the flattened catalog: absent iff no entry has the id; otherwise the entry at the first position holding the id. |
| `Catalog.SearchTreeIsFirstMatch` | src/Plugin/Commerce/ShippingMethod/RussianPost.php:185-198 | The nested loop over categories, subcategories and items finds the same service as a first-match search over the flattened catalog. |
| `Catalog.ServiceData` | src/Plugin/Commerce/ShippingMethod/RussianPost.php:184-199 | The result is empty iff no service in the tree has the id. A missing `subcategory_list` or `items` counts as empty. Otherwise the result is the enriched array of the first matching service, and its `id` entry is the requested id. |
| `Catalog.Found` | src/Plugin/Commerce/ShippingMethod/RussianPost.php:185-189 | For a listed id, names the first catalog entry, in category, subcategory and item order, whose service has that id. |
| `Catalog.FoundData` | src/Plugin/Commerce/ShippingMethod/RussianPost.php:189-193 | For a listed id, the lookup result is the enriched array of the service `Found` names. |
| `RussianPost.GetServiceDataById` | src/Plugin/Commerce/ShippingMethod/RussianPost.php:185 | The lookup reads the category list through the cache with the default exclusion list. The cache afterwards is the one that read leaves. The data is empty iff that list has no service with the id, and is otherwise the enriched first match. |
| `RussianPost.LookupsShareCatalog` | src/Plugin/Commerce/ShippingMethod/RussianPost.php:185 | Once the first lookup has filled the cache, every later lookup in the same walk reads the same category list and leaves the cache unchanged. |
| `RussianPost.Create` | src/Plugin/Commerce/ShippingMethod/RussianPost.php:38-54 | `services` is set to the configured ids the catalog lists, in configuration order. Every other configuration key is unchanged. The registered shipping services and the "Not found" messages are those of the walk against the catalog that the first lookup reads. The cache is untouched when nothing is configured. |
| `RussianPost.RegistrationSplit` | src/Plugin/Commerce/ShippingMethod/RussianPost.php:42-50 | An id is kept iff it is configured and listed. There is a "Not found" message for an id iff it is configured and not listed. |
| `RussianPost.RegistrationCount` | src/Plugin/Commerce/ShippingMethod/RussianPost.php:42-51 | Kept ids plus error messages add up to the number of configured ids: each id gives exactly one of the two. |
| `RussianPost.RegisteredServicesSpec` | src/Plugin/Commerce/ShippingMethod/RussianPost.php:50-51 | The registered shipping services are keyed by the kept ids, in order. Each is labelled with the name of its catalog service. |
| `RussianPost.ConfiguredIdsDistinct` | src/Plugin/Commerce/ShippingMethod/RussianPost.php:42 | The ids walked by `create` are keys of a PHP array, so none repeats. |
| `RussianPost.EnrichedName` | src/Plugin/Commerce/ShippingMethod/RussianPost.php:51 | The `name` read from a found service's data is the catalog service's name. |
| `RussianPost.AddOnNamesMembers` | src/Plugin/Commerce/ShippingMethod/RussianPost.php:77-84 | A name is listed iff it belongs to an add-on of the service whose id was selected. The list is empty iff no selected id is among the service's add-ons. |
| `RussianPost.AddOnNamesAppend` | src/Plugin/Commerce/ShippingMethod/RussianPost.php:78-84 | Names come out in selection order: the names for a concatenated selection are the names for each part, concatenated. |
| `RussianPost.UnknownAddOnDropped` | src/Plugin/Commerce/ShippingMethod/RussianPost.php:78-83 | A selected id that is not among the service's add-ons adds nothing. |
| `RussianPost.KnownAddOnNamed` | src/Plugin/Commerce/ShippingMethod/RussianPost.php:79-82 | When add-on ids are distinct, selecting an add-on's id lists exactly that add-on's name. |
| `RussianPost.Describe` | src/Plugin/Commerce/ShippingMethod/RussianPost.php:85-90 | The description is "not selected" iff no selected add-on id is among the service's add-ons. Otherwise it lists the add-on names. |
| `RussianPost.EnrichedAddOns` | src/Plugin/Commerce/ShippingMethod/RussianPost.php:79 | `service_list ?? []` read from a found service's data is that service's add-on list. |
| `RussianPost.DescribedIds` | src/Plugin/Commerce/ShippingMethod/RussianPost.php:72-76 | A description is recorded for an id iff some configured entry has that id and the catalog lists it. |
| `RussianPost.LastEntryDescribes` | src/Plugin/Commerce/ShippingMethod/RussianPost.php:91 | The last configured entry for a listed id decides that id's description. |
| `RussianPost.BuildConfigurationForm` | src/Plugin/Commerce/ShippingMethod/RussianPost.php:68-92 | The walk over `dynamic_services` records the descriptions computed against the catalog that the first lookup reads. The cache is touched only when something is configured. |
| `RussianPost.OutcomeCount` | src/Plugin/Commerce/ShippingMethod/RussianPost.php:153-168 | Rates plus error messages add up to the number of configured services: each service gives exactly one of the two. |
| `RussianPost.QuotesSound` | src/Plugin/Commerce/ShippingMethod/RussianPost.php:155-167 | Every rate carries the shipping method id and the declared value's currency, and is the priced answer for one configured service. Every message is the text of the exception thrown for one configured service. |
| `RussianPost.QuotesAppend` | src/Plugin/Commerce/ShippingMethod/RussianPost.php:145-170 | Rates and messages follow configuration order: for a concatenated list they are those of each part, concatenated. |
| `RussianPost.FailureIsolated` | src/Plugin/Commerce/ShippingMethod/RussianPost.php:153-168 | One service's outcome fills only its own slot. The rates and messages are those of the services before it, its own, and those of the services after it. |
| `RussianPost.QuotesAroundFailure` | src/Plugin/Commerce/ShippingMethod/RussianPost.php:166-168 | A service whose call throws adds no rate. The rates are those of the services before and after it. |
| `RussianPost.SingleFailureKeepsOthers` | src/Plugin/Commerce/ShippingMethod/RussianPost.php:145-170 | When exactly one service's call throws, there is one rate fewer than there are services. All other rates are present, in order. |
| `RussianPost.SingleFailureReportsOnce` | src/Plugin/Commerce/ShippingMethod/RussianPost.php:166-168 | When exactly one service's call throws, exactly one error message is reported. |
| `RussianPost.CalculateRates` | src/Plugin/Commerce/ShippingMethod/RussianPost.php:133-173 | With no address field or no items there are no rates, no calls and no messages. Otherwise there is one tariff call per configured service, in order. Each call gets the service's id, its `additional_services` unchanged and weight 20, `sumoc` = declared number, from 109012, to 664000, pack 10. The rates and messages are those of the successful and the failed calls, in configuration order. |
| `AddService.ArrayFilter` | src/Form/AddService.php:136 | The result keeps exactly the input's non-zero entries, with their keys. |
| `AddService.ArrayFilterSnoc` | src/Form/AddService.php:136 | Filtering an array with one more entry appends that entry iff its value is non-zero. |
| `AddService.ArrayFilterAppend` | src/Form/AddService.php:136 | Filtering two arrays joined end to end gives the two filtered arrays joined end to end, so the kept entries stay in input order. |
| `AddService.ArrayFilterOrder` | src/Form/AddService.php:136 | The kept entries occur in the input in the same relative order. |
| `AddService.ArrayFilterKeepsTruthy` | src/Form/AddService.php:136 | An array with only non-zero values is returned unchanged. |
| `AddService.AdditionalFrom` | src/Form/AddService.php:136 | `additional_services` is empty when no add-on list was submitted. Otherwise it holds exactly the submitted add-on entries that are checked, in submitted order. |
| `AddService.SavedServicesSpec` | src/Form/AddService.php:129-138 | Only services whose `status` is truthy are saved, keyed by their id in form order. Each entry's `id` equals its key. Each entry's add-ons are that service's checked add-on values. |
| `AddService.SubmitForm` | src/Form/AddService.php:128-142 | `dynamic_services` is replaced by the array built from the form values. A missing `services` value counts as empty. Every other configuration key keeps its value. |
| `AddService.ValidateForm` | src/Form/AddService.php:118-123 | There is exactly one error when the form state holds no shipping method, and none otherwise. |
| `AddService.AddOnOptionsKeys` | src/Form/AddService.php:81-98 | Every add-on id is an option and every option comes from an add-on. The option list is empty, so the add-on element is left out, iff the service has no add-ons. |
| `AddService.AddOnOptionsNames` | src/Form/AddService.php:82-84 | The last add-on with a given id names its option. |
| `AddService.BuildForm` | src/Form/AddService.php:42-113 | A method whose plugin is not Russian Post gets the error form, and the form state and cache are unchanged. Otherwise the method is put in the form state and the catalog is read once through the cache. There is a pane under exactly the catalog's category ids. The pane under an id is that of the last category with that id, since a later assignment replaces an earlier one. |
| `AddService.CatPanesKeyed` | src/Form/AddService.php:55-60 | Panes exist under exactly the category ids. The pane under an id is built from the last category with that id. |
| `AddService.CatPanesDistinct` | src/Form/AddService.php:55-60 | When category ids are distinct, there is one pane per category, in catalog order. |
| `AddService.SubPaneUnder` | src/Form/AddService.php:61-66 | The pane under a subcategory id is built from the last subcategory with that id. It replaces an earlier pane, including that pane's `#open` flag. |
| `AddService.WidgetUnder` | src/Form/AddService.php:67-99 | The container under a service id is that of the last service with that id. Its add-on element exists iff the service has add-ons, and then offers every add-on id. |
| `AddService.PickerDefaults` | src/Form/AddService.php:61-99 | Take a subcategory and a service that are each the last with their id. The container under the service id in the pane under the subcategory id shows that service's id and name. It is checked iff the id is a key of the stored `dynamic_services`. A checked service opens its pane, and the pane is open iff one of its services is checked. The add-on element exists iff the service has add-ons, and then offers every add-on id. |
| `AddService.PaneOpen` | src/Form/AddService.php:76-80 | A subcategory pane is open iff one of its services is a key of the stored `dynamic_services`. |
| `AddService.BuiltFormValidates` | src/Form/AddService.php:118-122 | After the picker is built for a Russian Post method, validation reports no error. |

## Left out

- Render arrays, vertical tabs, `#states`, the modal "Edit services" link, the empty `default_pack` select and the hidden JSON `dynamic_services` field (src/Plugin/Commerce/ShippingMethod/RussianPost.php:93-115). These are markup with no behaviour to state. The picker is modelled as nested keyed arrays of panes instead.
- `submitConfigurationForm` (JSON decoding of the hidden field): this is framework serialization.
- Entity save and redirect after submit (src/Form/AddService.php:143-148): this is persistence plumbing.
- The category-list library: it is a total function of the exclusion list. An exception it throws would pass uncaught through every caller; that is not modelled.
- The tariff library's internals: it is a function to a price or a `RussianPostError`.
- Weight conversion (src/Plugin/Commerce/ShippingMethod/RussianPost.php:143): it uses physical units, and the value is never used.
- Decimal and `Price` arithmetic: amounts are opaque decimal strings.
- Cache eviction, expiry and concurrent requests: the model is sequential.
- Add-on checkboxes are never pre-filled. The `#defaul_value` key (src/Form/AddService.php:91) is misspelt, so it has no effect, and the model has no add-on default.
- The base plugin constructor's merge of default configuration. The registered-services map starts empty because the plugin annotation declares no services.
- `ShippingRate`'s own validation (commerce_shipping is not part of this model). `calculateRates` walks `dynamic_services`, not the registered services. So a rate for an id that `create` did not register carries no service (`service` is `None`).
- PHP's loose `==` between ids: ids are integers and compared with integer equality.
- Translation and placeholder rendering: descriptions and messages are kept as data. Examples are the add-on names list and `NotFound(id)`, not translated strings.
- A `buildForm` call without a shipping method (a fatal error in PHP): the model's `BuildForm` always receives one.
