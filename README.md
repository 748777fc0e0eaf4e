# Fabrik web-service core, modelled in Dafny

This project models the core of Fabrik's web-service support, the class
`AbstractWebService` that every concrete driver (SOAP, REST, ...) extends.
It covers four parts:

- **The driver registry (`getInstance`).**
  - It normalises the options: the `driver` name is stripped to
    `[A-Za-z0-9_.-]` and defaults to `soap`, and `endpoint` defaults to null.
  - It uses the normalised options as the signature of a process-wide cache.
  - On a miss, it derives the driver class name, builds the object and caches
    it.
  - An unknown class is an error, and so is a constructor that throws.
    Neither leaves anything in the cache.
- **The field mapper (`setMap`, `map`).**
  - Each external record becomes one local row.
  - The configured rules run in declared order.
  - A rule with no `match` copies its resolved `from` template.
  - A literal rule writes its `value` when `match` equals the resolved
    template.
  - An `eval` rule writes what its code returns, unless that is `false`.
- **Local storage (`storeLocally`).**
  - The batch is mapped first. The local table's ids are read once, keyed by
    the foreign-key column.
  - Each row has its fields converted, then is matched on its foreign-key
    value.
  - A matched row is skipped when updates are off. Otherwise the row is
    counted as added or updated and stored with its primary key, which is ""
    for a new row.
- **Filter values (`getFilterValue`).** This is the per-type conversion of a
  filter value.

Modules:

- `Php` has PHP's scalar values, casts, loose emptiness, ordered arrays,
  `preg_replace` sanitising and `ucfirst`.
- `FieldMap` has the rules and the mapping as functions.
- `Reconcile` has the insert-or-update classification as functions, with
  lemmas about the counters.
- `WebServices` has the classes `WebService` and `ListModel`, whose methods
  `SetMap` and `StoreLocally` update their fields in place; the loops of `Map`
  and `StoreLocally` are proved equal to the functions `MapAll` and `Plan`.
- `Registry` has the class `Registry`, whose `GetInstance` updates the cache.
- `FilterValue` has `getFilterValue`.

Foreign code becomes parameters:

- The placeholder substitution and PHP `eval` form the `Host` record.
- The element's `fromXMLFormat` is `ListModel.convert`.
- The ids read from the table are the `ids` map.
- The date library is `isoDate`.

The registry does not sort option keys before computing the signature.
`serialize` keeps key order, so two option arrays that differ only in key
order get two different cache entries: the signature depends on key order.
`Registry.KeyOrderSeparatesSignatures` proves this for any two option arrays
of one length whose keys come in a different order.

## Model

| member | source | states |
|---|---|---|
| Php.Sanitize | components/com_fabrik/src/WebService/AbstractWebService.php:77 | the sanitised driver contains only `[A-Za-z0-9_.-]`; it keeps every allowed character and adds none; it is no longer than the input; a name that is already clean is unchanged; a single character is kept exactly when it is allowed |
| Php.SanitizeConcat | components/com_fabrik/src/WebService/AbstractWebService.php:77 | sanitising a concatenation concatenates the sanitised parts, so the allowed characters keep their order and their number |
| Php.UcFirst | components/com_fabrik/src/WebService/AbstractWebService.php:87 | for ASCII input (every driver name is ASCII): same length; only the first character can change; a lower-case first letter becomes its own capital; anything else is unchanged |
| Php.Put | components/com_fabrik/src/WebService/AbstractWebService.php:77-78 | PHP array assignment: the key then holds the new value, every other key is unaffected, an existing key keeps its position and a new key goes last |
| Php.PutSame | components/com_fabrik/src/WebService/AbstractWebService.php:77-78 | assigning a key the value it already holds leaves the array (order included) unchanged |
| Registry.DriverName | components/com_fabrik/src/WebService/AbstractWebService.php:77 | the driver is always a sanitised name: the given driver, as text, with disallowed characters removed when it is set, and `soap` when the option is unset or null |
| Registry.NormalizeOptions | components/com_fabrik/src/WebService/AbstractWebService.php:77-81 | the signature carries the sanitised driver and the endpoint (null when unset); every other option is kept; the original keys keep their order, followed by `driver` and then `endpoint` when they were missing, and nothing else |
| Registry.NormalizeIdempotent | components/com_fabrik/src/WebService/AbstractWebService.php:77-81 | normalising normalised options changes nothing, so an object's own options map back to its own signature |
| Registry.DefaultDriverSharesSignature | components/com_fabrik/src/WebService/AbstractWebService.php:77-81 | options without a driver and options naming `soap` get the same signature |
| Registry.KeyOrderSeparatesSignatures | components/com_fabrik/src/WebService/AbstractWebService.php:81 | any two option arrays of one length whose keys come in a different order get different signatures |
| Registry.Registry.GetInstance | components/com_fabrik/src/WebService/AbstractWebService.php:74-109 | a cache hit returns the cached object and changes nothing; an unknown class or a throwing constructor gives the matching error and leaves the cache alone; otherwise a new object built with the normalised options is returned and cached under their signature; every cached object was built with its key's options |
| Registry.GetInstanceTwice | components/com_fabrik/src/WebService/AbstractWebService.php:84-108 | a success is returned again as the same cached object; a failure caches nothing, and because constructors are modelled as functions of the options, the retry fails the same way |
| WebServices.WebService.SetMap | components/com_fabrik/src/WebService/AbstractWebService.php:121-141 | the field map becomes the given rules |
| FieldMap.ApplyRule | components/com_fabrik/src/WebService/AbstractWebService.php:164-189 | one rule changes only its target key: a rule without `match` writes the resolved template; a literal rule writes `value` exactly when `match` equals the resolved template; an eval rule writes what its code returns, and nothing when that is false |
| FieldMap.MapAll | components/com_fabrik/src/WebService/AbstractWebService.php:158-195 | one row per record, in order, each built from its own record by all the rules |
| FieldMap.WrittenKeys | components/com_fabrik/src/WebService/AbstractWebService.php:160-190 | a key is in a mapped row exactly when some rule writes it for that record |
| FieldMap.LastWriteWins | components/com_fabrik/src/WebService/AbstractWebService.php:162-190 | a key holds what the last rule that writes it wrote |
| FieldMap.LaterRuleOverrides | components/com_fabrik/src/WebService/AbstractWebService.php:162-190 | a rule that writes its target decides it, whatever the rules before it wrote there, when no rule after it writes that target |
| WebServices.WebService.Map | components/com_fabrik/src/WebService/AbstractWebService.php:153-196 | the nested loops produce exactly `MapAll` of the field map over the records |
| Reconcile.MatchedPk | components/com_fabrik/src/WebService/AbstractWebService.php:236-241 | the key is the id stored for the row's foreign-key value when that value is present in the ids and not loosely empty, and "" otherwise |
| Reconcile.ConvertFields | components/com_fabrik/src/WebService/AbstractWebService.php:230-234 | every field of the row, and no other, is replaced by its converted value |
| WebServices.ListModel.StoreRow | components/com_fabrik/src/WebService/AbstractWebService.php:260 | the row and key are appended to the list's log of stored rows |
| WebServices.WebService.StoreOne | components/com_fabrik/src/WebService/AbstractWebService.php:228-261 | one pass of the loop: the row is skipped or stored as `Decide` says, and exactly one counter grows by one when it is stored |
| WebServices.WebService.StoreRows | components/com_fabrik/src/WebService/AbstractWebService.php:223-262 | the counters are reset; the stored rows are the plan of the batch in order; the counters are the plan's inserts and updates |
| WebServices.WebService.StoreLocally | components/com_fabrik/src/WebService/AbstractWebService.php:210-263 | the list receives the plan of the mapped batch, in order, and the counters end up as that plan's inserts and updates |
| Reconcile.CountsCoverCalls | components/com_fabrik/src/WebService/AbstractWebService.php:248-255 | every stored row is counted exactly once, as added or as updated |
| Reconcile.CountsByClassification | components/com_fabrik/src/WebService/AbstractWebService.php:236-260 | added = the rows with no matching id; updated = the matched rows when updating, else 0; one store call per row when updating, else one per unmatched row |
| Reconcile.StoredRowsCarryKey | components/com_fabrik/src/WebService/AbstractWebService.php:236-260 | every stored row has its primary-key column set to the key it is stored with; that key is "" or an id from the table; with updates off every store is an insert |
| Reconcile.RerunUpdatesEveryRow | components/com_fabrik/src/WebService/AbstractWebService.php:236-255 | when every row already exists locally and updates are on, nothing is added and every row is updated |
| Reconcile.NoneNewMeansNoneUnmatched | components/com_fabrik/src/WebService/AbstractWebService.php:236-241 | a batch with no new row has no unmatched row |
| Reconcile.SameNewKeyAddedTwice | components/com_fabrik/src/WebService/AbstractWebService.php:219-250 | the ids are read once, so two rows with the same unknown foreign key are both inserted and both counted as added |
| FilterValue.GetFilterValue | components/com_fabrik/src/WebService/AbstractWebService.php:275-291 | `bool` gives a boolean that is false exactly for PHP's falsy scalars; `date` gives a string; every other type returns the value unchanged |
| FilterValue.TruthyIsNotFalsy | components/com_fabrik/src/WebService/AbstractWebService.php:280 | PHP's `(bool)` cast is true exactly for the values outside null, false, 0, "" and "0" |
| FilterValue.BoolFilterIdempotent | components/com_fabrik/src/WebService/AbstractWebService.php:279-281 | converting an already converted boolean filter value changes nothing |

## Definitions

Definitions without a contract of their own, characterised by the members
of the table above:

- `FieldMap.MapRecord` (AbstractWebService.php:160-190): the row one record
  gets, by `WrittenKeys`, `LastWriteWins` and `LaterRuleOverrides`.
- `Reconcile.Decide` and `Reconcile.Plan` (AbstractWebService.php:228-262):
  what one row and a whole batch store, by `StoreOne`, `StoreRows`,
  `CountsByClassification` and `StoredRowsCarryKey`.
- `Registry.ClassName` (AbstractWebService.php:87): the class looked up, by
  `GetInstance` and `UcFirst`.
- `Php.LooseEqualsEmpty` (AbstractWebService.php:238): `$v == ''` under
  PHP 8, used by `MatchedPk`.
- `Php.Truthy` (AbstractWebService.php:280): the `(bool)` cast, by
  `TruthyIsNotFalsy`.

## Left out

- `get` (fetching records from the remote service) is abstract network I/O. It is not modelled, and the records are an input.
- The `eval` in `map` is the `Host.evaluate` parameter. It sees only the record. The model does not capture its access to other locals (`$row`, `$map`, the worker) or any side effects.
- `parseMessageForPlaceHolder` is the `Host.resolve` parameter. Its placeholder syntax is not modelled.
- FieldMap.ApplyRule: a literal match compares with string equality. PHP's loose `==` also equates numeric strings such as "1" and "01", and the model does not capture that.
- The `fk` argument of `map` is unused by the source, so it is omitted.
- The table query in `storeLocally` (`getQuery`, `loadObjectList`) is the `ids` parameter, which maps foreign-key text to id text. Duplicate foreign keys in the table collapse to one entry there, as they do in the keyed object list.
- `getFormModel`, `getGroupsHiarachy` and `getElement` are replaced by `ListModel.convert`, one conversion per field name. An element lookup that fails (a fatal error in PHP) is not modelled.
- `shortColName` and the backtick stripping of the primary-key column are replaced by `ListModel.primaryKey`.
- `storeRow` is recorded in `ListModel.stored`. The database write behind it is not modelled.
- The signature stands for `md5(serialize(...))` by the normalised options themselves, so MD5 collisions are not modelled.
- `class_exists` and `new $class` are a table from qualified class names to constructors, where a constructor either throws a message or succeeds. PHP's case-insensitive class names are not modelled.
- `Text::sprintf` error messages keep only the error kind and its argument.
- GetFilterValue: the `date` branch only promises a string. `Factory::getDate` and `toISO8601` are the `isoDate` parameter, and a date that fails to parse (an exception) is not modelled.
- The model follows PHP 8 comparison: `$row[$fk] != ''` treats an integer 0 as not empty. Under PHP 7, `0 == ''` holds, so a row whose foreign key is the integer 0 would be inserted as new, and the model does not capture that.
- PHP floats, arrays and objects as scalar values are not modelled. Option values, fields and filter values are null, bool, int or string.
- The counters are unbounded naturals, so PHP integer overflow is not modelled.
- WebServices.WebService.StoreLocally: the loop is split into `StoreRows` and `StoreOne`. The calls they make and their order are the same as in the source.
- Registry.GetInstanceTwice: a driver constructor is a deterministic function of the options, so a retried failure fails again. In the source nothing is cached on failure and the next call runs `class_exists` and the constructor again, and a constructor that connects to a service can succeed on that retry.
- Failures of the foreign calls inside the loops are not modelled: the `eval` of a rule's code (which can throw on bad code), `parseMessageForPlaceHolder` and `storeRow` are total here. In the source such a failure aborts `map` or `storeLocally` part-way. The partial state it leaves is not modelled either. In particular, a `storeRow` that throws does so after a counter has already been incremented for a row that was never stored. The counter promises of `StoreRows` and `StoreLocally` hold when every call returns.
- Php.UcFirst: Joomla's `StringHelper::ucfirst` is UTF-8 aware; only ASCII case mapping is modelled, which covers every sanitised driver name.
- `PhpArray` is a sequence of key-value pairs and can hold a key twice, which a PHP array cannot. `Get` and `Put` see only the first occurrence, so such arrays have no PHP counterpart.
- Concurrency is not modelled. PHP runs each request on one thread, and the registry has no eviction or locking.
