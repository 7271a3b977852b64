# Amazon MWS (Japan) client: request signing and Products parameters

This project models in Dafny the request-building core of a small Node.js
client for Amazon Marketplace Web Service, Japan marketplace. It has two parts.

**`lib/mws.js`** builds and signs every request.
- `createRequest` cuts the clock's ISO-8601 timestamp to whole seconds.
- It writes seven fixed fields and assigns the caller's parameters over them (`_.extend`).
- It signs the result and adds `Signature`.
- It encodes the form and replaces `%253A` by `%3A`.
- It chooses the request path from the endpoint table. The one exception is `FullFillment`, which goes to `/FulfillmentInventory/`.

`generateSignature` builds the AWS Signature Version 2 string to sign:
- it collects the keys and sorts them in place;
- it copies the properties in key order;
- it writes `%3A` for the colons of the Timestamp and of every value whose key contains `Date`;
- it joins `key=value` pairs with `&`;
- it builds the four lines `POST`, host, path and parameters;
- it escapes `'`, `*`, `(`, `)` and space as `%27`, `%2A`, `%28`, `%29` and `%20`.

`checkConfig` checks, in order, that the five configuration fields are truthy.

**`lib/products.js`** holds the Products operations. Each builds a `parameters` object and hands it to `createRequest`, or turns the call away with an error object.
- The list operations copy the entries of a list parameter whose key the operation's regular expression accepts.
- Most of them stop after twenty entries.
- Some operations forward `ItemCondition`, `QueryContextId` and `ExcludeMe`.
- `GetMatchingProductForId`, `GetMyFeesEstimate` and `GetProductCategoriesForSKU` reject some inputs.

The Dafny modules are:
- `JsValues` (`jsvalue.dfy`): JavaScript values.
  - Plain objects are insertion-ordered property lists with distinct keys.
  - It also covers property assignment, `_.has`, `_.extend`, string coercion, truthiness, global `replace` and the default `sort` order.
- `Mws` (`mws.dfy`): signing, request assembly and the configuration check.
  - The methods `SortKeys`, `CopyInOrder`, `JoinedParameters`, `StringToSign`, `GenerateSignature` and `CreateRequest` follow the source's loops and in-place updates.
  - Each is proved equal to a declarative definition (`SortedKeys`, `SortedEntries`, `RenderPairs`, `CanonicalString`, `SignatureFor`, `RequestFor`). The lemmas are stated about these definitions.
- `KeyPatterns` (`patterns.dfy`): the key regular expressions, matched as written.
  - Each expression is unanchored, and `.` stands for any character except a line terminator.
  - Each pattern is proved equal to an explicit reading.
- `Products` (`products.dfy`): the operations.
  - `createRequest` is a sink: each operation returns `Error(message)` or `Request(action, section, parameters, xml)`.
  - The list loops are methods proved against `Selected` and `ListParameters`.

External pieces become parameters:
- HMAC-SHA256 plus base64 is `hmac`.
- `querystring.stringify` is `stringify`.
- The clock's `toISOString()` result is `now`.

Where the code and its documentation differ, the model follows the code:
- The encoded form is written as the request body as well as the query (lib/mws.js:99).
- The date-trimming `/\..+/` does not match across a line terminator.
- The `ExcludeMe` guard reads the misspelt property `ExludeMe` (lib/products.js:315, 370).
- The `[1-5]` patterns are unanchored, so `ASINList.ASIN.10` is accepted.

## Model

| member | source | states |
|---|---|---|
| JsValues.Put | lib/mws.js:113-115 | `o[k] = v`: `k` then reads `v` and every other property reads as before. An existing key keeps its place, a new one is appended at the end, and keys stay distinct. |
| JsValues.ToMap | lib/mws.js:106-114 | The map of an object has exactly its own properties, with the values that lookup returns. |
| JsValues.AssignSpec | lib/mws.js:59 | `_.extend(o, src)` has the properties of either object, with `src`'s value wherever `src` has one, and distinct keys. If no key is shared, it is `o` followed by `src`. |
| JsValues.AssignOverrides | lib/mws.js:59 | As a map, `_.extend(o, src)` is `o` overridden by `src`. |
| JsValues.AssignKeepsOrder | lib/mws.js:59 | `_.extend` keeps the keys of `o` first and in their order. |
| JsValues.PermutedObjectsAgree | lib/mws.js:106-114 | Two objects that hold the same properties in any order denote the same map. |
| JsValues.NatToDecimal | lib/mws.js:121 | The decimal form of a natural number is a non-empty string of digits that denotes the number (`DecimalValue`), with no leading zero; it is one digit exactly below 10. |
| JsValues.ToJsString | lib/mws.js:121 | `key + "=" + value` renders a string as itself and a number as its decimal digits, preceded by `-` exactly when it is negative. |
| JsValues.NumberStringsDistinct | lib/mws.js:121 | Two numbers that render to the same string are equal. |
| JsValues.ReplaceAbsent | lib/mws.js:64 | A global replace leaves a string in which the pattern does not occur unchanged. |
| JsValues.ReplaceCharConcat | lib/mws.js:115 | Replacing one character works piece by piece: the replace of `a + b` is the replace of `a` followed by the replace of `b`. |
| JsValues.ReplaceCharRemoves | lib/mws.js:115 | After `replace(/c/g, rep)` no `c` is left, provided `rep` has none. |
| JsValues.ReplaceCharKeepsOthers | lib/mws.js:119 | Every other character absent from `rep` occurs as often as before. |
| JsValues.BelowIrreflexive | lib/mws.js:110 | The order of the default `sort` is irreflexive. |
| JsValues.BelowTransitive | lib/mws.js:110 | The order of the default `sort` is transitive. |
| JsValues.BelowTotal | lib/mws.js:110 | The order of the default `sort` is total on distinct strings. |
| Mws.KnownSections | lib/mws.js:13-42 | Exactly seven sections are in the endpoint table: Products, Sellers, Orders, Feeds, Reports, FullFillment and Finances. |
| Mws.RequestPaths | lib/mws.js:72-75 | The path of each section, from the table's prefix and version: `/Products/2011-10-01`, `/Sellers/2011-07-01`, `/Orders/2013-09-01`, `/2009-01-01` for Feeds and Reports, `/Finances/2015-05-01`, and `/FulfillmentInventory/2010-10-01` for `FullFillment`, whose own prefix is `/`. |
| Mws.EscapeColonsSpec | lib/mws.js:115 | After the colon escape no `:` is left, and a colon-free value is unchanged. Every character other than `:`, `%`, `3` and `A` keeps its count. |
| Mws.ReplaceEachIsOnePass | lib/mws.js:131-135 | Applying the replacements one after the other equals one left-to-right substitution pass, when no replacement reintroduces a replaced character. |
| Mws.EscapeForSigningIsTable | lib/mws.js:131-135 | The five final escapes are the one-pass substitution `'`→`%27`, `*`→`%2A`, `(`→`%28`, `)`→`%29`, space→`%20`, with every other character kept. |
| Mws.EscapeForSigningConcat | lib/mws.js:131-135 | The final escapes work character by character and in order. |
| Mws.EscapeForSigningKeepsPlain | lib/mws.js:131-135 | A string with none of the five characters is unchanged. |
| Mws.EscapeForSigningIdempotent | lib/mws.js:131-135 | None of the five characters is left, so escaping twice is escaping once. |
| Mws.DotRunFrom | lib/mws.js:47 | Finds the leftmost position where `/\..+/` matches. |
| Mws.RunEnd | lib/mws.js:47 | The greedy `.+` stops at the first line terminator, or at the end. |
| Mws.TrimCutsAtFirstDot | lib/mws.js:47 | On one line, the timestamp trim replaces everything from the first dot on by `Z`, when a character follows the dot. |
| Mws.TrimWithoutDot | lib/mws.js:47 | Without a dot, the timestamp trim only appends `Z`. |
| Mws.TrimIsoMillis | lib/mws.js:46-47 | `YYYY-MM-DDTHH:MM:SS.sssZ` becomes `YYYY-MM-DDTHH:MM:SSZ`, a well-formed 20-character timestamp. |
| Mws.SortKeys | lib/mws.js:110 | `keys.sort()` in place: the array ends ascending and is a permutation of the original. |
| Mws.SinkLast | lib/mws.js:110 | One insertion step extends the sorted prefix by one key and permutes the array. |
| Mws.SortedKeys | lib/mws.js:106-110 | The sorted key list is strictly ascending and holds each key of the map exactly once. |
| Mws.AscendingUnique | lib/mws.js:110 | A set of keys has only one strictly ascending arrangement. |
| Mws.SortedIsSortedKeys | lib/mws.js:106-110 | Whatever order the keys were collected in, the sorted array is the map's sorted key list. |
| Mws.CollectKeys | lib/mws.js:106-109 | The `for…in` collects the object's keys in insertion order into a fresh array. |
| Mws.SortedEntries | lib/mws.js:111-114 | The `sorted` object holds every property of the map once, with its value, and has distinct keys. |
| Mws.CopyInOrder | lib/mws.js:111-114 | Copying in sorted key order yields the map's properties in key order. |
| Mws.PutTimestampSpec | lib/mws.js:115 | Overwriting `sorted.Timestamp` gives the sorted object of the updated map, with the key keeping its place. |
| Mws.JoinedParameters | lib/mws.js:116-122 | The pair loop, with its in-place colon escape of Date values, equals rendering each property in order. A non-string Date value fails the whole signature. |
| Mws.RenderPairsFailAt | lib/mws.js:117-121 | A failing pair fails the rendering with its own error, whatever follows it. |
| Mws.RenderPairsSpec | lib/mws.js:117-122 | Rendering succeeds exactly when every pair does. It then gives one pair per property, in order. |
| Mws.SignedPairsSucceed | lib/mws.js:115-121 | Signing fails exactly when the Timestamp is missing or not a string, or some key containing `Date` has a non-string value. |
| Mws.SignedPairsShape | lib/mws.js:106-123 | The pairs are strictly ascending by key, one per property. Each is `key=value`, with the colons of the Timestamp and of Date values escaped and every other value unchanged. |
| Mws.CanonicalShape | lib/mws.js:123-136 | Signing errors come first, then an unknown section. Otherwise the string is `POST`, host, request path and the escaped parameter line, joined by newlines. Only the parameter line is changed by the final escapes, and none of the five characters is left. |
| Mws.CanonicalOrderFree | lib/mws.js:106-136 | The string to sign depends on the properties, not on their order. |
| Mws.StringToSign | lib/mws.js:104-136 | The imperative string-to-sign computation equals the declarative canonical string of the parameters' map. |
| Mws.GenerateSignature | lib/mws.js:103-141 | A secret key that is not a string fails first, with `BadKey` (`createHmac`, line 104). Otherwise the signature is the keyed hash of the canonical string, or the signing error. |
| Mws.FixedFields | lib/mws.js:49-57 | The seven fixed fields have distinct keys. |
| Mws.SignatureNotFixed | lib/mws.js:49-61 | No fixed field is called `Signature`. |
| Mws.CreateRequest | lib/mws.js:45-84 | `createRequest` up to the send: the imperative merge, signing and encoding equal `RequestFor`. |
| Mws.MergedSpec | lib/mws.js:49-59 | The signed object has distinct keys. It is the fixed fields overridden by the caller's parameters, with the fixed keys first and in their order. |
| Mws.RequestForm | lib/mws.js:59-81 | The form sent is the signed object plus `Signature`, computed over it. `Signature` is appended last unless the caller supplied one. The body is the fixed-up encoding, and the path is the request path, `?` and that body. |
| Mws.RequestTimestamp | lib/mws.js:46-61 | Unless the caller overrides it, the Timestamp both signed and sent is the clock string cut to seconds. |
| Mws.FixedFieldsNotDates | lib/mws.js:49-57 | No fixed field is rewritten as a Date key. |
| Mws.RequestSucceeds | lib/mws.js:45-61 | A request is built exactly when four things hold: the section is in the endpoint table, the secret key is a string (lib/mws.js:104), a caller-supplied Timestamp is a string, and every parameter whose key contains `Date` is a string. |
| Mws.RequestOrderFree | lib/mws.js:59-61 | The order of the caller's parameters changes neither the properties sent nor the signature. |
| Mws.FixQueryUntouched | lib/mws.js:64 | A body without `%253A` is sent as encoded. |
| Mws.FixQuerySplit | lib/mws.js:64 | Scanning left to right, the first `%253A` becomes `%3A`, the text before it is kept, and the rest is fixed in turn. |
| Mws.CheckConfig | lib/mws.js:143-166 | True exactly when all five fields are truthy; it then logs nothing. Otherwise it logs the message naming the first falsy field, in the order SellerId, DeveloperAccountNumber, AWSAccessKeyId, SecretKey, MarketplaceId. |
| KeyPatterns.ListPatternMeaning | lib/products.js:198 | A list pattern's `test` accepts a key exactly when the key contains, somewhere, the list name, a separator, the item name, a separator and a digit from 1 to the upper bound. |
| KeyPatterns.StarChangesNothing | lib/products.js:198 | The trailing `[1-9]*` of an unanchored pattern accepts nothing more and nothing less. |
| KeyPatterns.ListNameOccurs | lib/products.js:102 | An accepted key contains the list name. |
| KeyPatterns.NoListLetterNoMatch | lib/products.js:149 | A key without a capital `L` is accepted by no operation's pattern. |
| KeyPatterns.FixedKeysNeverMatch | lib/products.js:97-105 | `MarketplaceId`, `IdType`, `ItemCondition`, `ExcludeMe` and `QueryContextId` are never taken from a list. |
| KeyPatterns.DottedIsStricter | lib/products.js:241 | The escaped-dot ASIN pattern accepts only keys the unescaped one accepts. |
| KeyPatterns.UpToFiveIsStricter | lib/products.js:102 | The `[1-5]` ASIN pattern accepts only keys the `[1-9]` one accepts. |
| KeyPatterns.FirstAsinAccepted | lib/products.js:102 | `ASINList.ASIN.1` is accepted by every ASIN pattern. |
| KeyPatterns.TenthAsinAccepted | lib/products.js:102 | `ASINList.ASIN.10` is accepted by the `[1-5]` pattern, because the test is unanchored. |
| KeyPatterns.SixthAsin | lib/products.js:102 | `ASINList.ASIN.6` is rejected by GetMatchingProduct's pattern and accepted by the `[1-9]` one. |
| KeyPatterns.OtherSeparator | lib/products.js:241 | An unescaped `.` accepts `ASINList-ASIN-1`; the escaped one does not. |
| KeyPatterns.ZeroIndexRejected | lib/products.js:198 | `SellerSKUList.SellerSKU.0` is not accepted. |
| Products.Matching | lib/products.js:101-105 | The accepted entries: exactly the list entries whose key passes the test, no more of them than there are entries. |
| Products.MatchingAppend | lib/products.js:101-105 | The entries keep their order: the matches of `a + b` are the matches of `a` followed by those of `b`. |
| Products.SelectedSpec | lib/products.js:196-205 | The copied entries are the accepted keys among those looked at, with unchanged values. A capped loop copies at most twenty; an uncapped one copies every accepted key. |
| Products.CapCountsEveryEntry | lib/products.js:196-205 | An entry after the twentieth is never copied, however few of the first twenty matched. |
| Products.CopyListEntries | lib/products.js:196-205 | The `for…in` loop with its test, counter and `break` appends exactly the selected entries to the parameters. |
| Products.CopyEntry | lib/products.js:198-200 | One turn of the loop adds the entry when its key is accepted. |
| Products.ExaminedPrefix | lib/products.js:201-204 | The loop stops at the end of the list or, when capped, after the twentieth entry. |
| Products.ForwardIfPresent | lib/products.js:64-66 | `if (_.has(params, k)) parameters[k] = params[k]`: `k` is present exactly when either object has it, with the caller's value when supplied. Nothing else changes. |
| Products.ExcludeMeAloneIsDropped | lib/products.js:315-317 | A caller without the misspelt `ExludeMe` never has `ExcludeMe` forwarded. |
| Products.Marketplace | lib/products.js:97-99 | The object set before the loop holds only keys the patterns never accept. |
| Products.LoopResultSpec | lib/products.js:192-205 | After the loop: the keys are distinct and the fixed keys are kept. An accepted key is present exactly when an examined entry has it, with that entry's value. |
| Products.OptionalPartsSpec | lib/products.js:311-317 | The ItemCondition and ExcludeMe steps add only those two keys. Each is present exactly when forwarded, with the caller's value. |
| Products.OptionalSteps | lib/products.js:311-317 | The in-place optional steps equal appending the forwarded parts. |
| Products.ListParametersSpec | lib/products.js:296-317 | A list operation sends distinct keys: its fixed keys unchanged, and the accepted keys among the examined entries with their values. ItemCondition and ExcludeMe appear exactly when forwarded, and nothing else is sent. |
| Products.GetMatchingProduct | lib/products.js:96-114 | Sends MarketplaceId and every `[1-5]`-accepted ASINList entry, with no cap. |
| Products.ProductIdTypeCheck | lib/products.js:136 | The seven strict inequalities mean the IdType is not one of the seven allowed strings. |
| Products.GetMatchingProductForId | lib/products.js:135-161 | Returns the error, and no request, exactly when the IdType is not one of the seven allowed strings. Otherwise it sends MarketplaceId, IdType and the accepted IdList entries, uncapped. |
| Products.GetCompetitivePricingForSKU | lib/products.js:190-214 | Sends the accepted SellerSKUList entries among the first twenty. |
| Products.GetCompetitivePricingForASIN | lib/products.js:234-257 | Sends the ASINList entries the escaped-dot pattern accepts, among the first twenty. |
| Products.GetLowestOfferListingsForSKU | lib/products.js:296-327 | Sends the capped SellerSKU entries, then ItemCondition and the guarded ExcludeMe. |
| Products.GetLowestOfferListingsForASIN | lib/products.js:350-382 | Sends the capped ASIN entries, then ItemCondition and the guarded ExcludeMe. |
| Products.GetMyPriceForSKU | lib/products.js:403-430 | Sends the capped SellerSKU entries, then ItemCondition. |
| Products.GetMyPriceForASIN | lib/products.js:451-478 | Sends the capped ASIN entries, then ItemCondition. |
| Products.GetServiceStatus | lib/products.js:31-39 | Sends the action GetServiceStatus to the Products section with no parameters of its own and no xml argument. |
| Products.GetProductCategoriesForASIN | lib/products.js:538-553 | Sends exactly MarketplaceId, then ASIN, with the configured marketplace and the caller's ASIN. |
| Products.ListMatchingProducts | lib/products.js:59-75 | Sends MarketplaceId and Query, in that order. QueryContextId is sent exactly when the caller has one, with the caller's value. |
| Products.LowestPricedOffers | lib/products.js:577-629 | Sends MarketplaceId and the SKU or ASIN. ItemCondition is sent exactly when the caller has one, with the caller's value. |
| Products.GetMyFeesEstimate | lib/products.js:659-689 | Returns the error exactly when the IdType is neither ASIN nor SellerSKU. Otherwise it sends exactly the twelve fee keys in order, with the values `FeesEstimateParameters` gives them, which `FeesEstimateSpec` states one by one. |
| Products.FeesEstimateSpec | lib/products.js:666-679 | The twelve fee keys are distinct. IdValue is the caller's ASIN and Identifier is `ABCDE`; the currency codes are `JPY` and the points are 0. The other values are the caller's. |
| Products.CategoriesForSku | lib/products.js:498-507 | Returns the error exactly when MarketplaceId or SellerSKU is missing. Otherwise it sends exactly those two keys and the `xml` flag. |
| Products.GetProductCategoriesForSKU | lib/products.js:489-519 | A function in the `xml` place becomes the callback and sets the flag to false. An undefined `xml` warns, sends nothing and calls nothing. Otherwise the required keys are checked as above. |
| Products.PlainRequestIsBuilt | lib/mws.js:104-121 | `createRequest` builds a Products request whose keys contain no capital D and no Timestamp exactly when the secret key is a string. |
| Products.FixedOperationsArePlain | lib/products.js:31-629 | Only plain keys are sent, so (by `PlainRequestIsBuilt`) the request builds whatever the caller's values once the secret key is a string, for six operations: GetServiceStatus, ListMatchingProducts, GetProductCategoriesForASIN, both GetLowestPricedOffers operations and a delivered GetProductCategoriesForSKU. |
| Products.OnlyListKeysAreDates | lib/products.js:192-205 | In a list operation's parameters only copied list entries can contain `Date`, and there is no Timestamp. |
| Products.ListRequestBuilt | lib/products.js:196-206 | A list operation's request is built exactly when the secret key is a string and every copied entry whose key contains `Date` has a string value. |

## Left out

- The HTTPS request, its headers, response buffering and callback delivery (lib/mws.js:66-100): network I/O. The model ends at the `Request` value.
- HMAC-SHA256 and base64 (lib/mws.js:104, 137): a foreign cryptographic call, modelled as the function parameter `hmac` of the secret and the string to sign.
- `querystring.stringify` (lib/mws.js:63): a library encoder, modelled as the parameter `stringify`. Only the `%253A` fix-up applied to its output is modelled.
- The clock (lib/mws.js:46): the result of `toISOString()` is the parameter `now`.
- Loading `config/config.json`: the configuration is a record parameter. The console messages of `checkConfig` and `GetProductCategoriesForSKU` are returned as values.
- The write of `timestamp` into the caller's argument object (lib/mws.js:48): nothing reads that property back.
- The `ItemCondition` array (lib/products.js:13-15): it is never read.
- test/GetLowestOfferListingsForSKU.js: a live demonstration script with no checks.
- JsValues.Below: characters are compared as Unicode scalar values. `Array.prototype.sort` compares UTF-16 code units, which order differently only above U+FFFF. Likewise the key patterns' `.` (KeyPatterns.AnyChar) matches one scalar value, where a JavaScript regular expression without the `u` flag matches one UTF-16 code unit; the two differ only for keys with characters above U+FFFF.
- JsValues.JsObject: `for…in` order is insertion order. The hoisting of integer-like keys is not modelled; the client uses dotted names.
- JsValues.Value: numbers are integers, so NaN, fractions and their string forms are not modelled. `null` is not modelled either: it is falsy in `checkConfig`, renders as `null` when signed, and makes `createHmac` throw as a secret key. Functions appear only as `Products.Argument`.
- JsValues.ToJsString: `String(n)` switches to exponent form from 10^21 (`1e+21`), and JavaScript numbers are not exact above 2^53. The model writes every integer in full decimal digits and keeps it exact.
- Mws.EndpointFor: names every object inherits (`toString`, `constructor`, …) resolve in the source to functions, whose `type` and `version` are both `undefined`. `undefined + undefined` is `NaN`, so the source requests the path `NaN?` followed by the body (lib/mws.js:72), signs a path line reading `NaN` (lib/mws.js:127) and a `Version` whose value is `undefined`. The model treats these names as unknown sections, `UnknownEndpoint`.
- Mws.SignatureFor: `createHmac` also accepts a Buffer or typed array as key; the configuration read from JSON cannot hold one, so only strings are accepted.
- Mws.SignedPairsSucceed: a TypeError thrown by `.replace` on a non-string value is modelled as the error `NotAString`.
- Products.ListEntries: a string list parameter is treated as having no entries. Its index keys are digits, which no list pattern accepts.
- Products.GetProductCategoriesForSKU: the `config` argument is not modelled. It is only passed on to `createRequest`, which does not read it.
- Products.FixedOperationsArePlain: GetMyFeesEstimate is not covered. Its keys contain no capital D, but proving that for its long literal keys is beyond the verifier's budget here.
- KeyPatterns.Test: the `g` flag of `/IdList.Id.[1-5]{1}/g` (lib/products.js:149) is not modelled. On a fresh regular expression it does not change the first `test`.
