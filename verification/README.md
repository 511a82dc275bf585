# SBCdrink API — a Dafny model of the service core

SBCdrink is the back end of a cocktail machine. It keeps ingredients, recipes, dispenser-slot configurations, settings and orders. It admits an order only when no other order is waiting, and it translates an order into dispenser commands. This project models the decision logic of that back end as pure Dafny functions over an abstract in-memory store, and proves properties of it:

- **Order admission** (`OrderService`). The checks run in a fixed order:
  1. an order already in status CREATED;
  2. payload validity;
  3. the recipe;
  4. each step's ingredient, stopping at the first missing one.

  On success the order is inserted with snapshots of the recipe and ingredients. The store-wide invariant "at most one CREATED order" is preserved.
- **Dispenser commands** (`MachineService`): translating an order into machine steps, and the validation gate in front of the remote call.
- **Settings singleton** (`SettingService`): get-or-create with defaults, and update.
- **Slot configuration** (`MachineConfigurationService`): a listing sorted by slot, and an update of one slot.
- **Recipe catalog** (`RecipeService`) over relational rows:
  - an availability filter and `updated_at` ordering;
  - the identifier guard;
  - creation;
  - an update of existing steps only;
  - a cascading delete.
- **Generic CRUD service** (`GenericService`) over plain records keyed by `_id`, through the key-renaming mappers.
- **Key-case conversion** (`Serialize`): `camelCase`/`snakeCase` and the generic mappers `serialize`/`deSerialize`, with their round trip on database records.
- **Document mappers** (`FileModel`, `IngredientModel`, `RecipeModel`, `OrderModel`, `MachineConfigurationModel`) between database documents and API objects, with round trips in both directions.
- **Error taxonomy** (`Errors`, `HttpCodes`, `BooleanQuery`): the six constructors, the map from error category to HTTP status, and the tri-state boolean query parser.

## How the model is built

- Each service operation is a function from a store and a payload to an `Outcome`, which pairs the reply with the store left behind.
- A reply is `Ok(value)`, `Err(error)` (the `error` field of the source's answer), or `Thrown`. `Thrown` stands for a rejected promise: an exception from a library or a remote call that the service does not catch.
- Joi payload validators are parameters: `rejection: Option<string>` holds the first message of a validator that rejects the payload. The identifier guard of `findById` is stated directly (`IdValidation`).
- Freshly assigned identifiers come from a parameter `mint` (or `minted`), and the clock from a parameter `now`. This covers the identifier `new ObjectId(..)` makes from null or a number.
- JavaScript numbers are IEEE doubles. They are modelled as `real`: machine quantities, sort keys and setting timings. No result of the core depends on rounding.
- The remote `makeCocktail` call is a parameter `machine` that says whether the call succeeds.
- `ObjectId` is a subset type of 24 lower-case hexadecimal digits. `FromString` (`new ObjectId(s)`) lower-cases, and `ToString` is the identity on that form. A store finds a record by the printed form of its identifier (`Stores`).
- A `findById` on a string first casts it (`ObjectIds.CastId`): 24 hexadecimal digits of either case cast to the canonical form, and anything else makes the cast, and so the service call, throw.
- The database's `.sort(...)` / `orderBy` is a stable insertion sort on a key (`Sorting`). A record without the key sorts first.

## Model

| member | source | states |
|---|---|---|
| BooleanQuery.ParseBooleanQuery | src/utils/parseBooleanQuery.ts:1-5 | The result is `true` exactly for the string "true" and `false` exactly for "false". Every other string, and a missing value, give undefined. |
| BooleanQuery.ParseWrittenBoolean | src/utils/parseBooleanQuery.ts:1-5 | Parsing the written form of a boolean gives that boolean back. Any accepted text is the written form of its result. "TRUE" and "1" are not accepted. |
| Errors.SlugValues | src/services/errors/types.ts:1-11 | Exactly the eight declared slugs have a run-time value, and those values are pairwise distinct. The slugs the services use without declaring them are undefined. |
| Errors.ConstructorsPartitionCategories | src/services/errors/errors.ts:7-53 | The six constructors yield six categories whose run-time strings are pairwise distinct, and every category is produced by one of them. |
| HttpCodes.MapErrorTypeToHttpCode | src/utils/mapErrorTypeToHttpCode.ts:3-20 | The map is total and always answers one of 400, 401, 403, 404, 409, 500. Each of 401, 403, 400, 404 and 409 is answered exactly for its own category string. |
| HttpCodes.HttpCodesDistinguishCategories | src/utils/mapErrorTypeToHttpCode.ts:5-18 | Every category except `unknow` gets a client status below 500, and distinct categories get distinct statuses. `unknow` and every unrecognised string get 500. |
| HttpCodes.ConstructorStatuses | src/utils/mapErrorTypeToHttpCode.ts:3-20 | The error from each constructor is answered with its own status: 401, 403, 400, 404, 409, 500. |
| IdValidation.IdRejection | src/shared/validators.ts:17-22 | An identifier is accepted exactly when its JavaScript length, counted in UTF-16 code units, is 24. An empty one gets the "not allowed to be empty" message, and any other wrong length gets the length message naming 24. |
| IdValidation.CastableIdAccepted | src/shared/validators.ts:17-22 | Every identifier the database can cast passes the length guard. |
| IdValidation.AstralIdPassesLengthCheck | src/shared/validators.ts:17-22 | Any 22 characters of the Basic Multilingual Plane followed by one character outside it make a string of 23 characters whose length in UTF-16 code units is 24: it passes the guard, although it cannot be cast. |
| ObjectIds.FromString | src/shared/serialize.ts:30 | Parsing keeps every digit up to case. On a printed identifier it gives the identifier that prints as that string. |
| ObjectIds.ToString | src/shared/serialize.ts:13 | Printing gives 24 lower-case hexadecimal digits, and parsing the printed form gives the same identifier back. |
| ObjectIds.ToStringInjective | src/shared/serialize.ts:13 | Two identifiers print alike only if they are equal. |
| ObjectIds.CastId | src/shared/service.ts:59 | The cast succeeds exactly on 24 hexadecimal digits of either case. It yields the canonical lower-case form, which parses to the same identifier as the input, and it leaves a canonical identifier unchanged. |
| Stores.Lookup | src/shared/service.ts:59 | A lookup by identifier finds a record exactly when some stored record has that printed identifier. The record it finds is stored and has that identifier. |
| Stores.IndexOf | src/shared/service.ts:59 | The position found is the first one holding the identifier. There is none exactly when no record holds it. |
| Stores.LookupById | src/services/order/order.ts:51 | A lookup by a string finds nothing when the string cannot be cast. Otherwise it is the lookup of the cast, canonical form. |
| Sorting.SortBy | src/shared/service.ts:45 | The sorted records are a permutation of the stored ones, in key order for the requested direction. |
| FileModel.RoundTrips | src/models/File.ts:8-26 | Going from document to API and back is the identity on every file document. Going from API to document and back is the identity on every API file with a printed identifier. |
| FileModel.ListRoundTrip | src/models/File.ts:16-30 | The list mappers are inverse on document lists, element by element and in order. |
| IngredientModel.DeSerializeIngredient | src/models/Ingredient.ts:19-24 | The rebuilt document has no viscosity and no timestamps. |
| IngredientModel.DocRoundTrip | src/models/Ingredient.ts:8-24 | Document to API and back keeps the identifier, name, alcohol flag and degree, and drops viscosity and timestamps. It is the identity exactly on documents that have none of those. |
| IngredientModel.ApiRoundTrip | src/models/Ingredient.ts:8-24 | API to document and back is the identity on ingredients with a printed identifier. |
| IngredientModel.ListRoundTrip | src/models/Ingredient.ts:15-28 | The list mappers compose to the identity on lists of API ingredients with printed identifiers. |
| MachineConfigurationModel.SerializeConfiguration | src/models/MachineConfiguration.ts:10-27 | A null ingredient stays null. A non-null ingredient becomes an object exactly when `withIngredients` is set, and an identifier otherwise. Slot and measuring volume are copied, and the result is accepted by the inverse mapper. |
| MachineConfigurationModel.DeSerializeConfiguration | src/models/MachineConfiguration.ts:33-50 | A null ingredient stays null, no position is produced, and slot and measuring volume are copied. |
| MachineConfigurationModel.DocRoundTrip | src/models/MachineConfiguration.ts:10-50 | With unpopulated ingredients, document to API and back keeps identifier, ingredient, slot and volume, and loses only the position. |
| MachineConfigurationModel.ApiRoundTrip | src/models/MachineConfiguration.ts:10-50 | API to document and back is the identity on slots with printed identifiers, populated or not. |
| MachineConfigurationModel.ListRoundTrip | src/models/MachineConfiguration.ts:29-54 | The list mappers compose to the identity, element by element and in order. |
| OrderModel.SerializeOrder | src/models/Order.ts:10-24 | Status and progress are copied. The steps keep their count and order, each with its status, order index and quantity. The result is accepted by `deSerializeOrder`. |
| OrderModel.DeSerializeOrder | src/models/Order.ts:30-44 | Status and progress are copied, the step count is kept, and the embedded recipe is unpopulated. |
| OrderModel.DocRoundTrip | src/models/Order.ts:10-44 | Document to API and back keeps status, progress, every step's status, index and quantity, and what the recipe and ingredient mappers carry of the snapshots. |
| OrderModel.ApiRoundTrip | src/models/Order.ts:10-44 | API to document and back is the identity on orders whose identifiers are printed. |
| OrderModel.ListRoundTrip | src/models/Order.ts:26-48 | The list mappers compose to the identity, in order. |
| RecipeModel.SerializePicture | src/models/Recipe.ts:13-21 | A null picture stays null. A non-null picture becomes a file object exactly when `withPictures` is set, and an identifier otherwise. |
| RecipeModel.DeSerializePicture | src/models/Recipe.ts:48-56 | A null picture stays null. A non-null picture becomes a file document exactly when `withPictures` is set. |
| RecipeModel.SerializeRecipe | src/models/Recipe.ts:12-41 | Name, description, the three alcohol levels and availability are copied. The steps keep count, order, proportion and order index. The result is accepted by the inverse mapper with the same flags. |
| RecipeModel.DeSerializeRecipe | src/models/Recipe.ts:47-76 | The rebuilt document has no default glass volume, has as many steps as the API recipe, and its references are shaped as the flags ask. |
| RecipeModel.DocRoundTrip | src/models/Recipe.ts:12-76 | Document to API and back loses only the default glass volume and the ingredient fields the ingredient mapper does not carry. |
| RecipeModel.UnpopulatedRoundTrip | src/models/Recipe.ts:12-76 | With both flags false, the round trip keeps every field except the default glass volume. |
| RecipeModel.ApiRoundTrip | src/models/Recipe.ts:12-76 | API to document and back is the identity on recipes whose identifiers are printed, for both flags. |
| RecipeModel.ListRoundTrip | src/models/Recipe.ts:43-80 | The list mappers compose to the identity, in order. |
| Serialize.CamelCase | src/shared/serialize.ts:4-8 | The result is never longer than the input, and is the input itself when it has no '-' or '_'. |
| Serialize.SnakeCase | src/shared/serialize.ts:23-25 | The result is as long as the input plus its number of capitals, and has no capitals. It is the input itself when the input has no capitals. |
| Serialize.CamelCaseKeep | src/shared/serialize.ts:4-8 | A character that does not start a separator-letter pair is kept as it is. |
| Serialize.CamelCaseJoin | src/shared/serialize.ts:4-8 | A separator before a letter is dropped, and the letter is upper-cased. |
| Serialize.CamelCaseOneSeparator | src/shared/serialize.ts:4-8 | A name with exactly one '_' before a letter loses the '_' and capitalises that letter. Nothing else changes. |
| Serialize.CamelAfterSnake | src/shared/serialize.ts:4-25 | For every key without '-' or '_', camel-casing its snake_case form gives the key back. |
| Serialize.SnakeAfterCamel | src/shared/serialize.ts:4-25 | For every database field name (no capitals, no '-', each '_' before a lower-case letter), snake-casing its camelCase form gives it back. |
| Serialize.CamelCaseInjectiveOnSnakeKeys | src/shared/serialize.ts:4-8 | Distinct database field names get distinct API names. |
| Serialize.CamelCaseToId | src/shared/serialize.ts:4-13 | Only "id" itself camel-cases to "id", so the identifier conversion applies to exactly one source key. |
| Serialize.SnakeCaseToId | src/shared/serialize.ts:23-30 | Only "id" itself snake-cases to "id". |
| Serialize.Get | src/shared/serialize.ts:13 | Reading a key gives a value exactly when the key is among the object's keys. |
| Serialize.GetAt | src/shared/serialize.ts:13 | With distinct keys, reading the key at a position gives the value at that position. |
| Serialize.Put | src/shared/serialize.ts:11-14 | Object spread with one key: the keys are distinct afterwards. The key reads as the new value and every other key is unchanged. A new key is appended last. |
| Serialize.FoldLastWins | src/shared/serialize.ts:10-15 | When several keys are renamed to the same key, the result holds the converted value of the last of them. |
| Serialize.FoldPairwise | src/shared/serialize.ts:10-15 | When no two keys are renamed alike, the fold renames and converts pair by pair and keeps the order. |
| Serialize.SerializeObject | src/shared/serialize.ts:3-16 | The keys are exactly the camel-cased source keys, and each holds the value of the last source key renamed to it. The `id` value is printed. Without clashes the result is pair-by-pair. |
| Serialize.DeSerializeObject | src/shared/serialize.ts:22-33 | `None`, standing for the throw, exactly when an `id` holds a value `new ObjectId` refuses: a boolean, or a string that is not 24 hexadecimal digits. Otherwise the keys are exactly the snake-cased API keys, and each holds the value of the last key renamed to it. The `id` value becomes an identifier: parsed, kept, or newly made from null or a number. Without clashes the result is pair-by-pair. |
| Serialize.DeSerializeObjects | src/shared/serialize.ts:35-37 | `deSerializes` throws exactly when some element does. Otherwise it is `deSerialize` of each element, in order. |
| Serialize.SerializedRecord | src/shared/serialize.ts:3-16 | On a database record, `serialize` renames pair by pair without clashes, and every API name snake-cases back to its field. |
| Serialize.RecordRoundTrip | src/shared/serialize.ts:3-33 | `deSerialize(serialize(o)) == o` for every database record. It never throws and never makes an identifier. |
| Serialize.RecordsRoundTrip | src/shared/serialize.ts:18-37 | `deSerializes(serializes(os)) == os` for every list of database records. |
| GenericService.SortDirection | src/shared/service.ts:45 | The order is descending exactly when `sort` is "desc". |
| GenericService.Sorted | src/shared/service.ts:45 | The queried records are a permutation of the stored ones, ordered by `updated_at` in that direction. |
| GenericService.FindAsWritten | src/shared/service.ts:44-49 | As written, `find` answers one entry per stored record: the entry is keyed by the record's decimal position and holds the raw sorted record. Those keys survive `camelCase` unchanged and are never "id", so no entry is renamed or parsed. |
| GenericService.DecimalKeyUnchanged | src/shared/serialize.ts:4-13 | A decimal position is unchanged by `camelCase` and is not "id". |
| GenericService.FindAsWrittenLeaksRawRecords | src/shared/service.ts:47 | On a one-record store, the written `find` answers the raw record under "0", with the field names `_id` and `is_alcohol`. The corrected `find` answers `{ Id: x, isAlcohol: true }`. |
| GenericService.Find | src/shared/service.ts:44-49 | Corrected: one answer per stored record, and together they are exactly the serialized store, reordered. |
| GenericService.SerializedUpdatedAt | src/shared/serialize.ts:10-15 | On a record, `serialize` moves `updated_at` to `updatedAt` with the same value, or leaves both absent. |
| GenericService.FindOrdered | src/shared/service.ts:45-47 | The corrected answer is in `updatedAt` order, descending exactly when "desc" was asked for. |
| GenericService.FindById | src/shared/service.ts:51-70 | A refused identifier gives incorrect input with the validator's message. One that passes the guard but cannot be cast throws. An unknown one gives not-found "Data not found". Otherwise the answer is the serialized stored record, whose `_id` is the requested identifier. When no other field is renamed to `Id`, the answer carries that identifier unprinted under `Id`. |
| GenericService.SerializedIdField | src/shared/serialize.ts:4-15 | When only `_id` is renamed to `Id`, `serialize` moves the record's identifier there unchanged. |
| GenericService.IdLeftUnprinted | src/shared/serialize.ts:13 | As written, a record with `_id` and no `id` serializes with the raw identifier under `Id` and no `id` at all. |
| GenericService.SerializeDocument | src/shared/serialize.ts:10-15 | Corrected: the keys are the records' keys renamed with `_id` as `id`, and `id` holds the record's printed identifier. |
| GenericService.DocumentIdFindable | src/shared/service.ts:51-70 | The `id` the corrected mapper prints is the record's identifier, and `findById` of it answers that record. |
| GenericService.NewRecordId | src/shared/service.ts:81-82 | The new record's identifier is the payload's own `_id` when that casts, and the minted one when the payload has none. Any other `_id` makes the save throw. |
| GenericService.NewRecord | src/shared/service.ts:81-82 | The saved record exists exactly when `deSerialize` and the `_id` cast succeed. It is a stored record. Its `_id` is the new identifier, and every other field reads as in the deserialized payload. |
| GenericService.Create | src/shared/service.ts:72-87 | A rejected payload gives incorrect input and stores nothing. A payload that `deSerialize` or the `_id` cast refuses throws, and so does an identifier already taken; neither stores anything. Otherwise exactly the new record is appended, minted `_id` included when the payload has none, and the answer is that record serialized. |
| GenericService.CreatedFields | src/shared/service.ts:81-86 | The created record holds each payload field other than the identifiers under its snake_case name, with its value unchanged. |
| GenericService.CreateThenFindById | src/shared/service.ts:51-87 | After a successful `create`, `findById` of the new record's printed identifier answers exactly what `create` answered. |
| GenericService.AssignAll | src/shared/service.ts:106-110 | After assigning the listed fields from the payload, those fields read as in the payload (absent where it has none), and every other field is unchanged. |
| GenericService.Update | src/shared/service.ts:89-117 | Validation comes before the lookup. An identifier that cannot be cast throws, and an unknown one is not found. After the lookup, a payload `deSerialize` refuses throws. None of these changes the store. On success only the target record changes, and only `name`, `is_alcohol`, `alcohol_degree` and `viscosity`, which take the deserialized payload's values. Every record keeps its identifier, and the answer is the serialized updated record. |
| GenericService.UpdateThenFindById | src/shared/service.ts:51-117 | After a successful update, `findById` of the same identifier answers exactly what the update answered. |
| GenericService.Delete | src/shared/service.ts:119-130 | On any store, an identifier that cannot be cast throws, and an unknown one gives not-found; neither changes anything. Otherwise exactly that one record is removed, and the rest are kept in their order. |
| MachineService.OrderToMachineSteps | src/services/machine/machine.ts:50-59 | One command per order step, in step order. Each command carries its step's identifier, if any, slot 1, pressed = quantity × 0.5 and a delay of 0.5. |
| MachineService.TotalPressedIsHalfQuantity | src/services/machine/machine.ts:50-59 | The total press time of an order is half its total quantity. |
| MachineService.PressedNonNegative | src/services/machine/machine.ts:55 | No command presses for a negative time when no step asks for a negative quantity. |
| MachineService.DirectMakeCocktail | src/services/machine/machine.ts:61-90 | An invalid payload answers `response: false` with an incorrect-input error, and nothing is sent. Otherwise the order's commands are sent, none of them naming a step, because the validator admits no step identifier. The answer is `response: true` without error exactly when the remote call succeeds, and a rejection exactly when it fails. |
| MachineService.ResponseIffNoError | src/services/machine/machine.ts:61-90 | A returned answer reports success exactly when it carries no error. |
| MachineConfigurationService.Find | src/services/machineConfiguration/machineConfiguration.ts:23-28 | Every stored slot is listed once, nothing is added, and the slot numbers never decrease along the list. |
| MachineConfigurationService.RequestedIngredient | src/services/machineConfiguration/machineConfiguration.ts:47-48 | The new ingredient reference is null exactly when the payload's is, and otherwise it prints as the payload's identifier. |
| MachineConfigurationService.Update | src/services/machineConfiguration/machineConfiguration.ts:30-57 | Validation comes before existence. An identifier that cannot be cast throws, and an unknown one is not found; none of these change anything. On success the target keeps its identifier and takes the payload's ingredient, volume and slot. Every other slot is unchanged, and the answer is the updated slot. |
| MachineConfigurationService.UpdatedIsListed | src/services/machineConfiguration/machineConfiguration.ts:23-57 | The slot a successful update answers with appears in the next listing. |
| OrderService.Find | src/services/order/order.ts:27-32 | One answer per stored order, in store order, each with that order's status and printed identifier. |
| OrderService.FirstMissing | src/services/order/order.ts:59-77 | The result is the first step whose ingredient is not found (its identifier does not cast, or no stored ingredient has it), or the step count when every one is found. |
| OrderService.CollectSnapshots | src/services/order/order.ts:59-77 | The loop stops exactly when some ingredient is missing, after looking up only the steps up to and including the first missing one. It throws exactly when that step's identifier cannot be cast. Otherwise it yields one serialized ingredient per step, in order. |
| OrderService.Create | src/services/order/order.ts:34-91 | The checks run in order: an existing CREATED order is forbidden, even with an invalid payload; then incorrect input; then a recipe identifier that cannot be cast throws, and an unknown one is "Recipe not found"; then, at the first missing ingredient, an identifier that cannot be cast throws, and otherwise "Ingredient not found". It throws on exactly those two paths. Every failure leaves the store unchanged, and success appends exactly one order. |
| OrderService.CreateAppends | src/services/order/order.ts:79-90 | On success, the appended order is the new order built from the looked-up recipe and ingredients, and the answer is its serialized form. |
| OrderService.NewOrderContents | src/services/order/order.ts:59-86 | The new order takes the request's status and progress and carries the recipe snapshot. Its steps match the request's in count and order, with status, index and quantity copied and the stored ingredient's snapshot in place of the identifier. |
| OrderService.CreateReplySnapshots | src/services/order/order.ts:79-90 | The successful answer carries the serialized looked-up recipe, and at each step the serialized looked-up ingredient. |
| OrderService.NewOrderSnapshots | src/services/order/order.ts:79-89 | The serialized new order shows the recipe and each ingredient exactly as their own mappers show them. |
| OrderService.CreatePreservesAtMostOneCreated | src/services/order/order.ts:34-91 | If the store holds at most one CREATED order before `create`, it holds at most one after, on every path. |
| OrderService.FirstMissingPrefix | src/services/order/order.ts:59-77 | Where the scan stops depends only on the steps up to and including the first missing ingredient. |
| OrderService.LaterStepsIrrelevant | src/services/order/order.ts:59-77 | Steps after the first missing ingredient are never looked up: changing them does not change the outcome. |
| OrderService.CreateAsWritten | src/services/order/order.ts:85-86 | As written, only an order without steps is ever stored: a request that `Create` would store with steps makes the save throw, and every other outcome is `Create`'s. |
| OrderService.CreateAsWrittenRejectsSteps | src/services/order/order.ts:85-86 | A one-step order whose recipe and ingredient are both stored is stored by `Create` but throws, storing nothing, as written. |
| RecipeService.StepsOf | src/services/recipe/recipe.ts:59-63 | A recipe's steps are exactly the stored step rows that name it. |
| RecipeService.JoinPicture | src/services/recipe/recipe.ts:57-58 | The picture is null when there is none, or when it is asked for and not stored. Otherwise it is the identifier, or the stored file when asked for. |
| RecipeService.JoinIngredient | src/services/recipe/recipe.ts:59-63 | A step joins unless its ingredient is asked for and not stored. The joined step keeps its identifier, proportion and index. |
| RecipeService.Join | src/services/recipe/recipe.ts:52-65 | A recipe joins to a document the mapper accepts, with the row's identifier, availability and timestamp and one step per step row. It always joins when ingredients are not asked for. |
| RecipeService.CheckIngredientsExist | src/services/recipe/recipe.ts:29-44 | As written the check never reports an error, whatever the identifiers. |
| RecipeService.Selected | src/services/recipe/recipe.ts:52-56 | With `isAvailable` given, exactly the recipes with that availability are returned, each as often as it is stored; without it, all recipes. They come in `updated_at` order in the requested direction. |
| RecipeService.Find | src/services/recipe/recipe.ts:46-71 | The answer is never an error value, and always succeeds without populated ingredients. There is one recipe per selected row, with that row's identifier, availability and timestamp. |
| RecipeService.FindFiltersAndOrders | src/services/recipe/recipe.ts:52-69 | Every recipe returned under a filter has the requested availability, and the answer is in `updatedAt` order. |
| RecipeService.FindById | src/services/recipe/recipe.ts:73-104 | A refused identifier gives incorrect input. One that passes the guard but cannot be cast throws, and an unknown one gives "Recipe not found". A found recipe answers exactly when it joins, and the answer is the joined recipe through the mapper. It always joins when ingredients are not asked for. |
| RecipeService.NewStepRows | src/services/recipe/recipe.ts:123-135 | One new step row per payload step, in order, naming the new recipe and the payload's ingredient, proportion and index. |
| RecipeService.Create | src/services/recipe/recipe.ts:106-140 | A rejected payload gives incorrect input and stores nothing. A payload whose picture or step ingredient is not 24 hexadecimal digits throws and stores nothing. Otherwise exactly the new recipe row (unavailable, with the payload's name, description and picture) and one step row per payload step are appended. The answer carries the new identifier, name and description, and each step's new identifier, proportion and index. |
| RecipeService.CreateIgnoresIngredientStore | src/services/recipe/recipe.ts:115-121 | `create` never fails on ingredients: its answer does not depend on which ingredients are stored. |
| RecipeService.CreateThenFindById | src/services/recipe/recipe.ts:73-140 | After a successful `create` with a fresh identifier, `findById` of the printed identifier answers exactly what `create` answered. |
| RecipeService.PatchStep | src/services/recipe/recipe.ts:193-201 | A patched step keeps its identifier and recipe, and takes the patch's ingredient, proportion and index. |
| RecipeService.JoinUnpopulated | src/services/recipe/recipe.ts:52-65 | Without population, a recipe row always joins, to the document that holds the row's fields and its step rows. |
| RecipeService.ApplyStepPatches | src/services/recipe/recipe.ts:193-201 | Step patches keep the number of steps and every step's identifier and recipe. Steps of other recipes, and steps no patch names, are unchanged. A step of the recipe takes the ingredient, proportion and index of the last patch that names it. |
| RecipeService.PatchRow | src/services/recipe/recipe.ts:167-192 | Each field the payload gives overwrites the row's, and each field it omits stays. Availability, default glass volume and creation time are kept. |
| RecipeService.Update | src/services/recipe/recipe.ts:142-209 | Validation comes before the lookup. An identifier that cannot be cast throws, and an unknown recipe is not found; neither changes anything. For a found recipe, a body `id` that `new ObjectId` refuses throws and changes nothing. Steps are only changed, never added or removed, and success requires every step patch to name an existing step of this recipe. On success the target row is patched, every other row is unchanged, and the step rows are exactly the patched ones. |
| RecipeService.UpdateTouchesOnlyTarget | src/services/recipe/recipe.ts:178-204 | A successful update changes only the target recipe row and only the step rows of that recipe. |
| RecipeService.UpdateThenFindById | src/services/recipe/recipe.ts:73-209 | After a successful update, `findById` of the same identifier answers exactly what the update answered. |
| RecipeService.Delete | src/services/recipe/recipe.ts:211-244 | An identifier that cannot be cast throws, and an unknown recipe is not found; neither changes anything. Otherwise exactly the recipe, all its step rows and its stored picture file are removed, and every other row is kept. |
| RecipeService.DeleteThenNotFound | src/services/recipe/recipe.ts:211-244 | After a delete the recipe is no longer stored, no step refers to it, and `findById` answers "Recipe not found". |
| SettingService.Create | src/services/setting/setting.ts:28-43 | A rejected setting stores nothing. An accepted one is appended once and returned. |
| SettingService.FindSettingOrCreate | src/services/setting/setting.ts:45-55 | On a non-empty store, the first setting is returned and nothing changes. On an empty store, the defaults (both timings 1) are stored and returned. |
| SettingService.Find | src/services/setting/setting.ts:57-63 | At most one setting is stored, and only on an empty store. The setting returned is the first one stored afterwards. |
| SettingService.FindIdempotent | src/services/setting/setting.ts:45-63 | Two `find`s in a row return the same setting, and the second stores nothing. |
| SettingService.Update | src/services/setting/setting.ts:65-92 | A rejected payload changes nothing. On an empty store the payload is ignored and the defaults are stored and returned. Otherwise both timings of the first setting take the payload's values, and the rest are kept. |
| SettingService.UpdateThenFind | src/services/setting/setting.ts:57-92 | After an accepted update of a non-empty store, `find` reads back the payload's timings. |

## Left out

- The remote `makeCocktail` call, its gRPC client and `console.log`: the call's outcome is the parameter `machine`. `JSON.stringify` of the commands is not modelled; the commands themselves are what is sent.
- Joi validators: each is a `rejection` parameter carrying the first message. Only the `findById` identifier guard is modelled, in `IdValidation`. As written, the generic create validator (`Joi.object({})`) rejects every field, and the generic update validator requires an `id` in the body. The models take any rejection outcome.
- Mongoose and Prisma: the ODM, schemas, defaults, timestamps and query internals are replaced by an abstract store (`Stores`, `Sorting`).
- The database's cast also accepts 12-character strings, taken as the raw bytes of an identifier, in some library versions. The model treats every identifier that is not 24 hexadecimal digits as a failed cast, and where the `findById` length guard runs, a 12-character one is refused before any cast.
- GenericService: the model works on plain records, as if the database handed `serialize` plain objects. `Object.keys` of a Mongoose document lists its internal fields, and that is not modelled.
- GenericService: the strict schema dropping unknown keys is not modelled, and neither is Mongoose's `id` virtual. A payload `id` is kept as a plain field.
- GenericService: schema validation on `save()` is not modelled. The model removes a field the update assigns `undefined`. With the Ingredient schema, where `name`, `is_alcohol` and `alcohol_degree` are required (`src/models/Ingredient.ts:30-43`), such an update throws instead. `viscosity` is not a path of that schema, so it is never stored.
- GenericService.NewRecordId: Mongoose casts a payload `_id` that is null or a number rather than failing. The model treats every `_id` other than an identifier or 24 hexadecimal digits as a failed save.
- Serialize.SerializeObject: it requires the `id` value to be an identifier or a string. `toString()` also prints a number or a boolean, and throws on null. Every record the model stores meets that requirement.
- RecipeService: `recipe.ts` calls relational (Prisma-style) methods on a Mongoose model, so as written it cannot run. It is modelled over relational rows with the intended field mapping:
  - `deSerializeRecipe` yields `picture` and `ingredient`, while the update reads `picture_id`, `ingredient_id` and `default_glass_volume`. The model uses the payload's picture and ingredients, and leaves the default glass volume unchanged.
  - The rows' `updated_at` is set from the parameter `now`.
- RecipeService.Find: with no sort direction, the store order is kept.
- RecipeService.Create: a payload without `picture` reaches `deSerializeRecipe` as `undefined`, which passes the `!== null` test, so `new ObjectId(undefined)` mints a fresh, dangling picture identifier. The model stores no picture then.
- MachineService.DirectMakeCocktail: it requires that a step carrying an identifier comes with a validator rejection, because the validator admits only the keys it lists.
- RecipeService.Find: a populated ingredient that is not stored makes the mapper throw, so it answers `Thrown`.
- RecipeService.CheckIngredientsExist: the message names no identifiers, because the list of missing ones is always empty.
- OrderService.Create: it models the intended behaviour, where each step's index arrives as `orderIndex`. As written no order with steps can be saved; see the Findings table.
- OrderService: the new order's status is the payload's, as the spread `...order` copies it. `AtMostOneCreated` holds anyway, because admission requires that no order is CREATED.
- OrderService: identifiers come from `mint`, and both timestamps from `now`.
- MachineConfigurationModel: the slot `position` is carried by neither mapper, and the model says so. `MachineConfigurationService.Update` keeps the stored position.
- Settings: `src/models/Setting.ts` has a one-field mapper (`time_for_one_quantity`), which disagrees with the two-field setting the service uses. The mapper is not part of this model; the settings are the two timings.
- Slugs: the five slugs the services name without declaring them are modelled as undefined values (`Errors.SlugValue`).
- Error constructors: they are modelled (`Errors.New*Error`), but their rows are the lemmas above, because their contracts only restate the record they build.
- `getInstance` singletons, HTTP controllers, routes, server bootstrap, configuration and database connections: no decision logic.
- The image handling of the file service: stream I/O and a foreign image library.
- `src/services/ingredient/ingredient.ts`: a validate-then-insert pass-through, covered by the generic service.
- `src/models/RecipeIngredient.ts`: stale code importing types that do not exist.
- `src/services/ingredient/ingredient.test.ts`: it exercises an authentication service absent from the repository.
- Dose splitting, viscosity scaling, availability recomputation and order dispatch after creation: absent from the source.

## Findings

| source | as written | input that shows it | evidently intended | confidence | as-written member | corrected member |
|---|---|---|---|---|---|---|
| src/shared/service.ts:47 | `find` returns `serialize(list)`. `serialize` folds over the array's own keys "0", "1", ..., so the answer is one object mapping positions to raw, unrenamed records. | A store holding one record `{ _id: x, is_alcohol: true }` answers `{ "0": { _id: x, is_alcohol: true } }`. | `serializes(list)`, as every other list answer does: `[{ Id: x, isAlcohol: true }]`. | not executed | GenericService.FindAsWritten (with GenericService.FindAsWrittenLeaksRawRecords) | GenericService.Find (with GenericService.FindOrdered) |
| src/shared/serialize.ts:13 | `serialize` prints the value of a key named `id`. A database document carries its identifier under `_id`, which `camelCase` renames to `Id`, so the branch never fires for it. | A record `{ _id: x, name: "Rum" }` serializes to `{ Id: x, name: "Rum" }`: no `id`, and the identifier unprinted. | Print the identifier under `id`, as the per-model mappers do (`src/models/Ingredient.ts:8-13`): `{ id: "<printed x>", name: "Rum" }`. | not executed | Serialize.SerializeObject (with GenericService.IdLeftUnprinted) | GenericService.SerializeDocument (with GenericService.DocumentIdFindable) |
| src/services/order/order.ts:86 | The validator (`src/services/order/validators.ts:9-14`) requires each step's index under `order` and refuses any other key. `deSerializeOrder` (`src/models/Order.ts:38`) copies `step.orderIndex` into `order_index`, which the schema requires (`src/models/Order.ts:71-73`). | Any order with one step whose recipe and ingredient are stored: the step has no `orderIndex`, so `save()` fails validation and `create` throws. | Read the index from the key the validator demands, or let the validator demand `orderIndex`, so that the order is stored and returned. | not executed | OrderService.CreateAsWritten (with OrderService.CreateAsWrittenRejectsSteps) | OrderService.Create (with OrderService.CreateAppends) |
