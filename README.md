# Real-estate site: a verified model of its decision logic

This project models the core of a small real-estate site. The site has an
Express/SQLite server with property, user and setting routes, a login and
two token gates, and a seeding step. Its React client has the admin
property form, the public filter panel, the industrial listing page, the
settings screen and the contact form. Each source file of the core is one
Dafny module:

- `validations.dfy` (`Validations`): the property payload schema. A shared
  base of field rules is extended per category, and a union dispatches on `type`.
- `schema.dfy` (`Schema`): the table rows, column defaults, uniqueness and
  reference constraints, and the insert of a request body.
- `tokens.dfy` (`Tokens`): the bearer-token extraction `split(' ')[1]` and
  the `validateToken` gate that the users and settings routes share.
- `auth_routes.dfy` (`AuthRoutes`): login over the admins table, and the
  `verifyToken` gate.
- `admin_middleware.dfy` (`AdminMiddleware`): the `validateAdmin` role gate
  and its last-login refresh.
- `properties_routes.dfy`, `users_routes.dfy`, `settings_routes.dfy`: the
  three tables as classes over `map<int, Row>`, whose handlers are methods.
- `init_db.dfy` (`InitDb`): the three emptiness-guarded seed inserts.
- `property_form.dfy` (`PropertyForm`): the admin form's ordered check
  chain, its image-list state and the early exit of its submit handler.
- `property_filters.dfy`, `industrial_page.dfy`, `listings.dfy`: the filter
  panel's state, the industrial page's filter over the sample listings,
  and the listing data.
- `settings_manager.dfy` (`SettingsManager`): the grouping reduce, the
  save guard, the retry rule, and the 401 and array checks.
- `contact_form.dfy` (`ContactForm`): the contact schema and the submit button.
- `text.dfy`, `tables.dfy`, `wrappers.dfy`: JavaScript's `trim` and
  `split(' ')`, SQLite's binary text order, auto-increment tables, and
  `Option`/`Result`.

Outside code is passed in as function parameters:

- `jwt.verify` is `verify: string -> Verification`, which returns claims,
  a `JsonWebTokenError`, or another fault.
- `jwt.sign` is `sign: (Claims, int, int) -> string`, given the claims,
  the issue time `iat` (the login's `now`) and the expiry `exp` (24 hours
  later).
- `bcrypt.compare` and `bcrypt.hash` are `passwordMatches` and `hash`.
- `URL.createObjectURL` is `url`.
- `fetch` is `send`.
- zod's email check is `isEmail`.
- The clock is a `now: int` parameter.

Nothing is assumed about what these functions compute. Being functions,
though, they are deterministic: `url` gives equal files the same preview
URL, while `URL.createObjectURL` hands out a fresh URL on every call; and
`send` gives the same response to the same request, while two `fetch`
calls may be answered differently. `sign` gives the same token for the same
claims and times; two logins at different times pass different `iat` and
`exp`, as `jwt.sign` stamps them. `hash` gives the same hash for the same
password, while `bcrypt.hash` salts at random, so the seeded admin's stored
hash differs from run to run; `passwordMatches` is what accepts it.

Four discrepancies in the source are stated as lemmas rather than hidden
(the last two are also listed under "## Findings"):

- The property routes never run the validator, so a price of 0 is stored.
  See `PropertyRoutes.StoreAcceptsNonPositivePrice`.
- `validateAdmin` reads a `userId` claim, but login signs `{ id, username }`.
  So a token issued by login is always refused with 403. See
  `AdminMiddleware.LoginTokenRefused`. `validateAdmin` is not mounted on
  any route, and the routes use the two other gates.
- `POST /api/users` inserts a `createdAt` key, which names no column, so
  the NOT NULL `created_at` is left empty and every insert fails with 500.
  See `UserRoutes.CreateAsWrittenFails`.
- `validateAdmin` sets a `lastLogin` key, which names no column, so its
  UPDATE has nothing to set and an admin gets 500 instead of `next`. See
  `AdminMiddleware.AdminPathFailsAsWritten`.

## Model

| member | source | states |
|---|---|---|
| Validations.ParseIffNoIssues | shared/validations.ts:9-47 | the union accepts a payload exactly when it breaks none of the rules of the base schema and of the variant its `type` selects |
| Validations.ParsedIsWellFormed | shared/validations.ts:9-40 | a parsed property satisfies every field rule: name ≥ 3, location ≥ 5, property_type ≥ 3, price > 0, surface > 0, description ≥ 10, and the category's own rules; its category is the payload's `type` |
| Validations.ParseToPayload | shared/validations.ts:43-47 | every well-formed property, written back as a payload, parses to itself (round trip) |
| Validations.StatusDefaultsToActive | shared/validations.ts:5-18 | an absent status parses as `active`; a status outside active/inactive/sold/rented, or a listing_type other than sale/rent, is rejected |
| Validations.UnknownTypeRejected | shared/validations.ts:43-47 | a payload whose `type` is none of the three tags is rejected with the discriminator issue alone |
| Validations.IndustrialRules | shared/validations.ts:23-27 | an industrial payload is accepted iff the base rules hold, construction > 0 and technical_sheet is non-empty |
| Validations.CommercialRules | shared/validations.ts:30-34 | a commercial payload is accepted iff the base rules hold, local_size is non-empty, and construction, when present, is > 0 |
| Validations.ResidentialRules | shared/validations.ts:37-40 | a residential payload is accepted iff the base rules hold and construction > 0 |
| Validations.OtherVariantsIgnored | shared/validations.ts:43-47 | each tag is checked only against its own variant: local_size matters only to a commercial payload and technical_sheet only to an industrial one |
| Schema.RowFromBodyOf | shared/schema.ts:32-50 | inserting the columns of a stored row reproduces that row, with the new timestamps |
| Schema.InsertNeedsRequiredColumns | shared/schema.ts:32-50 | an insert succeeds iff every NOT NULL column without a default is present; the row then holds the body's values, and status defaults to `active` |
| Schema.LocalSizeNotStored | shared/schema.ts:42 | local_size has no column, so two payloads that differ only in it write the same columns |
| Schema.StoredCommercialRowRejected | shared/schema.ts:42 | no stored commercial row, read back, passes the commercial schema: its local_size is missing |
| Schema.InsertUserNeedsRequiredColumns | shared/schema.ts:4-13 | a users insert succeeds iff name, email and created_at are given; role and status default to `user` and `active`, the rest is stored as given, and a stored user's columns insert back to it |
| Schema.UpdateUserChangesNamedColumns | shared/schema.ts:4-13 | a users update fails iff its object names no column; otherwise exactly the named columns change, and repeating it changes nothing |
| Tokens.BearerTokenOfHeader | server/src/routes/auth.ts:57 | a header `<scheme> <token>` yields the token |
| Tokens.BearerTokenIsSecondField | server/src/routes/auth.ts:57 | any token extracted is a non-empty second space-separated field of the header |
| Tokens.NoSecondFieldNoToken | server/src/routes/auth.ts:57-61 | a header with no space yields no token |
| Tokens.ValidateTokenOutcomes | server/src/routes/users.ts:11-29 | `validateToken` passes iff a token is present and verifies, and then carries its claims; no token gives 401, a JsonWebTokenError 401, any other fault 500 |
| AuthRoutes.VerifyTokenOutcomes | server/src/routes/auth.ts:56-70 | `verifyToken` passes iff a token is present and verifies; every rejection is 401; where it passes it agrees with `validateToken` |
| AuthRoutes.AdminStore.Login | server/src/routes/auth.ts:11-48 | an unknown username and a wrong password both give 401 and change nothing; a match sets only that admin's last_login to `now` and returns the token signed over its id and username, issued at `now` and expiring 24 hours later |
| AdminMiddleware.AdminDecisionOutcomes | server/src/middleware/auth.ts:14-47 | the gate calls `next` iff a verified token's `userId` names an admin; without a token or on a JsonWebTokenError it answers 401, on another fault 500, and for a verified non-admin 403 |
| AdminMiddleware.AdminGateStricter | server/src/middleware/auth.ts:22-32 | every request `validateAdmin` lets through also passes `verifyToken`, with the same user id |
| AdminMiddleware.LoginTokenRefused | server/src/middleware/auth.ts:27 | a token carrying the claims login signs is always refused with 403 |
| AdminMiddleware.AdminPathFailsAsWritten | server/src/middleware/auth.ts:34-46 | as written, the `lastLogin` update names no column and throws, so every admin gets 500 and no request gets through; refusals are unchanged |
| AdminMiddleware.LastLoginSetUpdates | server/src/middleware/auth.ts:34-38 | the evidently intended `last_login` update succeeds and changes last_login alone |
| AdminMiddleware.ValidateAdmin | server/src/middleware/auth.ts:14-47 | a refusal changes no user; letting a request through refreshes only that admin's last_login |
| PropertyRoutes.MergeTakesBodyElseRow | server/src/routes/properties.ts:77-85 | an update sets each column the body carries to the body's value, keeps every other column, and sets updated_at to `now` |
| PropertyRoutes.MergeEmpty | server/src/routes/properties.ts:77-85 | an empty body only refreshes updated_at |
| PropertyRoutes.MergeFullBody | server/src/routes/properties.ts:77-85 | sending every column of a row replaces the stored row by it, except that an absent construction or technical_sheet keeps the stored value |
| PropertyRoutes.MergeIdempotent | server/src/routes/properties.ts:77-85 | repeating an update changes nothing more |
| PropertyRoutes.MergeTwice | server/src/routes/properties.ts:77-85 | two updates in a row equal one update with the second body laid over the first |
| PropertyRoutes.OverlayAssociative | server/src/routes/properties.ts:77-80 | laying bodies over each other is associative |
| PropertyRoutes.OverlayEmpty | server/src/routes/properties.ts:77-80 | the empty body is neutral on both sides |
| PropertyRoutes.DeleteKeepsReferencesIff | server/src/db.ts:61 | with every image referencing a stored property, removing a property keeps all references valid iff no image names it, which is when the enforced foreign key lets the DELETE through |
| PropertyRoutes.StoreAcceptsNonPositivePrice | server/src/routes/properties.ts:40-49 | a body with price 0 is stored, although the property schema rejects it |
| PropertyRoutes.PropertyStore.List | server/src/routes/properties.ts:10-13 | every stored property is listed, unfiltered, each once, with no token required (the id order is the model's choice) |
| PropertyRoutes.PropertyStore.Get | server/src/routes/properties.ts:21-32 | a present id yields exactly its row; an absent id yields 404 |
| PropertyRoutes.PropertyStore.Create | server/src/routes/properties.ts:40-54 | after `verifyToken`, the body is stored unchanged under a fresh id with created_at = updated_at = `now`; no validation runs |
| PropertyRoutes.PropertyStore.Update | server/src/routes/properties.ts:65-90 | after `verifyToken`, an absent id gives 404 and changes nothing; otherwise only that row changes, to the body merged over it |
| PropertyRoutes.PropertyStore.InsertImage | server/src/db.ts:53-62 | an image of a stored property is added under a fresh id with is_main defaulting to 0, created_at = `now` and no updated_at, after which that property is referenced; an image of a missing property is refused by the foreign key and nothing changes |
| PropertyRoutes.PropertyStore.Delete | server/src/routes/properties.ts:101-127 | after `verifyToken`, an absent id gives 404 and changes nothing; a property some image names is refused by the foreign key, answered with 500, and nothing changes; otherwise exactly that row goes; every image keeps referencing a stored property |
| UserRoutes.ApplyChangesOnlyBodyFields | server/src/routes/users.ts:94-98 | an update sets name and email, sets phone/role/status when given, and leaves created_at and last_login untouched |
| UserRoutes.SortByName | server/src/routes/users.ts:34 | `ORDER BY name` gives a permutation of the rows sorted by name |
| UserRoutes.UserStore.List | server/src/routes/users.ts:32-40 | after the token gate, every user is listed once, ordered by name |
| UserRoutes.ApplyIsUpdate | server/src/routes/users.ts:94-98 | the update handler's row is the users UPDATE of `{ name, email, phone, role, status }`, which never fails |
| UserRoutes.CreateAsWrittenFails | server/src/routes/users.ts:57-64 | as written, the insert object carries no created_at, so every insert breaks the NOT NULL constraint and no user is added |
| UserRoutes.CreateColumnsInsert | server/src/routes/users.ts:57-64 | with created_at set to now, the insert succeeds and stores the body's fields, the role and status defaults, created_at = now and no last login |
| UserRoutes.UserStore.Create | server/src/routes/users.ts:43-71 | an email already held gives 400 and changes nothing; otherwise exactly one user is added, and emails stay unique |
| UserRoutes.UserStore.Update | server/src/routes/users.ts:74-109 | an email held by a different user gives 400 before the id is looked up; keeping one's own email is accepted; an absent id gives 404; otherwise only that user's five body fields change |
| UserRoutes.UserStore.Delete | server/src/routes/users.ts:112-130 | an absent id gives 404; otherwise exactly that user is removed |
| SettingRoutes.SettingStore.List | server/src/routes/settings.ts:32-40 | after the token gate, every setting is listed once |
| SettingRoutes.SettingStore.Update | server/src/routes/settings.ts:43-66 | an absent key gives 404 and creates nothing; otherwise only the row with that key changes, in value and updated_at; the keys and the row count never change |
| SettingRoutes.KeyCountIsRowCount | shared/schema.ts:17 | with unique keys there are as many distinct keys as rows, so the invariant key set also fixes the number of settings |
| InitDb.SeedSettings | server/src/init-db.ts:22-45 | three settings are seeded, all stamped with the same `now` and all described |
| InitDb.SeedSettingKeysDistinct | server/src/init-db.ts:23-45 | the seeded keys are pairwise distinct |
| InitDb.SeedPropertiesShape | server/src/init-db.ts:52-103 | three properties are seeded, one per category in the order industrial, commercial, residential, each with created_at = updated_at = `now` |
| InitDb.SeedPropertiesAgainstSchema | server/src/init-db.ts:71-86 | read back through the schema, the industrial and residential seeds pass and the commercial seed fails |
| InitDb.SecondRunInsertsNothing | server/src/init-db.ts:9-51 | once seeded, a second seeding of any of the three tables inserts nothing |
| InitDb.InitializeDatabase | server/src/init-db.ts:5-111 | each table gets its seed rows exactly when it was empty and is left alone otherwise |
| Tables.Appended | server/src/init-db.ts:46 | a multi-row insert keeps every old row, places the new rows under consecutive ids from the next id on, in order, and adds nothing else |
| Tables.SeededNotEmpty | server/src/init-db.ts:20-47 | a guarded seed with at least one row leaves the table non-empty |
| Tables.SeededTwice | server/src/init-db.ts:20-47 | a second guarded seed changes nothing once the first inserted rows |
| InitDb.InitializeTwice | server/src/init-db.ts:9-51 | two runs leave every table as the first run left it, and none of them empty |
| PropertyForm.FirstFailure | client/src/components/properties/PropertyForm.tsx:123-180 | the chain reports no error iff every check passes |
| PropertyForm.ValidateFormIsFirstFailure | client/src/components/properties/PropertyForm.tsx:123-180 | `validateForm` returns the message of the first failing check in source order, and null iff every check passes |
| PropertyForm.RefusalIsFirstFailingCheck | client/src/components/properties/PropertyForm.tsx:123-180 | a refusal names a failing check, and every earlier check passed |
| PropertyForm.BlankFieldsRefused | client/src/components/properties/PropertyForm.tsx:135-166 | a name, location or description that is blank after trimming is refused |
| PropertyForm.ConstructionCheckedWhenPresent | client/src/components/properties/PropertyForm.tsx:160 | construction is checked only when defined and must then be > 0; a construction of 0 is refused |
| PropertyForm.SheetOnlyForIndustrial | client/src/components/properties/PropertyForm.tsx:170 | technical_sheet must be non-blank only for an industrial property |
| PropertyForm.InitialFormRefused | client/src/components/properties/PropertyForm.tsx:20-36 | the initial form is refused, first for its empty name |
| PropertyForm.FormAcceptsShortName | client/src/components/properties/PropertyForm.tsx:135 | the form accepts a name shorter than 3 characters that the shared schema rejects |
| PropertyForm.SchemaAcceptsBlankName | client/src/components/properties/PropertyForm.tsx:135 | the converse gap: a name of three spaces passes the schema's length rule, but the form refuses it |
| PropertyForm.CommercialFormNeverParses | client/src/components/properties/PropertyForm.tsx:20-36 | the form has no local_size, so no commercial form passes the shared schema |
| PropertyForm.Without | client/src/components/properties/PropertyForm.tsx:101-107 | filtering out index i removes exactly that element and keeps the order of the rest; an index out of range removes nothing |
| PropertyForm.WithoutKeepsPairs | client/src/components/properties/PropertyForm.tsx:101-107 | removing the same index from the files and their preview URLs keeps each URL paired with its file |
| PropertyForm.Previews | client/src/components/properties/PropertyForm.tsx:96 | one preview URL per new file, in order |
| PropertyForm.FormState.HandleImageChange | client/src/components/properties/PropertyForm.tsx:89-99 | new files go after the existing ones, and the preview URLs grow by the same count and stay paired |
| PropertyForm.FormState.RemoveImage | client/src/components/properties/PropertyForm.tsx:101-108 | index i goes from both lists, which stay paired |
| PropertyForm.FormState.HandleLocationSelect | client/src/components/properties/PropertyForm.tsx:110-117 | the selected location and the form's latitude/longitude become the same pair |
| PropertyForm.FormState.HandleSubmit | client/src/components/properties/PropertyForm.tsx:182-190 | when validation fails the error is shown and nothing is sent; otherwise the form and images are sent and the error is cleared |
| PropertyFilters.SubtypesChoice | client/src/components/properties/PropertyFilters.tsx:50 | the subtype options are the industrial list iff the page is industrial, otherwise the residential list |
| PropertyFilters.ApplyChangesOnlyNamedField | client/src/components/properties/PropertyFilters.tsx:44-45 | an edit replaces only the named field |
| PropertyFilters.EditsCompose | client/src/components/properties/PropertyFilters.tsx:44-45 | a second edit of the same field overrides the first; edits of different fields commute |
| PropertyFilters.BoundEditKeepsOtherEnd | client/src/components/properties/PropertyFilters.tsx:118-144 | editing one bound of the price or surface range keeps the other bound and the other range |
| PropertyFilters.FilterPanel.constructor | client/src/components/properties/PropertyFilters.tsx:35-42 | the panel starts with the given type, `sale`, empty location and subtype, and ranges 0..999999999 and 0..999999 |
| PropertyFilters.FilterPanel.HandleChange | client/src/components/properties/PropertyFilters.tsx:44-48 | the stored filters become the edited record, and that same record is handed to the parent |
| PropertyFilters.FilterPanel.HandleBoundInput | client/src/components/properties/PropertyFilters.tsx:115-145 | a number input replaces one bound and keeps the other |
| IndustrialPage.Filtered | client/src/pages/industrial.tsx:24-34 | a listing is in the result iff it is in the input and matches |
| IndustrialPage.FilteredCounts | client/src/pages/industrial.tsx:24-34 | each matching listing occurs in the result as often as in the input, and no other listing occurs |
| IndustrialPage.FilteredIsSubsequence | client/src/pages/industrial.tsx:25 | the result keeps the listings' original order |
| IndustrialPage.WeakerFilterKeepsMore | client/src/pages/industrial.tsx:25-33 | a filter that matches more keeps a supersequence |
| IndustrialPage.WideningKeepsListings | client/src/pages/industrial.tsx:30-31 | widening a price or surface range never removes a listing |
| IndustrialPage.OnlyIndustrialListed | client/src/pages/industrial.tsx:26 | every listed property is an industrial sample property |
| IndustrialPage.InitialListing | client/src/pages/industrial.tsx:15-34 | with the initial filters the page lists exactly sample property `1` |
| SettingsManager.InGroup | client/src/components/SettingsManager.tsx:252-259 | a group holds exactly the settings of its key |
| SettingsManager.InGroupCounts | client/src/components/SettingsManager.tsx:252-259 | each setting of the key occurs in its group as often as in the input, and no other setting occurs |
| SettingsManager.GroupsAreInGroup | client/src/components/SettingsManager.tsx:252-259 | the grouping maps each key to exactly its settings in input order, with no empty group |
| SettingsManager.EachSettingInItsGroup | client/src/components/SettingsManager.tsx:253-257 | every setting lands in the group its category names (`General` when empty), and a group holds nothing else |
| SettingsManager.Categories | client/src/components/SettingsManager.tsx:252-259 | the group keys without repeats |
| SettingsManager.GroupSizesAddUp | client/src/components/SettingsManager.tsx:252-259 | the group sizes add up to the number of settings |
| SettingsManager.InheritedCategoryBreaksGrouping | client/src/components/SettingsManager.tsx:252-259 | as written, one setting of category `constructor` makes the reduce throw |
| SettingsManager.AsWrittenAgreesOtherwise | client/src/components/SettingsManager.tsx:252-259 | away from the inherited names, the reduce as written gives the intended grouping |
| SettingsManager.GroupSettings | client/src/components/SettingsManager.tsx:252-259 | the accumulating loop computes the reduce as written |
| SettingsManager.ShouldRetry | client/src/components/SettingsManager.tsx:163-168 | a retry happens only while fewer than three attempts have failed |
| SettingsManager.AttemptsBounded | client/src/components/SettingsManager.tsx:163-168 | a query that keeps failing runs at most four times, exactly four when no run reports an expired session, and stops right after the first expired session |
| SettingsManager.RetryRule | client/src/components/SettingsManager.tsx:163-168 | an expired session is never retried; any other error is retried iff fewer than three attempts have failed |
| SettingsManager.SaveRule | client/src/components/SettingsManager.tsx:61-74 | a blank value sets an error and is not saved; otherwise the save gets the setting's own key and the trimmed value |
| SettingsManager.Session.LoadSettings | client/src/components/SettingsManager.tsx:136-162 | no stored token, or an empty one, fails with `No hay sesión activa` and sends nothing; a 401 drops the stored token and fails with `Sesión expirada`; another failure status and a non-array body are errors; otherwise the settings |
| SettingsManager.Session.SaveSetting | client/src/components/SettingsManager.tsx:172-196 | no stored token, or an empty one, fails with `No hay sesión activa` and sends nothing; a 401 drops the stored token and fails with `Sesión expirada`; another failure status is an error |
| ContactForm.Failing | client/src/components/home/ContactForm.tsx:21-27 | an issue is reported iff its rule fails |
| ContactForm.IssueIffRuleBroken | client/src/components/home/ContactForm.tsx:21-27 | each issue is reported iff its field breaks its rule: name shorter than 2, an address the email check refuses, phone shorter than 10, empty interest, message shorter than 10 |
| ContactForm.ValidIffAllRulesHold | client/src/components/home/ContactForm.tsx:21-27 | the form is valid, and so the submit button (`disabled={!form.formState.isValid}`, line 331) enabled, iff all five rules hold |
| ContactForm.DefaultsRefused | client/src/components/home/ContactForm.tsx:35-41 | the untouched form cannot be submitted: the name, phone, interest and message rules fail |
| ContactForm.PhoneOfSpacesAccepted | client/src/components/home/ContactForm.tsx:24 | the phone rule counts characters of any kind: ten spaces pass it |
| ContactForm.RulesAreIndependent | client/src/components/home/ContactForm.tsx:21-27 | changing any one of the five fields changes no other field's issues |
| Text.TrimEmptyIffBlank | client/src/components/properties/PropertyForm.tsx:135 | `s.trim()` is empty iff every character of `s` is white space |
| Text.JoinSplit | server/src/routes/auth.ts:57 | the header is the pieces of `split(' ')` joined by single spaces, and no piece holds a space |

## Left out

- Rendering, layout, animation, translations, toasts, navigation and
  `console` logging: they have no behaviour beyond display.
- The server's Express wiring, `db.ts` (the DDL and the health check) and
  the database driver. Each route is one atomic method on its table. The
  500 answers for a failing database are not modelled, except for the
  insert of a body that lacks a NOT NULL column.
- `jwt`, `bcrypt`, `fetch`, `URL.createObjectURL`, `localStorage` and zod's
  email check are parameters with no properties beyond being deterministic
  functions (see above); token expiry is one kind of `JsonWebTokenError`.
- `Date.now` is a `now` parameter. Each seeding block reads the clock once,
  as its own parameter.
- `parseInt` on ids: ids are `int`.
- `Number(...)` in the filter inputs, and the JavaScript coercions in
  `handleInputChange`, are left out: inputs arrive as typed values.
- Float rounding: prices, surfaces and coordinates are `real`.
- JSON bodies with `null` or wrongly typed fields: a field is either
  absent (`None`) or of its declared type.
- String lengths count characters, not UTF-16 code units.
- `URL.revokeObjectURL` in `removeImage`: it frees memory and changes no state.
- The property form's loading of an existing property and its images, and
  the multipart request of the submit, are left out. `HandleSubmit` ends
  where the data leaves the form.
- The contact form's `onSubmit` (fetch, toast, reset) is left out.
- The order of the tabs on the settings screen (`Object.keys` order) is not
  modelled; the grouping map is.
- The settings screen's `updatedAt` field name differs from the server's
  `updated_at`; the screen never reads it for a decision.
- No core route writes property_images; the store's `InsertImage` stands
  for the insert that the table definition allows, so that a DELETE can
  meet a referencing image. The foreign key of db.ts:61 is enforced
  (better-sqlite3 turns foreign keys on by default); the model states both
  of its effects, the refused image insert and the refused DELETE.
- UserRoutes.UserStore.Create: server/src/routes/users.ts:63 writes a
  `createdAt` key while the column is `created_at` (NOT NULL, no default).
  As written, every `POST /api/users` therefore answers 500 and adds no
  user (`UserRoutes.CreateAsWrittenFails`). The store method stores
  `created_at := now`, as evidently intended.
- AdminMiddleware.ValidateAdmin: server/src/middleware/auth.ts:37 writes
  `lastLogin` while the column is `last_login`. As written, the UPDATE has
  no column to set and throws, so an admin gets 500 instead of `next`
  (`AdminMiddleware.AdminPathFailsAsWritten`). The method refreshes
  `last_login`, as evidently intended. A `userId` that finds no user is
  refused with 403, as for a non-admin.
- The rows of `GET /api/properties` and `GET /api/settings` are listed in
  id order. The source's SELECT has no ORDER BY, so SQLite promises no
  order; id order is the model's choice.
- PropertyRoutes.PropertyStore.Create: a body `id` is not modelled. `POST
  /api/properties` spreads the whole body into the insert, so a body carrying
  `id` picks the row's id, or fails with 500 when that id is taken; the model
  always uses the next id.
- UserRoutes.UserStore.Update: name and email are always present in the
  model's body. In users.ts:77-98 they are destructured from whatever body
  arrives, so a PUT without `email` keeps the stored email (drizzle skips
  undefined), and a PUT naming none of the five fields has an empty SET and
  answers 500. `UserRoutes.ApplyIsUpdate` never fails only because name and
  email are present. UserRoutes.UserStore.Create likewise takes them as
  present.
- `PropertyBody` has no `id` field. `PUT /api/properties/:id` spreads the
  whole request body into `.set`, so a body carrying `id` would move the row
  to that id. The model keeps the row under its id.
- The retry policy is React Query's `retry` callback; `Attempts` assumes
  that React Query calls it after each failure with the number of
  failures before it, starting at 0.
- PropertyRoutes.MergeFullBody: an absent construction or technical_sheet
  cannot clear the stored value, so a full row replaces the stored one only
  up to those two columns.
- `ORDER BY name` is modelled with SQLite's default binary collation, as
  code-point order (`Text.AtMost`); rows with equal names may come in any order.

## Findings

| source | as written | input that shows it | evidently intended | confidence | as-written member | corrected member |
|---|---|---|---|---|---|---|
| client/src/components/SettingsManager.tsx:252-259 | the reduce starts from `{}`, so `acc[category]` finds the inherited `Object.prototype` member for a category such as `constructor`, `toString` or `__proto__`; the `!acc[category]` test is then false and `.push` throws, so the screen gets no grouping | one setting whose category is `constructor` | every setting grouped under its category, whatever the category's name | not executed | SettingsManager.InheritedCategoryBreaksGrouping | SettingsManager.GroupSizesAddUp |
| server/src/routes/users.ts:57-64 | the insert object has a `createdAt` key, which names no column of `users`; drizzle drops it, the NOT NULL `created_at` (no default) stays empty, and the insert fails with 500 | any body of `POST /api/users` whose email is not yet taken | the new user stored with `created_at` = now | not executed | UserRoutes.CreateAsWrittenFails | UserRoutes.CreateColumnsInsert |
| server/src/middleware/auth.ts:35-38 | `.set({ lastLogin })` names no column of `users`, so the UPDATE has nothing to set and throws; the catch answers 500 | a verified token whose `userId` names an admin | the admin's `last_login` set to now and `next()` called | not executed | AdminMiddleware.AdminPathFailsAsWritten | AdminMiddleware.LastLoginSetUpdates |
