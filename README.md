# Sensor monitoring back end: a verified model

This project models the in-memory core of a small NestJS back end for greenhouse sensor monitoring. The back end has four services:

- **`SensorsService`** keeps a registry of sensors and a log of readings. The log is bounded at 1000 entries. The service generates synthetic readings: a seeded history, periodic readings and calibration runs. It answers per-sensor queries, newest first, and builds the per-sensor snapshot that is broadcast to dashboards. Each snapshot entry carries the region tag, the latest temperature and the latest humidity.
- **`UsersService`** holds the user table loaded from a JSON file. It offers first-match lookups by username, e-mail and reset token, an `update` that merges a partial record into the first record with an id (JavaScript object spread), and a listing with passwords removed.
- **`AuthService`** checks plaintext credentials. It also runs the password-reset token life cycle: it issues a token valid for one hour and stores it before the mail is sent. A reset accepts an unexpired token, sets the new password and nulls the token.
- **`SensorsGateway`** keeps the list of connected socket clients. A client is added on connect when its username is known, and its entries are removed on disconnect.

The state of each service is a Dafny `class` whose fields are sequences that the methods reassign. The data that flows between services is Dafny datatypes. Pure queries are functions with the lemmas about them.

These inputs become parameters:

- the clock (`Date.now()`, `new Date()`);
- the random source (`Math.random()`), as already-rounded draws;
- the uuid generator, as fresh ids;
- the host calendar formatting, as a function from timestamps to date/time/weekday strings;
- the reset token;
- whether the mail transport succeeded.

Units:

- Timestamps are integer milliseconds.
- Temperatures are integer tenths of a degree.

Files:

- `wrappers.dfy`: `Option` and `Result`.
- `seqs.dfy`: the JavaScript array and string primitives the services rely on: `find`/`findIndex`, `filter`, `slice(-n)`, `slice(0, n)` and `includes`.
- `sensors.dfy`: module `Sensors`.
- `users.dfy`: module `Users`.
- `auth.dfy`: module `Auth`.
- `gateway.dfy`: module `Gateway`.

Some behaviours of the code are easy to misread; the model follows the code:

- `removeSensor` answers `true` even for an unknown id.
- The seeded history uses bases of 22 degrees and 55 percent for every sensor kind. The per-kind bases of 25/22 and 60/55 are used only by `generateReadingFor`.
- The comparator sorts by timestamp in non-increasing order. Readings with equal timestamps keep their log order; there is no strict descent.
- `resetPassword` treats an expiry of `0` like a missing one, because of JavaScript falsiness. An expiry equal to "now" is accepted.
- A negative `limit` in `listReadingsForSensor` counts from the back, as `slice(0, limit)` does.
- `findAll` removes only the password. Each user's reset token and its expiry stay visible in the listing.

## Model

| member | source | states |
|---|---|---|
| Seqs.FindFirst | src/users/users.service.ts:57 | `findIndex`: the index it returns holds a match and no earlier index does; "nothing" means no index matches |
| Seqs.Filter | src/sensors/sensors.service.ts:42-43 | `filter`: no longer than the input, keeps only elements that pass, and keeps every element that passes |
| Seqs.Newest | src/sensors/sensors.service.ts:51 | `slice(-n)` for a positive `n`: the last `min(n, length)` elements, in their original order |
| Seqs.NewestAppend | src/sensors/sensors.service.ts:48-51 | trimming to the newest `n` after each push gives the same log as trimming once after all the pushes |
| Seqs.SliceTo | src/sensors/sensors.service.ts:58 | `slice(0, end)`: a prefix, whose length follows JavaScript's rules for a negative or oversized end |
| Seqs.Includes | src/sensors/sensors.service.ts:149 | `includes`: a sequence includes each of its prefixes, and nothing longer than itself |
| Seqs.IncludesSuffix | src/sensors/sensors.service.ts:149 | a name that ends in a label includes that label |
| Seqs.IncludesIffOccurs | src/sensors/sensors.service.ts:149 | `name.includes(label)` holds exactly when the label occurs at some position of the name |
| Sensors.RandomHumidity | src/sensors/sensors.service.ts:67-70 | the humidity is always within [0, 100]; it equals base plus deviation when that is in range, else 0 below and 100 above |
| Sensors.TemperatureBase | src/sensors/sensors.service.ts:84 | the temperature base is 25 degrees for a temperature sensor and 22 for any other kind |
| Sensors.HumidityBase | src/sensors/sensors.service.ts:85 | the humidity base is 60 percent for a humidity sensor and 55 for any other kind |
| Sensors.SampleReading | src/sensors/sensors.service.ts:80-96 | the generated reading is for the sensor and stamped now; temperature base is 25 degrees for temperature sensors and 22 otherwise; humidity base is 60 for humidity sensors and 55 otherwise, clamped |
| Sensors.SampleWithinVariance | src/sensors/sensors.service.ts:62-70 | for draws `Math.random()` can produce, the temperature stays within 6 degrees of its base and the humidity clamp never alters the value |
| Sensors.Generated | src/sensors/sensors.service.ts:124-125 | the periodic round yields one reading per sensor, in registry order, each for that sensor and stamped with its sample time |
| Sensors.Perturb | src/sensors/sensors.service.ts:134 | the calibration nudge moves the temperature by exactly the nudge and leaves every other field of the reading as it was |
| Sensors.Calibration | src/sensors/sensors.service.ts:131-140 | a calibration returns exactly `iterations` readings (none for a non-positive count), all for the sensor, each with the sampled temperature moved by its nudge |
| Sensors.HistoricReading | src/sensors/sensors.service.ts:107-118 | a seeded reading is for the sensor, stamped at its slot time, noted `historic simulated`, and otherwise is the reading `generateReadingFor` would make for a combo sensor (bases 22 and 55), so its humidity is in [0, 100] |
| Sensors.History | src/sensors/sensors.service.ts:103-122 | the seeded history has 13 readings per sensor, grouped by sensor in registry order, all within the last 60 minutes, with humidity in [0, 100] |
| Sensors.SeedSensors | src/sensors/sensors.service.ts:15-18 | six sensors, one per given id in order, each with its own creation time; a temperature sensor then a combo sensor per region, each name including its region label |
| Sensors.SeedNameExcludes | src/sensors/sensors.service.ts:149 | a seeded name includes no region label other than its own |
| Sensors.SeededRegionIsOwn | src/sensors/sensors.service.ts:149 | every seeded sensor is tagged with its own region (`Sensor-Estufa-Region 2` gets `Region 2`), never `Unknown` and never another region |
| Sensors.FindSensor | src/sensors/sensors.service.ts:37-39 | nothing exactly when no sensor has the id; otherwise the first sensor with that id |
| Sensors.Touch | src/sensors/sensors.service.ts:49-50 | the registry keeps its length (what changes is stated by `TouchOnlyFirst`) |
| Sensors.TouchOnlyFirst | src/sensors/sensors.service.ts:49-50 | only the first sensor with the id gets `lastSeen` set and all its other fields are kept; every other sensor is unchanged; an unknown id changes nothing |
| Sensors.TouchAt | src/sensors/sensors.service.ts:49-50 | with unique ids, touching a sensor's id updates exactly that index and keeps the ids unique |
| Sensors.TouchTwice | src/sensors/sensors.service.ts:49-50 | touching the same id twice leaves only the later timestamp |
| Sensors.FilterKeepsIdsUnique | src/sensors/sensors.service.ts:42 | removing sensors keeps the remaining ids unique |
| Sensors.InsertByTime | src/sensors/sensors.service.ts:57 | inserting into a newest-first sequence keeps it newest-first and adds exactly the one reading |
| Sensors.SortByTimeDesc | src/sensors/sensors.service.ts:57 | the sort yields a newest-first permutation of its input |
| Sensors.ListReadingsForSensor | src/sensors/sensors.service.ts:54-59 | at most `limit` readings, exactly `min(limit, count)` for a non-negative limit, all from the log and for the sensor, newest first, each no more often than it occurs among the sensor's readings; empty for a sensor with no readings |
| Sensors.ListedCount | src/sensors/sensors.service.ts:58 | for every `limit`, the answer's length is that of `slice(0, limit)` over the sensor's readings: `min(limit, count)` for a non-negative limit, and for a negative one all but the last `-limit` readings, none once `-limit` reaches the count |
| Sensors.SortedMine | src/sensors/sensors.service.ts:55-57 | the sorted readings of a sensor are as many as its readings in the log, drawn from the log, and newest first |
| Sensors.SliceKeepsOrder | src/sensors/sensors.service.ts:58 | cutting a newest-first sequence keeps it newest-first, keeps the leading elements, and adds no element or repeat |
| Sensors.ListedAreNewest | src/sensors/sensors.service.ts:54-59 | any reading of the sensor that the answer leaves out is no newer than any reading in it |
| Sensors.LatestIsNewest | src/sensors/sensors.service.ts:147 | for a sensor with readings, `listReadingsForSensor(id, 1)` has one reading, for the sensor, at least as new as all its others |
| Sensors.LatestIsNewestIfAny | src/sensors/sensors.service.ts:147 | whenever that one-reading answer is non-empty, it is a log reading of the sensor that no other reading of the sensor is newer than |
| Sensors.RemovalCascades | src/sensors/sensors.service.ts:41-45 | after removal, the sensor can no longer be found and a query for its readings is empty |
| Sensors.RemovalKeepsOthers | src/sensors/sensors.service.ts:41-45 | removal leaves every other sensor's readings, and every query for them, as they were |
| Sensors.RegionOf | src/sensors/sensors.service.ts:149 | the region is the first label that occurs in the name, or `Unknown` when none does |
| Sensors.Snapshot | src/sensors/sensors.service.ts:146-153 | the entry carries the sensor's name and region; its temperature and humidity come from a newest reading of the sensor, or are 0 when it has none |
| Sensors.GenerateSensorData | src/sensors/sensors.service.ts:144-155 | one snapshot entry per sensor, in registry order |
| Sensors.SensorsService.constructor | src/sensors/sensors.service.ts:13-22 | seeds the six demonstration sensors (a temperature and a combo sensor per region, ids unique, each stamped with its own clock reading), then exactly the seeded history |
| Sensors.SensorsService.CreateSensor | src/sensors/sensors.service.ts:27-31 | appends exactly one sensor at the end, with the given kind or combo when none is given; the log is untouched |
| Sensors.SensorsService.RemoveSensor | src/sensors/sensors.service.ts:41-45 | answers true; removes every sensor and every reading with the id, keeping the rest in order |
| Sensors.SensorsService.SaveReading | src/sensors/sensors.service.ts:47-52 | the log becomes the newest 1000 of the old log plus the reading, which is last; only the first matching sensor's `lastSeen` changes |
| Sensors.SensorsService.GenerateReadingFor | src/sensors/sensors.service.ts:80-101 | returns the sampled reading and saves it, with `saveReading`'s effect on both the log and the registry |
| Sensors.SensorsService.GenerateInitialHistory | src/sensors/sensors.service.ts:103-122 | appends exactly the seeded history to the log, untrimmed, and leaves the registry alone |
| Sensors.SensorsService.GeneratePeriodicReadings | src/sensors/sensors.service.ts:124-126 | stamps every sensor with its sample time and logs one generated reading per sensor, then trims to 1000 |
| Sensors.SensorsService.PeriodicStep | src/sensors/sensors.service.ts:125 | the sensor at the index gets its sample time as `lastSeen`, no other sensor changes, and the reading sampled for it is logged (trimmed to 1000) |
| Sensors.SensorsService.CalibrationStep | src/sensors/sensors.service.ts:133-134 | the reading that is stored and the one that is returned are both the perturbed reading |
| Sensors.SensorsService.CalibrationRun | src/sensors/sensors.service.ts:131-140 | returns the calibration readings; the log gains exactly those readings (trimmed to 1000); the sensor ends stamped with the last sample time |
| Sensors.SensorsService.SimulateCalibration | src/sensors/sensors.service.ts:128-141 | an unknown id fails with "Sensor not found" and changes nothing; otherwise it returns exactly the calibration readings, which are also the ones stored |
| Users.MergeNoChange | src/users/users.service.ts:60 | spreading an empty partial record changes nothing |
| Users.MergeIdempotent | src/users/users.service.ts:60 | spreading the same partial record twice equals spreading it once |
| Users.MergeWhole | src/users/users.service.ts:60 | spreading a whole record yields that record, except that an optional property it lacks is kept from the target; a record spread over itself is unchanged |
| Users.Merge | src/users/users.service.ts:60 | `{ ...u, ...patch }`: each property the patch has overrides the record's, and each property it lacks is kept from the record |
| Users.PatchOf | src/auth/auth.service.ts:66 | the whole record seen as a partial one: spread over itself it changes nothing, and spread over any record it sets that record's id and password |
| Users.StripRoundTrip | src/users/users.service.ts:66 | putting any password on a public record and removing it again gives back the public record |
| Users.Strip | src/users/users.service.ts:66 | removing the password loses nothing else: putting the password back gives the record |
| Users.Find | src/users/users.service.ts:44-54 | `find` yields nothing exactly when no user matches; otherwise the first user that matches |
| Users.FindByUsername | src/users/users.service.ts:44-46 | nothing exactly when no user has the username; otherwise the first user who has it |
| Users.FindByEmail | src/users/users.service.ts:48-50 | nothing exactly when no user has the e-mail; otherwise the first user who has it |
| Users.FindByResetToken | src/users/users.service.ts:52-54 | nothing exactly when no user holds the token; otherwise the first holder; a missing or null token never matches |
| Users.UpdateTable | src/users/users.service.ts:56-62 | an unknown id leaves the table unchanged; otherwise only the record at the first index with the id is replaced, by the merge |
| Users.UpdateTableShape | src/users/users.service.ts:57-60 | each record after an update is either unchanged or the merged record at the first index with the id |
| Users.FindAll | src/users/users.service.ts:65-67 | one entry per user |
| Users.FindAllHidesOnlyPasswords | src/users/users.service.ts:65-67 | each entry is its user minus the password; the reset token and its expiry stay visible |
| Users.UsersService.constructor | src/users/users.service.ts:25-38 | the table is the stored list, or empty when the users file is missing |
| Users.UsersService.Update | src/users/users.service.ts:56-63 | an unknown id returns nothing and changes nothing; otherwise the merged record is stored at the first index with the id and returned |
| Auth.ValidateUser | src/auth/auth.service.ts:22-34 | succeeds exactly when the first user with the username has that password, returning that user without the password; otherwise fails with `Unauthorized("Credenciales inválidas")` |
| Auth.Rewrite | src/auth/auth.service.ts:64-66 | changing a record in place and passing it whole to `update` leaves the changed record at its index, and keeps the table's length |
| Auth.RewriteShape | src/auth/auth.service.ts:64-66 | after changing a record in place and passing it to `update`, that record is stored; the only other record that can change is the first one sharing its id; with unique ids, no other record changes |
| Auth.Stamp | src/auth/auth.service.ts:63-65 | sets the token and an expiry of now plus 3600000 ms, and no other field |
| Auth.IssueToken | src/auth/auth.service.ts:58-66 | nothing happens exactly when no user has the e-mail; otherwise the table keeps its length |
| Auth.IssueTokenStamps | src/auth/auth.service.ts:59-66 | the first user with the e-mail is stamped; with unique ids, no other user changes |
| Auth.Expired | src/auth/auth.service.ts:96 | a token's expiry is accepted exactly when it is present, non-zero and not before now; missing, `null` and `0` count as expired |
| Auth.Cleared | src/auth/auth.service.ts:101-103 | sets the new password and nulls the token and its expiry, and no other field |
| Auth.RedeemToken | src/auth/auth.service.ts:94-104 | a reset is accepted exactly when the first holder of the token has an expiry that is present, non-zero and not before now |
| Auth.RedeemTokenClears | src/auth/auth.service.ts:95-104 | an accepted reset clears the first holder; with unique ids, no other user changes |
| Auth.IssuedTokenRedeemable | src/auth/auth.service.ts:63-97 | a freshly issued token is accepted exactly up to one hour after issue |
| Auth.TokenSingleUse | src/auth/auth.service.ts:95-103 | once a token held by one user has been used, the same token is rejected |
| Auth.ResetThenLogin | src/auth/auth.service.ts:94-104 | after a reset, the holder can log in with the new password and with no other (given unique usernames) |
| Auth.AuthService.constructor | src/auth/auth.service.ts:13-17 | the service works on the given user table |
| Auth.AuthService.SendResetPasswordEmail | src/auth/auth.service.ts:58-89 | an unknown e-mail fails with `BadRequest("Usuario no encontrado")` and changes nothing; otherwise the token is stored before the mail; a failed mail gives `BadRequest` with the fixed `MailFailed` message and keeps the token; success gives the confirmation message |
| Auth.AuthService.ResetPassword | src/auth/auth.service.ts:94-107 | an unknown, missing or expired token fails with `BadRequest("Token inválido o expirado")` and changes nothing; otherwise the table becomes the cleared one and the confirmation message is returned |
| Gateway.ConnectThenDisconnect | src/sensors/sensors.gateway.ts:43-49 | connecting a client under a new id and then disconnecting it restores the list |
| Gateway.DisconnectUnknown | src/sensors/sensors.gateway.ts:48-51 | disconnecting a client that is not in the list changes nothing |
| Gateway.SensorsGateway.constructor | src/sensors/sensors.gateway.ts:21-23 | starts with no connected users |
| Gateway.SensorsGateway.HandleConnection | src/sensors/sensors.gateway.ts:38-46 | appends the client id with the found user's username and name at the end; an unknown username leaves the list unchanged |
| Gateway.SensorsGateway.HandleDisconnect | src/sensors/sensors.gateway.ts:48-51 | no entry with the client id remains; every other entry stays, in order |
| Gateway.SensorsGateway.HandleUserAction | src/sensors/sensors.gateway.ts:53-56 | the gateway's state is unchanged |

## Left out

- Timers are not modelled: the 10-second `setInterval` of the sensors service and the 5-second broadcast of the gateway. Their bodies are modelled as operations the scheduler would call.
- Sensors.SensorsService.SimulateCalibration: the optional `delayMs` pause between steps is not modelled. The loop runs as if the delay were 0, so no interleaving with other operations is captured.
- `Math.random()` and floating-point rounding are not modelled. Each draw is an integer already rounded to the reading's precision, and `DrawInRange` states which draws the source can produce. The calibration nudge is an unconstrained integer; the source's nudge lies within 10 tenths of a degree either way, but no contract depends on that bound.
- `randomTemperature` exists only as that draw, and its default arguments are unused by the code.
- `getTimeMetadata`, which relies on the host's date, time and locale formatting, is not modelled. It is the `calendar` parameter.
- `uuidv4()`, `crypto.randomBytes`, `new Date()` and `Date.now()` are not modelled; their values are parameters. Each of the six `createSensor` calls of the constructor reads the clock separately, so the constructor takes one creation time per sensor. Freshness of generated ids is a precondition of `CreateSensor` and of the constructor.
- Auth.IssuedTokenRedeemable: assumes the drawn reset token is fresh, that is, no user already holds it. A 32-byte random token makes a collision unlikely but not impossible; with a collision, the earlier holder would be the one found.
- The default arguments `limit = 50` of `listReadingsForSensor` and `iterations = 6, delayMs = 0` of `simulateCalibration` are not modelled. Every caller in the repository passes explicit values (`sensors.controller.ts` lines 28 and 34, and `sensors.service.ts` line 147), so the model takes `limit` and `iterations` as ordinary parameters. `delayMs` is dropped, as the `SimulateCalibration` line above says.
- Reading and writing `users.json` is not modelled. Loading is the constructor's `stored` argument (`None` when the file is missing). `saveUsers` is a no-op.
- `login`, JWT signing, the JWT strategy and the nodemailer transport are foreign libraries and are not modelled. The mail outcome is the `mailDelivered` parameter.
- Socket emission, client handshake parsing and all logging are not modelled.
- Controllers, modules and DTOs are not modelled.
- `listSensors` and `getAllUsers` return the state field as it is, and are not modelled separately.
- Object identity is not modelled. The services return references into their own arrays, and later in-place changes through those references are visible to callers; here records are values. The in-place mutations the services themselves perform are modelled as updates at the record's index, followed by the `update` call.
- Sensors.SortByTimeDesc: the contract states order and permutation only. The relative order of readings with equal timestamps is fixed by the definition (stable, log order) but is not stated as a separate property.
- Sensors.SensorsService.GenerateInitialHistory: the source runs it only from the constructor, where the log is empty. The model does not trim the log after it, as the source does not.
- Auth.TokenSingleUse: holds only when a single user held the token. With duplicate tokens, a second reset reaches the next holder, as the source would.
- Auth.ResetThenLogin: assumes unique usernames, because login reads the first user with the username.
