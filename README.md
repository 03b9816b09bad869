# GreenGauge in Dafny

GreenGauge tracks the carbon footprint of a user's electrical devices. The model covers these parts of it:

- **Node.js back end** (`backend/server.js`): stores devices, the energy samples of a smart plug, session aggregates, charging emissions and usage emissions in MySQL tables. It also forwards a user's session history to a Python prediction service.
- **ESP32 bridge** (`backend/espconn.js`): extracts four readings from the status page of the plug.
- **Prediction service** (`backend/app.py`): checks the posted rows and builds sliding training windows. The network itself is not modelled.
- **React pages**:
  - the smart-plug panel, which records a charging session and closes it;
  - the device page: the manufacturing emission and the usage calculator;
  - the add-device cascade of selections;
  - the visualization page: the history slice and the two-slice pie;
  - the leaderboard.
- **Livewire chat component** (`chatbotui/app/Livewire/Chatbot.php`).

How the model is built:

- **Tables and routes**: the database tables are sequences of rows. The routes are the methods of the `Server.Database` class, which reassign those sequences.
- **React pages**: the smart-plug panel (`SmartPlug.SmartPlug`), the add-device page (`AddDevice.AddDevicePage`), the leaderboard (`Leaderboard.LeaderboardPage`) and the chat component (`Chatbot.ChatbotComponent`) are classes whose fields are their state variables. Their handlers are methods proved against specification functions. The device page (`DeviceInfo`) and the visualization page (`Visualization`) are not classes: their handlers and effects are modelled as module-level functions and methods that take the page's state variables as arguments and return what the handler sets or posts. Effects are modelled as the state after one render settles.
- **JavaScript semantics**: the value semantics the code depends on are written out in `Js`. This covers truthiness, `parseFloat`, `Number(s)`, loose `==`, `toFixed(3)` and `slice`. How MySQL compares and stores the parameters bound to a statement is written out in `Sql`.
- **Parameters**: clocks, timer ticks, HTTP outcomes, the ESP32 page, the user list and the neural network are parameters of the methods.

Module layout:

| module | what it contains |
|---|---|
| `Wrappers` | `Option` |
| `Text` | runs, trimming and the decimal scanner |
| `Js` | JavaScript values and coercions |
| `Sql` | cells, `WHERE column = ?` and the insert conversion |
| `Sequences` | find, distinct, filter, stable sort, and an in-place insertion sort on an array |
| `Catalog` | the two CSV tables and their option lists |
| `Http` | status codes |
| `Forecast` | `app.py` |
| `Records` | rows, request validation and the read queries |
| `Server` | the routes |
| `Espconn` | the bridge |
| `SmartPlug` | the smart-plug panel |
| `DeviceInfo` | the device page |
| `AddDevice` | the add-device page |
| `Visualization` | the visualization page |
| `Leaderboard` | the leaderboard |
| `Chatbot` | the chat component |

## Model

| member | source | states |
|---|---|---|
| Js.ParseFloat | GreenGauge-main/frontend/src/pages/DeviceInfo/DeviceInfo.js:162 | `parseFloat` yields a number exactly when a decimal literal starts the text after leading white space |
| Js.StringToNumber | GreenGauge-main/frontend/src/pages/Visualization/Visualization.js:101 | `Number("")` and `Number` of white space are 0 |
| Js.LooseEqualsNumStr | GreenGauge-main/frontend/src/pages/Visualization/Visualization.js:117 | a number is `==` to a string, in either order, exactly when the string converts to that number |
| Js.Thousandths | GreenGauge-main/frontend/src/components/SmartPlug/SmartPlug.js:135 | the rounding to whole thousandths is within half a thousandth |
| Js.Round3 | GreenGauge-main/frontend/src/components/SmartPlug/SmartPlug.js:135-141 | `toFixed(3)` read back is a whole number of thousandths within 0.0005 of the value |
| Js.ToFixed3 | GreenGauge-main/frontend/src/pages/DeviceInfo/DeviceInfo.js:171 | `toFixed(3)` of a number is NaN exactly when the number is NaN, and otherwise within half a thousandth of it |
| Js.SliceTo | GreenGauge-main/frontend/src/pages/Visualization/Visualization.js:104 | `slice(0, n)` is a prefix; its length is n clamped to the length, counted from the end when n is negative |
| Js.DecimalString | GreenGauge-main/frontend/src/pages/Leaderboard/Leaderboard.js:36-38 | the string of a user id is a non-empty string of digits |
| Js.DecimalStringValue | GreenGauge-main/frontend/src/pages/Leaderboard/Leaderboard.js:36-38 | the digits of an id read back as the id |
| Js.ParseDecimalString | GreenGauge-main/frontend/src/pages/Leaderboard/Leaderboard.js:36-38 | `parseFloat` of an id's string is the id |
| Js.NumberDecimalString | GreenGauge-main/frontend/src/pages/Visualization/Visualization.js:117 | `Number` of an id's string is the id, and the id is `==` to its string |
| Sql.KeyOf | GreenGauge-main/backend/server.js:113 | a parameter compares as NULL exactly when it is `null` or `undefined` |
| Sql.StoreCell | GreenGauge-main/backend/server.js:274-279 | nullish becomes NULL, numbers and booleans are stored as numbers, and a string is stored exactly when it is one non-blank numeric literal |
| Sql.StoredMatches | GreenGauge-main/backend/server.js:292-307 | round trip: a row written with a parameter is found again by `WHERE column = ?` with that parameter |
| Sql.StoreAll | GreenGauge-main/backend/server.js:274-279 | a statement is accepted exactly when every parameter can be stored, and then each cell is that parameter's conversion |
| Sql.StoreAllOf | GreenGauge-main/backend/server.js:274-279 | parameters that each convert to a given cell make the statement store exactly those cells |
| Sql.StoreAllMatches | GreenGauge-main/backend/server.js:292-307 | a stored cell that came from a non-null parameter is found again by `WHERE column = ?` with that parameter |
| Sql.DecimalParamKey | GreenGauge-main/frontend/src/pages/Leaderboard/Leaderboard.js:36-38 | an id sent as a query string is truthy and selects the rows keyed by that id |
| Sequences.FindFirst | GreenGauge-main/frontend/src/pages/DeviceInfo/DeviceInfo.js:106-110 | `find` returns the least index satisfying the test, or none when no element does |
| Sequences.DistinctMembers | GreenGauge-main/backend/server.js:156-158 | the list of distinct values holds exactly the values of the column, each once |
| Sequences.DistinctFirstOccurrenceOrder | GreenGauge-main/backend/server.js:156-158 | distinct values keep the order of their first occurrences |
| Sequences.FilterMembers | GreenGauge-main/frontend/src/components/SmartPlug/SmartPlug.js:30-31 | `filter` keeps exactly the elements passing the test |
| Sequences.FilterAppend | GreenGauge-main/frontend/src/pages/Visualization/Visualization.js:115-122 | filtering distributes over concatenation |
| Sequences.SortBySorted | GreenGauge-main/frontend/src/pages/Leaderboard/Leaderboard.js:51 | the sort orders the elements by ascending key |
| Sequences.SortByPermutes | GreenGauge-main/frontend/src/pages/Leaderboard/Leaderboard.js:51 | the sort is a permutation of its input |
| Sequences.SortByStable | GreenGauge-main/frontend/src/pages/Leaderboard/Leaderboard.js:51 | elements with equal keys keep their relative order |
| Sequences.InsertionSort | GreenGauge-main/frontend/src/pages/Leaderboard/Leaderboard.js:51 | the array sorted in place holds the stable sort of its former contents |
| Sequences.InsertSplit | GreenGauge-main/frontend/src/pages/Leaderboard/Leaderboard.js:51 | inserting after the last element whose key is at most the new one places it between everything not greater and the run of greater keys, which keeps equal keys in their order |
| Catalog.DeviceTypesExact | GreenGauge-main/frontend/src/pages/AddDevicePage/AddDevicePage.js:32 | a type is offered exactly when some catalog row has it |
| Catalog.ManufacturersExact | GreenGauge-main/frontend/src/pages/AddDevicePage/AddDevicePage.js:37 | a manufacturer is offered exactly when some catalog row has it |
| Catalog.ModelsExact | GreenGauge-main/frontend/src/pages/AddDevicePage/AddDevicePage.js:42 | a model is offered exactly when some row has it, trimmed |
| Catalog.ManufacturersOfTypeExact | GreenGauge-main/frontend/src/pages/AddDevicePage/AddDevicePage.js:55-62 | after a type is chosen, a manufacturer is offered exactly when a row of that type has it |
| Catalog.ModelsOfExact | GreenGauge-main/frontend/src/pages/AddDevicePage/AddDevicePage.js:69-75 | after a manufacturer is chosen, a model is offered exactly when a row of that type and manufacturer has it |
| Catalog.FindEFFirst | GreenGauge-main/frontend/src/components/SmartPlug/SmartPlug.js:48-50 | the factor selected is the one of the first row with that country |
| Catalog.FindEFNone | GreenGauge-main/frontend/src/components/SmartPlug/SmartPlug.js:51-53 | with no row of that country the factor is `null` |
| Catalog.CountriesExact | GreenGauge-main/frontend/src/pages/DeviceInfo/DeviceInfo.js:81 | the factor table keeps exactly the rows with a non-empty country |
| Forecast.TrainingSet | GreenGauge-main/backend/app.py:25-27 | there are len − 10 windows; window i holds rows i..i+9, and its target is row i+10 |
| Forecast.BuildWindows | GreenGauge-main/backend/app.py:21-27 | the loop builds exactly the training set, and it fails with fewer than ten rows |
| Forecast.LastRows | GreenGauge-main/backend/app.py:65 | the prediction input is the features of the last ten rows |
| Forecast.Abs | GreenGauge-main/backend/app.py:72 | the absolute value is non-negative and equals ± its argument |
| Forecast.Predict | GreenGauge-main/backend/app.py:41-80 | a missing, empty or short list is refused with 400; a `ValueError` inside training or prediction also gives 400, any other exception 500; otherwise the three predictions, with the emission made non-negative |
| Records.EnergyRowOf | GreenGauge-main/backend/server.js:271-286 | refused with 400 exactly when the id is falsy or a reading is undefined; accepted exactly when every value can be stored; the row holds the conversions and matches the submitted id |
| Records.AverageRowOf | GreenGauge-main/backend/server.js:325-342 | refused exactly when an id is falsy or a value is undefined; the row gets the next session key and the clock's stamp, and it matches both ids |
| Records.AverageRowStored | GreenGauge-main/backend/server.js:325-342 | the aggregate row holds the converted parameters, the session key and the time stamp, and is found again by its device and user ids |
| Records.ChargingRowOf | GreenGauge-main/backend/server.js:362-380 | refused exactly when the session key or an id is falsy or the emission is undefined; the row matches the posted session key |
| Records.UsageRowOf | GreenGauge-main/backend/server.js:243-268 | refused exactly when an id is falsy or a value is undefined; otherwise accepted exactly when the values can be stored |
| Records.CheckDevice | GreenGauge-main/backend/server.js:136-171 | the first failing check decides: missing field, missing catalog, or a type, manufacturer or model absent from its column; listed exactly when all pass |
| Records.CheckDeviceColumnsIndependent | GreenGauge-main/backend/server.js:161-171 | a type, a manufacturer and a model that each occur in the catalog pass, even from three different rows |
| Records.TypeOffered | GreenGauge-main/backend/server.js:156 | the type of every catalog row that has one is among the distinct types offered |
| Records.ManufacturerOffered | GreenGauge-main/backend/server.js:157 | the manufacturer of every catalog row that has one is among the distinct manufacturers offered |
| Records.ModelOffered | GreenGauge-main/backend/server.js:158 | the trimmed name of every catalog row, the empty string for a nameless one, is among the distinct models offered |
| Records.DeviceEmission | GreenGauge-main/backend/server.js:196-209 | the update is refused exactly when a field is falsy or a factor does not parse; otherwise it is the product of the two parsed values |
| Records.OwnedDevicesExact | GreenGauge-main/backend/server.js:113 | `OwnedDevices`, the query `WHERE userid = ?`, selects exactly the devices whose owner matches |
| Records.DeviceReadingsExact | GreenGauge-main/backend/server.js:292-307 | `DeviceReadings`, the query `WHERE deviceid = ?`, selects exactly the samples of that device |
| Records.TotalAppend | GreenGauge-main/frontend/src/pages/Leaderboard/Leaderboard.js:41 | `Total`, the `reduce` from 0 with a NULL emission as 0, of a concatenation is the sum of the totals |
| Records.TotalNonNegative | GreenGauge-main/frontend/src/pages/Leaderboard/Leaderboard.js:41 | with no negative emission, a total is not negative |
| Records.JoinExact | GreenGauge-main/backend/server.js:386-395 | the join holds exactly the pairs of the user's and device's aggregate with an emission row of the same session |
| Records.LatestIsAppended | GreenGauge-main/backend/server.js:346-357 | a latest row is the one just appended when its stamp exceeds every earlier one |
| Server.Database.GetDevices | GreenGauge-main/backend/server.js:105-127 | 400 for a falsy user; otherwise the user's devices, with `success` exactly when there is one |
| Server.Database.AddDevices | GreenGauge-main/backend/server.js:129-189 | the verdict of the checks; exactly one appended device, with a fresh key and NULL emission, exactly when all pass and the id can be stored |
| Server.Database.UpdateDeviceEmissions | GreenGauge-main/backend/server.js:191-217 | the emission is written to exactly the rows with that id; every other row and table is unchanged |
| Server.Database.GetDeviceDetails | GreenGauge-main/backend/server.js:219-240 | 400 for a falsy id; the device returned is in the table, matches the id and is the only one that does; none is returned only when no device matches |
| Server.Database.StoreUsageEmissions | GreenGauge-main/backend/server.js:243-268 | one row appended exactly when the request passes validation; nothing changes otherwise |
| Server.Database.StoreEnergyData | GreenGauge-main/backend/server.js:271-286 | one sample appended exactly when the request passes validation; the other tables are untouched |
| Server.Database.FetchEnergyData | GreenGauge-main/backend/server.js:289-309 | 400 for a falsy id; otherwise exactly the device's samples in table order, with `success` exactly when there is one |
| Server.Database.TruncateEnergyData | GreenGauge-main/backend/server.js:312-322 | empties the whole sample buffer and nothing else |
| Server.Database.StoreAverageEnergyData | GreenGauge-main/backend/server.js:325-342 | on success one aggregate is appended under the next session key with the database clock, and the key counter advances |
| Server.Database.FetchRecentAverageEnergyData | GreenGauge-main/backend/server.js:345-359 | `success` exactly when the table is non-empty; the key returned is that of a row with the greatest stamp |
| Server.Database.StoreChargingEmissionsData | GreenGauge-main/backend/server.js:362-380 | one row appended exactly when the request passes validation |
| Server.Database.FetchChargingViz | GreenGauge-main/backend/server.js:382-407 | 400 unless both ids are truthy; otherwise a permutation of the join, sorted newest first |
| Server.Database.FetchManufacturingViz | GreenGauge-main/backend/server.js:409-431 | 400 for a falsy user; otherwise one point per owned device, in table order |
| Server.Database.FetchData | GreenGauge-main/backend/server.js:451-496 | 400 without both ids; 404 for an empty join; 500 when the service refuses or fails; otherwise its prediction on the join, oldest first |
| Server.FetchedPairsExact | GreenGauge-main/backend/server.js:386-395 | the charging history holds exactly the session pairs of that user and device |
| Espconn.FirstMatch | GreenGauge-main/backend/espconn.js:20-23 | the leftmost position where the pattern matches, or none when it never does |
| Espconn.Capture | GreenGauge-main/backend/espconn.js:20-23 | a capture is a non-empty string of digits and dots |
| Espconn.CaptureFound | GreenGauge-main/backend/espconn.js:20-23 | a capture exists exactly when the label occurs followed by a digit or a dot |
| Espconn.CaptureLeftmost | GreenGauge-main/backend/espconn.js:20-23 | the capture is the maximal run after the leftmost matching occurrence |
| Espconn.ParseConnected | GreenGauge-main/backend/espconn.js:20-28 | `connected` exactly when all four labels match; each reading is its capture |
| Espconn.CaptureNotNumeric | GreenGauge-main/backend/espconn.js:20 | "Vrms: 1.2.3" is captured as "1.2.3", which is not a number |
| Espconn.ParseOrderIndependent | GreenGauge-main/backend/espconn.js:20-25 | swapping two parts of the page, joined by a line break, leaves the reply unchanged when no label occurs in both parts |
| SmartPlug.Average | GreenGauge-main/frontend/src/components/SmartPlug/SmartPlug.js:135-138 | the average stored is the sum over the count, within 0.0005 |
| SmartPlug.SumOfBounds | GreenGauge-main/frontend/src/components/SmartPlug/SmartPlug.js:124-130 | bounds on every reading bound the sum by count × bound |
| SmartPlug.BoundsStep | GreenGauge-main/frontend/src/components/SmartPlug/SmartPlug.js:124-130 | one more term within the bounds keeps the sum within them |
| SmartPlug.AverageBounds | GreenGauge-main/frontend/src/components/SmartPlug/SmartPlug.js:134-138 | the average lies between the least and the greatest reading, up to rounding |
| SmartPlug.Elapsed | GreenGauge-main/frontend/src/components/SmartPlug/SmartPlug.js:140-141 | the duration is the clock difference in seconds, within 0.0005 |
| SmartPlug.SessionEmission | GreenGauge-main/frontend/src/components/SmartPlug/SmartPlug.js:144 | 0 without a factor; otherwise factor × power × seconds × 0.001 to three decimals, NaN when the factor is not numeric |
| SmartPlug.ToJsonStored | GreenGauge-main/frontend/src/components/SmartPlug/SmartPlug.js:89-96 | a number sent in JSON can always be stored, NaN as NULL |
| SmartPlug.SampleRow | GreenGauge-main/frontend/src/components/SmartPlug/SmartPlug.js:89-96 | a sample post with a storable id is accepted, and its row holds the five numbers |
| SmartPlug.SampleAccepted | GreenGauge-main/frontend/src/components/SmartPlug/SmartPlug.js:87-96 | each connected reading yields exactly one sample of the parsed values; with no country chosen the emission is 0 |
| SmartPlug.Sampled | GreenGauge-main/frontend/src/components/SmartPlug/SmartPlug.js:89-96 | a post appends at most one row, and that row matches the device |
| SmartPlug.PostSample | GreenGauge-main/frontend/src/components/SmartPlug/SmartPlug.js:89-96 | the post appends exactly the sampled rows to the buffer and changes nothing else |
| SmartPlug.PostReply | GreenGauge-main/frontend/src/components/SmartPlug/SmartPlug.js:85-97 | a connected reply appends exactly its sample; any other reply leaves every table unchanged |
| SmartPlug.SmartPlug.constructor | GreenGauge-main/frontend/src/components/SmartPlug/SmartPlug.js:6-17 | no session running, no factor, empty factor table |
| SmartPlug.SmartPlug.LoadEfData | GreenGauge-main/frontend/src/components/SmartPlug/SmartPlug.js:20-41 | the factor table becomes the rows that name a country |
| SmartPlug.SmartPlug.HandleCountryChange | GreenGauge-main/frontend/src/components/SmartPlug/SmartPlug.js:43-54 | the country is selected, and so is the factor of its first row (or null) |
| SmartPlug.SmartPlug.StartStoringData | GreenGauge-main/frontend/src/components/SmartPlug/SmartPlug.js:78-104 | while a session is running nothing changes; otherwise it starts with the clock reading and captures the selected factor |
| SmartPlug.SmartPlug.Tick | GreenGauge-main/frontend/src/components/SmartPlug/SmartPlug.js:83-101 | a connected reply appends its sample, built with the captured factor; a failed one changes nothing |
| SmartPlug.SmartPlug.StopStoringData | GreenGauge-main/frontend/src/components/SmartPlug/SmartPlug.js:106-167 | the session stops; with samples, the aggregate is stored, the buffer is emptied and the emission is filed under the latest key; with none, nothing is written |
| SmartPlug.SumReadings | GreenGauge-main/frontend/src/components/SmartPlug/SmartPlug.js:123-130 | the loop's four sums are the totals of the readings, missing ones as 0 |
| SmartPlug.CloseSession | GreenGauge-main/frontend/src/components/SmartPlug/SmartPlug.js:146-167 | the four requests leave the tables as the session-closing specification describes |
| SmartPlug.ClosedSessionLinked | GreenGauge-main/frontend/src/components/SmartPlug/SmartPlug.js:159-167 | with the clock past every earlier session, the emission is filed under the new aggregate's key and joins with it |
| DeviceInfo.FindCatalogRow | GreenGauge-main/frontend/src/pages/DeviceInfo/DeviceInfo.js:106-110 | the first row that matches, or the first nameless row of that type and manufacturer (which throws), or none |
| DeviceInfo.ManufacturingEmission | GreenGauge-main/frontend/src/pages/DeviceInfo/DeviceInfo.js:113-114 | the emission is a number exactly when both cells parse, and then it is their product |
| DeviceInfo.ManufacturingEffect | GreenGauge-main/frontend/src/pages/DeviceInfo/DeviceInfo.js:95-152 | it waits exactly until device and catalog are loaded; an update names the route's device |
| DeviceInfo.MatchedRow | GreenGauge-main/frontend/src/pages/DeviceInfo/DeviceInfo.js:112-146 | a match shows the row's emission and posts its lifetime and gwp cells |
| DeviceInfo.ManufacturingFirstMatch | GreenGauge-main/frontend/src/pages/DeviceInfo/DeviceInfo.js:106-116 | the emission comes from the first matching row when no nameless row precedes it |
| DeviceInfo.FirstHitFound | GreenGauge-main/frontend/src/pages/DeviceInfo/DeviceInfo.js:106-110 | `find` returns the first hit when no nameless row of the same type and manufacturer comes before it |
| DeviceInfo.FalsyCellIsNaN | GreenGauge-main/frontend/src/pages/DeviceInfo/DeviceInfo.js:114 | an empty or missing cell parses to NaN |
| DeviceInfo.UpdateAgrees | GreenGauge-main/frontend/src/pages/DeviceInfo/DeviceInfo.js:114-131 | the server writes exactly the emission the page shows, and refuses when it is NaN |
| DeviceInfo.Hours | GreenGauge-main/frontend/src/pages/DeviceInfo/DeviceInfo.js:162 | hours + minutes / 60 is a number exactly when both parse |
| DeviceInfo.UsageFrom | GreenGauge-main/frontend/src/pages/DeviceInfo/DeviceInfo.js:162-176 | NaN hours stop it; energy is power × hours; emission and duration are within 0.0005; the emission is NaN exactly when the factor is |
| DeviceInfo.CalculateUsage | GreenGauge-main/frontend/src/pages/DeviceInfo/DeviceInfo.js:154-176 | it returns early exactly on empty power, falsy hours, falsy factor or NaN hours; the energy is `(parseFloat(power) \|\| 0)` × hours |
| DeviceInfo.CalculatedDuration | GreenGauge-main/frontend/src/pages/DeviceInfo/DeviceInfo.js:176 | the duration is the hours to three decimals |
| DeviceInfo.CalculatedEmission | GreenGauge-main/frontend/src/pages/DeviceInfo/DeviceInfo.js:171 | the emission shown is `toFixed(3)` of the energy times the factor, the factor converted as `*` converts it (the guard before has made it truthy, so `|| 0` never applies) |
| DeviceInfo.HandleCalculateEmissions | GreenGauge-main/frontend/src/pages/DeviceInfo/DeviceInfo.js:154-191 | a post exactly when the calculation completes, carrying the ids, the power as typed, the computed duration and the `toFixed(3)` emission |
| DeviceInfo.ZeroHoursAborts | GreenGauge-main/frontend/src/pages/DeviceInfo/DeviceInfo.js:20 | the initial numeric 0 hours is falsy, so the calculation does nothing whatever the minutes |
| DeviceInfo.TypedZeroHoursComputes | GreenGauge-main/frontend/src/pages/DeviceInfo/DeviceInfo.js:156-162 | a typed "0" is truthy: "0" hours and "30" minutes, both typed, computes over half an hour, and the energy is half the power |
| AddDevice.Settle | GreenGauge-main/frontend/src/pages/AddDevicePage/AddDevicePage.js:53-77 | each effect that runs narrows its list and clears the selections below it; an effect that does not run leaves its fields alone |
| AddDevice.ChooseTypeNarrows | GreenGauge-main/frontend/src/pages/AddDevicePage/AddDevicePage.js:53-64 | a new type offers exactly its manufacturers and clears manufacturer and model |
| AddDevice.ChooseManufacturerNarrows | GreenGauge-main/frontend/src/pages/AddDevicePage/AddDevicePage.js:67-77 | a new manufacturer offers exactly the models of that type and manufacturer, clears the model and keeps the type |
| AddDevice.ChooseSameIsNoOp | GreenGauge-main/frontend/src/pages/AddDevicePage/AddDevicePage.js:53-77 | re-choosing the current type or manufacturer changes nothing |
| AddDevice.ChooseTypeKeepsStaleModels | GreenGauge-main/frontend/src/pages/AddDevicePage/AddDevicePage.js:67-75 | a type change with a manufacturer selected lists that old manufacturer's models of the new type |
| AddDevice.LoadOffersWholeCatalog | GreenGauge-main/frontend/src/pages/AddDevicePage/AddDevicePage.js:26-44 | on a fresh page the load offers every type, manufacturer and model of the catalog and selects nothing |
| AddDevice.AddRequest | GreenGauge-main/frontend/src/pages/AddDevicePage/AddDevicePage.js:80-98 | a request exactly when all three selections are non-empty, carrying them and the user |
| AddDevice.AddRequestPassesFieldCheck | GreenGauge-main/frontend/src/pages/AddDevicePage/AddDevicePage.js:82-98 | a posted request never fails the server's required-field check for want of a selection |
| AddDevice.AddDevicePage.constructor | GreenGauge-main/frontend/src/pages/AddDevicePage/AddDevicePage.js:9-15 | empty lists and no selection |
| AddDevice.AddDevicePage.RunEffects | GreenGauge-main/frontend/src/pages/AddDevicePage/AddDevicePage.js:53-77 | the page becomes the settled state of the render |
| AddDevice.AddDevicePage.Load | GreenGauge-main/frontend/src/pages/AddDevicePage/AddDevicePage.js:26-44 | the catalog and its three lists are set, then the effects settle |
| AddDevice.AddDevicePage.SelectType | GreenGauge-main/frontend/src/pages/AddDevicePage/AddDevicePage.js:112 | the type is set, then the effects settle |
| AddDevice.AddDevicePage.SelectManufacturer | GreenGauge-main/frontend/src/pages/AddDevicePage/AddDevicePage.js:126 | the manufacturer is set, then the effects settle |
| AddDevice.AddDevicePage.SelectModel | GreenGauge-main/frontend/src/pages/AddDevicePage/AddDevicePage.js:141 | only the model changes |
| AddDevice.AddDevicePage.HandleAddDevice | GreenGauge-main/frontend/src/pages/AddDevicePage/AddDevicePage.js:80-100 | the request of the page's selections, none (the alert) unless all three are chosen |
| Visualization.PiePartition | GreenGauge-main/frontend/src/pages/Visualization/Visualization.js:111-122 | the two slices add up to the total of all points |
| Visualization.CurrentIsRouteDevice | GreenGauge-main/frontend/src/pages/Visualization/Visualization.js:117 | with the route id a device id's string, the current slice holds exactly that device's points |
| Visualization.RenderPieChart | GreenGauge-main/frontend/src/pages/Visualization/Visualization.js:107-127 | loading until data arrives; then the current-device and other-devices slices, whose sum is the accumulated total |
| Visualization.Accumulate | GreenGauge-main/frontend/src/pages/Visualization/Visualization.js:115-122 | the loop's three sums are the totals of all points, of those that pass the test, and of the others |
| Visualization.AccumulateStep | GreenGauge-main/frontend/src/pages/Visualization/Visualization.js:115-122 | one more point adds its emission to the total and to exactly one of the two slices, chosen by the device test |
| Visualization.FilteredChargingData | GreenGauge-main/frontend/src/pages/Visualization/Visualization.js:104 | no data shows nothing; otherwise a prefix of the history |
| Visualization.TypedCountShowsPrefix | GreenGauge-main/frontend/src/pages/Visualization/Visualization.js:100-104 | typing n shows the first n rows, or all of them when there are fewer |
| Visualization.DefaultAndClearedCounts | GreenGauge-main/frontend/src/pages/Visualization/Visualization.js:19 | the initial 10 shows ten rows; a cleared field shows none |
| Leaderboard.Entries | GreenGauge-main/frontend/src/pages/Leaderboard/Leaderboard.js:35-48 | one entry per user, in user order, with the total of that user's devices |
| Leaderboard.UserPointsOwned | GreenGauge-main/frontend/src/pages/Leaderboard/Leaderboard.js:36-41 | a user's total is over exactly the devices whose owner is that user |
| Leaderboard.RankingProperties | GreenGauge-main/frontend/src/pages/Leaderboard/Leaderboard.js:51 | the board is sorted ascending, a permutation of the entries, and stable among equal totals |
| Leaderboard.RankingListsEveryUser | GreenGauge-main/frontend/src/pages/Leaderboard/Leaderboard.js:43-54 | every user appears on the board with their total |
| Leaderboard.UserEntry | GreenGauge-main/frontend/src/pages/Leaderboard/Leaderboard.js:36-47 | one iteration fetches the user's devices and totals them |
| Leaderboard.CollectEntries | GreenGauge-main/frontend/src/pages/Leaderboard/Leaderboard.js:35-48 | the per-user requests stop at the first one that fails and yield nothing; if none fails, one entry per user in list order with the sum of that user's manufacturing emissions |
| Leaderboard.SortEntries | GreenGauge-main/frontend/src/pages/Leaderboard/Leaderboard.js:51 | the entries are stably sorted ascending by total emission |
| Leaderboard.LeaderboardPage.constructor | GreenGauge-main/frontend/src/pages/Leaderboard/Leaderboard.js:12-14 | loading, no error, empty board |
| Leaderboard.LeaderboardPage.FetchUserIds | GreenGauge-main/frontend/src/pages/Leaderboard/Leaderboard.js:24-63 | loading ends; any failed request shows the error and keeps the board; otherwise the board is the ranking |
| Chatbot.PhpTrim | GreenGauge-main/chatbotui/app/Livewire/Chatbot.php:16 | trimming gives "" exactly when every character is PHP white space |
| Chatbot.BotText | GreenGauge-main/chatbotui/app/Livewire/Chatbot.php:50-56 | the service's response when given, one fallback when it is missing, another on an unsuccessful status |
| Chatbot.TrimKeeps | GreenGauge-main/chatbotui/app/Livewire/Chatbot.php:16 | a text whose ends are not white space is unchanged by trimming |
| Chatbot.ZeroIsBlank | GreenGauge-main/chatbotui/app/Livewire/Chatbot.php:16-18 | because of `empty`, " 0 " is not sent |
| Chatbot.DoubleZeroNotBlank | GreenGauge-main/chatbotui/app/Livewire/Chatbot.php:16-18 | "00" is sent |
| Chatbot.WhiteSpaceIsBlank | GreenGauge-main/chatbotui/app/Livewire/Chatbot.php:16-18 | a message of white space only is not sent |
| Chatbot.AfterSend | GreenGauge-main/chatbotui/app/Livewire/Chatbot.php:13-39 | a blank message or a thrown request changes nothing; otherwise the user's message then the bot's reply are appended, the transcript before is kept, and the input is cleared |
| Chatbot.AppendOnly | GreenGauge-main/chatbotui/app/Livewire/Chatbot.php:21-38 | over any session of typed-then-sent messages, earlier messages stay where they were |
| Chatbot.ChatbotComponent.constructor | GreenGauge-main/chatbotui/app/Livewire/Chatbot.php:10-11 | empty transcript and input |
| Chatbot.ChatbotComponent.Type | GreenGauge-main/chatbotui/app/Livewire/Chatbot.php:11 | only the input changes |
| Chatbot.ChatbotComponent.SendMessage | GreenGauge-main/chatbotui/app/Livewire/Chatbot.php:13-39 | the component moves to the state after the send |

## Left out

- Registration and login (`server.js:30-103`): password hashing with bcrypt and the user table are outside the model. The user list reaches the leaderboard as a parameter.
- Database and network failures: a failed statement or connection (the 500 answers of the routes' `catch` blocks) is not modelled, except that a statement refused for an unstorable value answers 500.
- The neural network in `app.py` (model building, training, inference) is a parameter. The feature scaling inside it is left out with it.
- CSV parsing by PapaParse: the catalog and factor tables arrive already parsed, one record per row.
- Concurrency: overlapping requests, timer ticks racing the stop handler, and the fact that `truncateEnergyData` empties the buffer of every device while another session may be recording.
- Floating point: numbers are exact reals. The model omits binary rounding, `Infinity`, exponent and hexadecimal literals, and `toFixed` on values whose binary form is not exact.
- `toFixed` results are strings in the source. The model sends their numeric value, and "NaN" as that string.
- `Server.Database.FetchRecentAverageEnergyData`: it promises only "a row with the greatest stamp". MySQL's choice between rows with equal stamps is not modelled.
- `ORDER BY` among rows with equal time stamps returns them in the model's stable order. MySQL does not fix that order.
- The MySQL schema is not part of the repository. Numeric columns are taken to be exact, the server to run in strict mode, and string keys to compare by their numeric prefix.
- The mysql2 driver's habit of returning DECIMAL columns as strings is not modelled.
- Auto-increment keys: a refused insert does not consume a key, where MySQL may.
- `truncateEnergyData` is modelled as always answering 200. The source calls `getQuery` there with two arguments.
- Visualization: date formatting (`convertToIST`), the report download and the chart components are left out. The bounds of the number input are not enforced.
- The live display of the smart-plug panel (the 5-second poll, `setLatestReadings`, `setElapsedTime`) is left out. Its sampling timer is the `Tick` method.
- SmartPlug: the country list is rendered from `efData.sort(...)` by country (SmartPlug.js:211), which reorders the factor table in place on every render. The model keeps the table in file order. `FindEF` is unaffected, because the sort is stable and keyed on the country, so the first row of each country stays the first.
- SmartPlug: the timer's callback keeps the factor of the render that started it (`tickEF`). This reading of the stale closure is the model's.
- AddDevice: the three list setters of the load callback are taken to be batched into one render. `reloaded` stands for the `data` dependency changing.
- Chatbot: a request that throws is taken to leave the component as it was, as Livewire discards the failed update.
- Leaderboard: transport failures of the per-user requests are the `firstFailure` parameter.
- `DeviceInfo.TypedZeroHoursComputes`: it states the hours and the energy, not the rounded duration and emission, which `CalculatedDuration` and `CalculatedEmission` state for every input.
- Visualization: `total` from `renderPieChart` is the figure printed under the pie as the total manufacturing emissions (Visualization.js:167-169). The model returns it but not the markup around it.
- Ids are JavaScript values of any kind in the model, but the device id is always a string: the `:deviceid` route parameter (App.js:32-34). For an id of another kind the model is faithful only where the id travels in a JSON body. Where the source puts it in a query string (`fetchEnergyData?deviceid=${deviceID}` at SmartPlug.js:113, and the `params` of the page requests), the server receives the id's string form. The model does not compute that form and passes the value itself. For a string id the two agree.
