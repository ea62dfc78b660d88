# bosch-measure: device classifier and connection state machine

This project is a Dafny model of the decision logic in the bosch-measure
Android app. The app connects to Bosch laser measuring tools over Bluetooth
LE. Two parts are modelled.

- **The device-name classifier** (`BluetoothUtils`). It holds four constant
  tables that map a bare tool number to a device name. Its validators decide
  from a device's display name which tool family the device belongs to:
  - The keyword checks (GLM 100, GLM 50, GIS, PLR, any Bosch device) test
    whether the lower-cased name contains fixed words.
  - The tool-number checks (GLM 120 family, GLM 50-2 family) cut the name
    off one character before its first `x`. They then look the remaining
    fragment up among the table *values*.
  - `validateEDCDevice` is the short-circuit OR of GLM 50, GLM 120,
    GLM 50-2 and PLR.
- **The activity's connection-selection and device-list state machine**
  (`MainActivity`). It covers:
  - the click guard, which ignores clicks while connecting, disconnects on a
    click on the connected device and connects otherwise;
  - the device-list refresh, which clears the list, refills it from the BLE
    service and sorts it by display name, ignoring case;
  - the life cycle of the device controller;
  - the connection-status handling of the broadcast receiver;
  - the stop of discovery on pause.

## Modelling choices

- **Java nulls** are `Option`.
- **Java exceptions** are `Outcome.Throws`: `NullPointerException` and
  `StringIndexOutOfBoundsException`. A validator that can throw returns
  `Outcome<bool>`, and an enclosing `||` passes the exception on.
- **Java strings** are `seq<char>`, sequences of Unicode code points
  rather than Java's UTF-16 code units (see Left out). `indexOf`, `contains`, `substring` and
  `compareToIgnoreCase` are written out in `JavaStrings`. `contains` is
  defined as `indexOf(t) >= 0`, as the JDK defines it.
- **Lower-casing** maps ASCII letters only.
- **`Collections.sort`** is stable. It is modelled by the stable insertion
  sort `SortByName`, which produces the same list.
- **The BLE service** is a class with:
  - its connection state;
  - its current device;
  - its visible devices;
  - a log of the `connect`, `disconnect` and `cancelDiscovery` requests it
    receives.

  The outcome of a request reaches the activity later, as a broadcast. So a
  request only extends the log.
- **The device controller** is a handle that records its creation number
  and the device it was initialised with. Two counters count the
  controllers created and destroyed. `Activity.Valid` ties them together:
  at most one controller is alive, and it is the latest one.
- **Tool-number lookups.** The source compares the name fragment against
  the table values, which are device names such as `"Bosch GLM 120 C"`.
  So `"Bosch GLM 120 C x1"` is accepted. A raw tool number such as
  `"00F27K1063x1"` is not, because its fragment `"00F27K106"` is not a
  device name. The model follows the code here, not what the tables'
  tool-number keys might suggest.
- **Tool-number extraction is only partly guarded.** `validateGLM120Name`
  guards only against a name without an `x`, and `validateGLM50_2Name`
  guards against neither a missing `x` nor a leading one. The model keeps
  this behaviour as written. It also adds a guarded
  variant that answers false where the source throws (see Findings).

## Model

| member | source | states |
|---|---|---|
| BluetoothUtils.TableValues | app/src/main/java/com/example/t4/bluetooth/BluetoothUtils.java:18-81 | the device names each of the four tables holds, as sets of values |
| BluetoothUtils.TableNamesStartWithBosch | app/src/main/java/com/example/t4/bluetooth/BluetoothUtils.java:18-81 | every device name in the GLM 120, GLM 100, GLM 150 and GLM 50-2 tables starts with "Bosch" |
| BluetoothUtils.GLM50_2NamesCarryDashTwo | app/src/main/java/com/example/t4/bluetooth/BluetoothUtils.java:64-80 | every device name in the GLM 50-2 table contains "-2" once lower-cased |
| BluetoothUtils.ToolFamiliesDisjoint | app/src/main/java/com/example/t4/bluetooth/BluetoothUtils.java:18-81 | no fragment is a name of both the GLM 120/100/150 tables and the GLM 50-2 table, so the two tool-number checks never both accept |
| BluetoothUtils.ValidateDeviceName | app/src/main/java/com/example/t4/bluetooth/BluetoothUtils.java:182-184 | a null name is not a Bosch name; an accepted name has at least the five characters of "bosch" |
| BluetoothUtils.ValidateGLM100Name | app/src/main/java/com/example/t4/bluetooth/BluetoothUtils.java:89-94 | a null device or name is rejected; an accepted name is a Bosch name (validateDeviceName holds) |
| BluetoothUtils.ValidateGLM50Name | app/src/main/java/com/example/t4/bluetooth/BluetoothUtils.java:102-108 | a null device or name is rejected; an accepted name is a Bosch name and never contains "-2" |
| BluetoothUtils.ValidateGISName | app/src/main/java/com/example/t4/bluetooth/BluetoothUtils.java:116-121 | throws exactly when the device is null, and the exception is a NullPointerException; an accepted name is a Bosch name |
| BluetoothUtils.ValidatePLRName | app/src/main/java/com/example/t4/bluetooth/BluetoothUtils.java:130-137 | a null device or name is rejected; an accepted name is a Bosch name |
| BluetoothUtils.KeywordChecksIgnoreCase | app/src/main/java/com/example/t4/bluetooth/BluetoothUtils.java:89-137 | two names equal up to case get the same answer from the GLM 100, GLM 50, GIS and PLR checks and from validateDeviceName |
| BluetoothUtils.PLRByPositions | app/src/main/java/com/example/t4/bluetooth/BluetoothUtils.java:130-137 | a name that starts with "Bosch" and contains "PLR" and "50" anywhere is accepted as a PLR |
| BluetoothUtils.NoGLetterNoGLM50 | app/src/main/java/com/example/t4/bluetooth/BluetoothUtils.java:102-108 | a name without the letter g in either case is never a GLM 50 |
| BluetoothUtils.ToolFragment | app/src/main/java/com/example/t4/bluetooth/BluetoothUtils.java:148 | the fragment exists exactly when the name contains an 'x' that is not its first character; the fragment is the prefix that ends one character before the first 'x' |
| BluetoothUtils.FragmentBeforeX | app/src/main/java/com/example/t4/bluetooth/BluetoothUtils.java:148 | when the first 'x' stands at position i >= 1, the fragment is the name's first i - 1 characters |
| BluetoothUtils.FragmentContains | app/src/main/java/com/example/t4/bluetooth/BluetoothUtils.java:148 | whatever the lower-cased fragment contains, the lower-cased name contains |
| BluetoothUtils.ValidateGLM120Name | app/src/main/java/com/example/t4/bluetooth/BluetoothUtils.java:145-154 | throws exactly when the name is non-null and starts with 'x' (StringIndexOutOfBoundsException); when it returns, it accepts exactly when the fragment is a value of the GLM 120, GLM 100 or GLM 150 table |
| BluetoothUtils.ValidateGLM50_2Name | app/src/main/java/com/example/t4/bluetooth/BluetoothUtils.java:162-164 | throws exactly when the name is non-null and has no fragment, i.e. it has no 'x' or starts with one (StringIndexOutOfBoundsException); when it returns, it accepts exactly when the fragment is a value of the GLM 50-2 table |
| BluetoothUtils.ValidateEDCDevice | app/src/main/java/com/example/t4/bluetooth/BluetoothUtils.java:172-174 | an accepted GLM 50 gives true without evaluating the later checks; throws exactly when the name is not a GLM 50 and has no fragment; when it returns, it agrees with the OR of the four checks |
| BluetoothUtils.ToolNumberMatchIsBosch | app/src/main/java/com/example/t4/bluetooth/BluetoothUtils.java:145-164 | a name accepted by either tool-number check is a Bosch name |
| BluetoothUtils.GLM50_2FamilyIsNotGLM50 | app/src/main/java/com/example/t4/bluetooth/BluetoothUtils.java:102-108 | a name of the GLM 50-2 family is never accepted as a GLM 50 (the "-2" exclusion) |
| BluetoothUtils.RawToolNumberIsNoMatch | app/src/main/java/com/example/t4/bluetooth/BluetoothUtils.java:145-154 | "00F27K1063x1" is not accepted as a GLM 120, because the fragment is compared against device names, not tool numbers |
| BluetoothUtils.DisplayNameWithSuffixMatches | app/src/main/java/com/example/t4/bluetooth/BluetoothUtils.java:145-154 | "Bosch GLM 120 C x1" is accepted as a GLM 120 |
| BluetoothUtils.GLM120GuardedAgrees | app/src/main/java/com/example/t4/bluetooth/BluetoothUtils.java:145-154 | the guarded GLM 120 check accepts exactly where the source returns true |
| BluetoothUtils.GLM50_2GuardedAgrees | app/src/main/java/com/example/t4/bluetooth/BluetoothUtils.java:162-164 | the guarded GLM 50-2 check accepts exactly where the source returns true |
| BluetoothUtils.EDCGuardedAgrees | app/src/main/java/com/example/t4/bluetooth/BluetoothUtils.java:172-174 | the guarded composite accepts exactly where the source returns true, or where it throws and the device is a PLR |
| BluetoothUtils.EDCThrowsWithoutX | app/src/main/java/com/example/t4/bluetooth/BluetoothUtils.java:162-174 | for a named device without 'x' that is not a GLM 50, validateEDCDevice throws, and the guarded composite gives the PLR answer |
| BluetoothUtils.LeadingXThrowsInGLM120 | app/src/main/java/com/example/t4/bluetooth/BluetoothUtils.java:147-148 | the name "x" passes the contains("x") guard and makes substring(0, -1) throw |
| BluetoothUtils.PLRDeviceMakesEDCThrow | app/src/main/java/com/example/t4/bluetooth/BluetoothUtils.java:162-174 | "Bosch PLR 50 C" is a PLR, yet validateEDCDevice throws on it before the PLR check runs; the guarded composite accepts it |
| JavaStrings.ToLower | app/src/main/java/com/example/t4/bluetooth/BluetoothUtils.java:91 | lower-casing keeps the length, maps each character by itself and leaves no upper-case ASCII letter |
| JavaStrings.Substring | app/src/main/java/com/example/t4/bluetooth/BluetoothUtils.java:148 | returns exactly when 0 <= begin <= end <= length, and otherwise throws StringIndexOutOfBoundsException; a returned string has end - begin characters, those of s from position begin on |
| JavaStrings.IndexOf | app/src/main/java/com/example/t4/bluetooth/BluetoothUtils.java:148 | -1 exactly when t occurs nowhere; otherwise the first position at which t occurs |
| JavaStrings.Contains | app/src/main/java/com/example/t4/bluetooth/BluetoothUtils.java:147 | true exactly when t occurs somewhere in s |
| JavaStrings.IndexOfChar | app/src/main/java/com/example/t4/bluetooth/BluetoothUtils.java:148 | indexOf of one character is -1 exactly when it is absent, else the position of its first occurrence |
| JavaStrings.OccursLowered | app/src/main/java/com/example/t4/bluetooth/BluetoothUtils.java:91 | an occurrence survives lower-casing of both strings |
| JavaStrings.CompareToIgnoreCase | app/src/main/java/com/example/t4/MainActivity.java:346 | a result of 0 implies the two names have the same length |
| JavaStrings.LexLessCons | app/src/main/java/com/example/t4/MainActivity.java:346 | two strings with the same first character are in lexicographic order exactly when their tails are |
| JavaStrings.CompareToIgnoreCaseLex | app/src/main/java/com/example/t4/MainActivity.java:346 | the comparator is negative exactly when the lower-cased first name comes strictly before the lower-cased second one in lexicographic order |
| JavaStrings.CompareToIgnoreCaseAntisymmetric | app/src/main/java/com/example/t4/MainActivity.java:342-348 | swapping the compared names negates the comparator's result |
| JavaStrings.CompareToIgnoreCaseZero | app/src/main/java/com/example/t4/MainActivity.java:342-348 | the comparator gives 0 exactly when the names are equal up to case |
| JavaStrings.CompareToIgnoreCaseTransitive | app/src/main/java/com/example/t4/MainActivity.java:342-348 | the comparator's "at most 0" is transitive |
| DeviceList.Insert | app/src/main/java/com/example/t4/MainActivity.java:342-348 | inserting adds exactly the one device to the list's contents |
| DeviceList.InsertSorted | app/src/main/java/com/example/t4/MainActivity.java:342-348 | inserting into a list in name order keeps it in name order |
| DeviceList.SortByName | app/src/main/java/com/example/t4/MainActivity.java:342-348 | the sorted list is a permutation of the input, and each name compares at most 0 with the next one |
| DeviceList.SortedIsFixpoint | app/src/main/java/com/example/t4/MainActivity.java:342-348 | a list already in name order is left unchanged, as a stable sort leaves it |
| DeviceList.SortByNameIdempotent | app/src/main/java/com/example/t4/MainActivity.java:334-351 | sorting twice gives the same list as sorting once |
| DeviceList.SortedByNamePairwise | app/src/main/java/com/example/t4/MainActivity.java:342-348 | in a sorted list, every name compares at most 0 with every later name |
| DeviceList.SortedByNameLex | app/src/main/java/com/example/t4/MainActivity.java:342-348 | in a sorted list each lower-cased name equals the next one or comes strictly before it in lexicographic order |
| DeviceList.SortIgnoresCase | app/src/main/java/com/example/t4/MainActivity.java:346 | "Zelda" and "anna" are shown as ["anna", "Zelda"] |
| MainActivity.BleService.constructor | app/src/main/java/com/example/t4/MainActivity.java:51 | a service with the given state, current device and visible devices, and no requests yet |
| MainActivity.BleService.Connect | app/src/main/java/com/example/t4/MainActivity.java:100 | a connect request for the device is appended to the log |
| MainActivity.BleService.Disconnect | app/src/main/java/com/example/t4/MainActivity.java:93 | a disconnect request is appended to the log |
| MainActivity.BleService.CancelDiscovery | app/src/main/java/com/example/t4/MainActivity.java:162 | a cancel-discovery request is appended to the log |
| MainActivity.Activity.constructor | app/src/main/java/com/example/t4/MainActivity.java:49-54 | an activity with an empty list, no controller and the label from the layout; the invariant holds |
| MainActivity.Activity.RefreshedList | app/src/main/java/com/example/t4/MainActivity.java:334-351 | empty when no service is bound; otherwise a permutation of the service's visible devices; in name order either way |
| MainActivity.Activity.RefreshDeviceList | app/src/main/java/com/example/t4/MainActivity.java:334-351 | the old contents are discarded and the list becomes the sorted visible devices, so it depends only on the service; the invariant is kept |
| MainActivity.Activity.DestroyDeviceController | app/src/main/java/com/example/t4/MainActivity.java:145-150 | the controller ends null, and one destruction is counted only when a controller existed, so a second call changes nothing |
| MainActivity.Activity.SetupDeviceController | app/src/main/java/com/example/t4/MainActivity.java:128-140 | the controller exists exactly when the service is connected; a new one is bound to the current device; an existing one is destroyed first; the invariant is kept |
| MainActivity.Activity.OnItemClick | app/src/main/java/com/example/t4/MainActivity.java:77-106 | while connecting nothing is requested and the list is unchanged; a click on the connected device's address requests exactly one disconnect and refreshes the list; every other click requests exactly one connect to the selected device |
| MainActivity.Activity.OnPause | app/src/main/java/com/example/t4/MainActivity.java:153-164 | discovery is cancelled exactly when a service is bound, and the service's connection state, current device and visible devices are left as they were |
| MainActivity.Activity.OnReceive | app/src/main/java/com/example/t4/MainActivity.java:268-316 | a connection-status broadcast always refreshes the list; status CONNECTED sets up the controller and shows the device name; any other status leaves no controller and shows "no device connected"; a device-list broadcast only refreshes; other broadcasts change nothing modelled |

## Left out

- Android life cycle and service binding are not modelled. This covers
  `onCreate`, the `ServiceConnection`, receiver registration and menus. They
  are platform plumbing. The bound service is the `btService` field, null
  while unbound.
- The permission and Bluetooth-enable flows are not modelled: the
  permission request, its result, `onActivityResult`, dialogs and toasts.
  They wait on the user and the platform.
- `startDiscovery` and the handling of `BluetoothNotSupportedException` are
  not modelled. They are logging around a foreign call.
- The measurement branches of the receiver are not modelled. They format a
  `float` with `Float.toString`. The model states only that they leave the
  list, controller and device label alone.
- The internals of `BLEService`, `GLMDeviceController` and
  `MtAsyncConnection` are not modelled: their source is not part of this
  model. The service is abstract state plus a request log. The controller
  is a handle. `init` and `destroy` are counted, not executed.
- `notifyDataSetChanged` and the adapter are not modelled. The adapter
  shows the `devices` list itself.
- Logging is not modelled.
- `synchronized` on `refreshDeviceList` and the broadcast threading are not
  modelled. Operations are modelled one at a time.
- Java strings are sequences of UTF-16 code units; the model's strings are
  sequences of Unicode code points. Positions, `substring` and
  `compareToIgnoreCase` agree only for names without supplementary
  characters (outside the Basic Multilingual Plane). Names holding such
  characters, where Java could cut a surrogate pair in half or order them
  differently, are not modelled.
- JavaStrings.ToLower: does not model `toLowerCase(Locale.getDefault())`
  beyond ASCII. Non-ASCII and locale-specific mappings are left out.
- JavaStrings.CompareToIgnoreCase: folds ASCII letters only. The JDK folds
  through both upper and lower case of all of Unicode.
- BluetoothUtils.ValidateDeviceName, BluetoothUtils.ValidateGLM100Name,
  BluetoothUtils.ValidateGLM50Name, BluetoothUtils.ValidateGISName,
  BluetoothUtils.ValidatePLRName: their contracts state the null cases.
  ValidateDeviceName also states a length bound. The other four also state
  "accepted implies Bosch". None of them states the "if and only if the
  lower-cased name contains these words" test, which is the function body
  itself. KeywordChecksIgnoreCase states only that the five checks ignore
  case. PLRByPositions gives one sufficient condition for the PLR check.
- MainActivity.Intent: the connection status extra is one of the three
  `MtAsyncConnection` states, or absent, which reads as STATE_NONE. Other
  integer values are not modelled. They behave like any status other than
  CONNECTED.
- MainActivity.Activity.OnItemClick: requires a bound service, where the
  source throws a NullPointerException without one. It also requires a
  current device when connected, and an address on the selected device when
  the current address is non-null, because the source dereferences both.
  The thrown paths themselves are not modelled.
- MainActivity.Activity.RefreshDeviceList: requires every visible device to
  have a display name when there are two or more, because the comparator
  dereferences them. The NullPointerException path is not modelled.
- MainActivity.Activity.OnReceive: requires a bound service when the status
  is CONNECTED, because `setupDeviceController` calls `isConnected()` on it.
  That NullPointerException path is not modelled.

## Findings

| source | as written | input that shows it | evidently intended | confidence | as-written member | corrected member |
|---|---|---|---|---|---|---|
| app/src/main/java/com/example/t4/bluetooth/BluetoothUtils.java:162-174 | `validateGLM50_2Name` calls `substring(0, indexOf("x") - 1)` without checking that the name contains an `x`; `validateEDCDevice` evaluates it before `validatePLRName` | a device named "Bosch PLR 50 C": not a GLM 50, no `x`, so `substring(0, -2)` throws and the PLR check is never reached | a name without a tool-number suffix is simply not a GLM 50-2, and the PLR is recognised as an EDC device | not executed | BluetoothUtils.PLRDeviceMakesEDCThrow | BluetoothUtils.EDCGuardedAgrees |
| app/src/main/java/com/example/t4/bluetooth/BluetoothUtils.java:147-148 | `validateGLM120Name` guards only against a missing `x`; when the first `x` is the name's first character, `substring(0, -1)` throws | a device named "x" | such a name is simply not a GLM 120 | not executed | BluetoothUtils.LeadingXThrowsInGLM120 | BluetoothUtils.GLM120GuardedAgrees |
