# Ride-dispatch simulator: a verified model

This Dafny project models the core of a ride-sharing simulator.

- **Riders** request trips from an origin to a destination and wait with a limited patience.
- **Drivers** move across a grid at a fixed speed.
- **The dispatcher** keeps a register of drivers and a first-come, first-served waiting list of riders. It pairs them, choosing the nearest driver when several are registered.
- **The events** drive the simulation: rider request, driver request, cancellation, pickup and dropoff. Each one changes the state and schedules further events.
- **The monitor** logs every activity per person and reduces the log to three averages: rider wait time, total distance driven, and distance driven with a rider on board.
- **The event file** is read line by line into driver and rider requests.

The model is functional. Drivers and riders live in maps keyed by their identifiers, and events refer to them by identifier. Each event's `do()` is a function from a state to a new state plus the list of spawned events. Python exceptions become `Result` failures. The averages are kept as an integer numerator and denominator.

Modules, one per source file, plus three helper modules:

| module | file | models |
|---|---|---|
| `Wrappers` | wrappers.dfy | `Option` and `Result` |
| `Seqs` | seqs.dfy | `list.index`, `list.remove` and duplicate-free lists |
| `Text` | text.dfy | `str.strip`, `str.split()`, `str.split(',')`, `int(...)` and `str(int)` |
| `Locations` | location.dfy | location.py |
| `Riders` | rider.dfy | rider.py |
| `Drivers` | driver.dfy | driver.py, including Python's round-half-to-even |
| `Dispatch` | dispatcher.dfy | dispatcher.py |
| `Monitoring` | monitor.dfy | monitor.py |
| `Events` | event.dfy | the `Event` classes of event.py |
| `EventList` | decode.dfy | the line reading of `create_event_list` in event.py |

Notes on how the model relates to the code:

- **Pickup and dropoff arguments.** The `Pickup` and `Dropoff` constructors take `(timestamp, driver, rider)`. Every call site passes the rider first (event.py:187, event.py:235, event.py:359, and sample_tests.py:73). As written, `Pickup.do` would call `end_drive` on a rider. The model names the fields by role (`Pickup(timestamp, driver, rider)`), so each transition acts on the right object.
- **Tie-break.** With several drivers, `request_driver` compares with `<=` (dispatcher.py:65-66), so the *later*-registered driver wins a tie. The model follows the code.
- **Selection side effect.** `start_drive` is called on every registered driver during selection. The model does the same (`Dispatch.DriveAll`): every registered driver ends up busy and heading for the rider's origin.
- **Object identity.** Python compares drivers and riders structurally in `in` and `remove`. Identifiers are assumed unique per kind (`EventList.UniqueIds`), and under that assumption structural equality coincides with comparing identifiers.

## Model

| member | source | states |
|---|---|---|
| `Seqs.RemoveFirst` | dispatcher.py:91-92 | removing a rider drops its first occurrence only and keeps the others in order; a rider that is absent leaves the list unchanged |
| `Seqs.RemoveFirstSubset` | dispatcher.py:91-92 | cancelling never adds a rider: every rider left waiting was waiting before |
| `Seqs.RemoveFirstMultiset` | dispatcher.py:91-92 | the removal takes exactly one copy of the rider out of the list's multiset |
| `Text.Strip` | event.py:424 | the stripped line is a slice of the line with only whitespace before and after it, has no whitespace at either end, is empty exactly when the line is all whitespace, and a line already trimmed is unchanged |
| `Text.StripUnique` | event.py:424 | whatever is framed by whitespace on both sides and starts and ends with a non-space character is the stripped line, so `strip()` is fully determined |
| `Text.StripIdempotent` | event.py:424 | stripping twice is stripping once |
| `Text.Words` | event.py:434 | every token of `split()` is non-empty and free of whitespace, and a line starting with a non-space has at least one token (what the tokens are is stated by the next four rows) |
| `Text.NoWords` | event.py:434 | `split()` gives no token exactly when the text is all whitespace |
| `Text.WordsOfWord` | event.py:434 | a run of non-whitespace is a single token |
| `Text.WordsSplitAtSpace` | event.py:434 | a whitespace character separates tokens: the tokens of the text before it are followed by those of the text after it; with the two rows above this determines `split()` on every text |
| `Text.WordsOfStrip` | event.py:424-434 | `line.strip().split()` gives the same tokens as `line.split()` |
| `Text.WordsOfUnwords` | event.py:434 | splitting words joined by single spaces gives the words back |
| `Text.SplitOn` | location.py:55-56 | `split(',')` gives at least one piece and no piece contains a comma |
| `Text.JoinSplit` | location.py:55-56 | joining the comma pieces with commas restores the text |
| `Text.ParseIntSkipsSpace` | location.py:52-56 | `int` ignores any whitespace before and after the number that holds no information separator (U+001C to U+001F), which is why `'4, 6'` reads as column 6 |
| `Text.ParseIntOfDigits` | event.py:435 | `int` of blank text is a value error, and a run of ASCII digits reads as its decimal value |
| `Text.ParseIntOfDecimal` | event.py:435 | text that strips to the way `str` writes an integer reads as that integer when no information separator was stripped, and is a value error otherwise, since `int` does not skip U+001C to U+001F |
| `Text.IntRoundTrip` | event.py:435 | `int(str(i)) == i` for every integer, negative ones included |
| `Locations.EqualityIsCoordinates` | location.py:30-37 | two locations are equal exactly when rows and columns agree |
| `Locations.Distance` | location.py:40-44 | the Manhattan distance is zero exactly for equal locations and bounds each coordinate difference |
| `Locations.DistanceSymmetric` | location.py:40-44 | the distance does not depend on argument order |
| `Locations.DistanceTriangle` | location.py:40-44 | the distance obeys the triangle inequality |
| `Locations.Deserialize` | location.py:47-57 | reading succeeds exactly when there are at least two comma pieces and both are non-negative integers, and it yields those integers; a bad first number is reported before a missing comma |
| `Locations.DeserializeSerialize` | location.py:47-57 | reading the `"row,col"` spelling of a location gives that location back |
| `Locations.ShowReadsBack` | location.py:22-28 | `str(location)` is parenthesised, and the text inside the parentheses reads back as the same location |
| `Locations.PrintDecoded` | location.py:22-28 | decoding `"r,c"` and printing gives `"(r, c)"` |
| `Locations.DeserializeDoctest` | location.py:52-53 | `'4, 6'` decodes to row 4, column 6, which prints as `(4, 6)` |
| `Riders.StatusNamesDistinct` | rider.py:13-15 | the three status strings are pairwise different |
| `Riders.NewRider` | rider.py:28-37 | a new rider is waiting and stores identifier, origin, destination and patience unchanged |
| `Riders.EqualIsValueEquality` | rider.py:49-63 | rider equality holds exactly when patience, identifier, origin, destination and status all agree |
| `Drivers.NewDriver` | driver.py:23-32 | a new driver is idle with no destination and no rider, and has the given identifier, location and speed |
| `Drivers.EqualIgnoresRider` | driver.py:43-60 | driver equality compares everything except the rider on board |
| `Drivers.EqualDespiteRider` | driver.py:43-60 | a driver equals itself with any rider on board |
| `Drivers.RoundHalfEven` | driver.py:67-68 | the result is within half a unit of distance/speed, and an exact half goes to the even neighbour |
| `Drivers.RoundHalfEvenUnique` | driver.py:67-68 | only one integer satisfies that rounding rule, so the travel time is determined |
| `Drivers.RoundingExamples` | driver.py:67-68 | 18/5 gives 4, 20/5 gives 4, 5/2 gives 2, 7/2 gives 4 and 1/2 gives 0 |
| `Drivers.GetTravelTime` | driver.py:62-68 | the travel time is the distance over the speed rounded half to even, never negative, and zero to the current location |
| `Drivers.StartDrive` | driver.py:70-77 | the driver becomes busy heading for the target, stays where it is, and reports the travel time from its location |
| `Drivers.EndDrive` | driver.py:79-88 | the driver moves to its old destination, becomes idle, and loses destination and rider |
| `Drivers.StartRide` | driver.py:90-97 | the driver takes the rider on board, heads for the rider's destination, becomes busy, and reports the travel time there |
| `Drivers.EndRide` | driver.py:99-109 | ending a ride has the same precondition and result as ending a drive |
| `Drivers.DriveThenArrive` | driver.py:70-88 | driving to a place and arriving leaves the driver idle at that place with its identifier and speed |
| `Dispatch.FastestIndex` | dispatcher.py:63-68 | the scan returns the position of a minimum travel time that no later position ties |
| `Dispatch.LastMinimumUnique` | dispatcher.py:63-68 | that position is unique |
| `Dispatch.DriveAll` | dispatcher.py:65-66 | every registered driver ends busy and heading for the origin, with location, identifier, speed and rider unchanged; other drivers are untouched |
| `Dispatch.Nearest` | dispatcher.py:62-69 | the chosen driver is registered, no registered driver is faster, and every driver registered after it is strictly slower |
| `Dispatch.NewDispatcher` | dispatcher.py:27-32 | a new dispatcher has nobody registered and nobody waiting |
| `Dispatch.RequestDriver` | dispatcher.py:49-69 | with no driver the rider joins the back of the waiting list and nobody is returned; with one, that driver is returned marked busy and its destination is untouched; with more, the nearest is returned after all were sent to the origin; the register never changes |
| `Dispatch.Enroll` | dispatcher.py:77-78 | after registration the driver is registered, the old register is a prefix of the new one, nobody else is added, and there are still no duplicates |
| `Dispatch.EnrollIdempotent` | dispatcher.py:77-78 | registering twice is registering once |
| `Dispatch.RequestRider` | dispatcher.py:71-86 | the driver is registered; with nobody waiting nothing else changes; otherwise the front rider is returned, the list becomes its tail, and only this driver changes, to busy and heading for the rider's origin |
| `Dispatch.CancelRide` | dispatcher.py:88-92 | a waiting rider is removed with the others kept in order; otherwise nothing changes; the register is untouched |
| `Monitoring.NewMonitor` | monitor.py:69-76 | a new monitor holds no activity for anyone |
| `Monitoring.Append` | monitor.py:97-101 | the list of the notified identifier grows by exactly the new activity, every other list is unchanged, and a new identifier goes last in dictionary order |
| `Monitoring.Notify` | monitor.py:86-101 | one activity is appended to the list of that category and identifier, every other list is unchanged, and the identifier is known afterwards |
| `Monitoring.NotifyAllInOrder` | monitor.py:97-101 | after any run of notifications, each list is its old contents followed by its new activities in call order |
| `Monitoring.WaitCountIsFinished` | monitor.py:116-125 | the wait-time divisor is the number of riders with at least two activities |
| `Monitoring.AverageWaitTime` | monitor.py:111-126 | the mean wait is taken over the riders with at least two activities, and division by zero happens exactly when there are none |
| `Monitoring.AverageWaitTimeLoop` | monitor.py:116-126 | the source's loop over the riders computes the same result |
| `Monitoring.PathLengthLoop` | monitor.py:141-147 | the inner loop over consecutive activities sums the route length |
| `Monitoring.PathLengthAtLeastDisplacement` | monitor.py:141-147 | a driver's route is never shorter than the straight line from its first to its last location |
| `Monitoring.PathLengthAppend` | monitor.py:141-147 | one more activity adds exactly the leg from the previous location |
| `Monitoring.NotifyDriverDistance` | monitor.py:97-101 | notifying a driver's activity grows the total-distance numerator by exactly the leg from that driver's last location, and by nothing for a first activity |
| `Monitoring.AverageTotalDistance` | monitor.py:128-149 | the divisor is the number of drivers, including those with fewer than two activities; the numerator is non-negative; division by zero happens exactly when there is no driver |
| `Monitoring.RideWithinPath` | monitor.py:166-175 | a driver's ride distance never exceeds its route length |
| `Monitoring.RideSumWithinTotal` | monitor.py:166-175 | summed over drivers, ride distance never exceeds total distance |
| `Monitoring.AverageRideDistance` | monitor.py:151-176 | the lookup after a pickup fails exactly when some driver's last activity is a pickup; otherwise the divisor is the number of drivers and the numerator is non-negative and at most the total distance |
| `Monitoring.TotalDistanceDoctest` | monitor.py:130-140 | the example log gives 36 over 3 drivers |
| `Monitoring.RideDistanceDoctest` | monitor.py:153-165 | the example log gives 39 over 3 drivers |
| `Monitoring.Report` | monitor.py:103-109 | a report has exactly the three keys `rider_wait_time`, `driver_total_distance` and `driver_ride_distance` with the three averages, and fails exactly when one of them fails, with the error of the first failing average in the order wait time, total distance, ride distance |
| `Events.OrderIsByTimestamp` | event.py:50-128 | all six comparisons compare timestamps only; `>` is `not <=` and `>=` is `not <`; events of different kinds can be equal |
| `Events.NotifyAppends` | monitor.py:97-101 | a notification only extends the log and never removes or reorders anything |
| `Events.DoRiderRequest` | event.py:171-191 | one rider request is logged at the origin; a pickup at request time plus travel time is returned when a driver was found, always followed by a cancellation at request time plus patience; with no driver the rider waits at the back of the list and no driver changes; when a driver was found every registered driver is busy heading for the origin, no driver moves, unregistered drivers are unchanged, and the dispatcher is unchanged |
| `Events.ChosenDriverStarts` | event.py:183-186 | the second `start_drive` on the chosen driver changes nothing, because selection already sent every registered driver to the origin |
| `Events.DoDriverRequest` | event.py:216-237 | one driver request is logged at the driver's location and the driver is registered; nothing is spawned when nobody waits, otherwise exactly one pickup of the front rider at request time plus travel time to that rider's origin |
| `Events.DoCancellation` | event.py:278-291 | nothing is spawned; a waiting rider's first occurrence leaves the waiting list with the others kept in order, and one cancel is logged at the origin; no rider's status changes |
| `Events.DoCancellationIntended` | event.py:278-285 | as documented, a waiting rider that cancels becomes cancelled, and everything else is as in the code |
| `Events.Arrive` | event.py:347 | the driver arrives at its previous destination and becomes idle; nothing else changes |
| `Events.Board` | event.py:352-360 | rider and driver both log a pickup at the rider's origin; the rider becomes satisfied and boards; a dropoff is scheduled after the ride time |
| `Events.DoPickup` | event.py:320-362 | the driver first arrives; a cancelled rider yields exactly one driver request at the same time; a waiting rider boards; a satisfied rider yields nothing; a driver with no destination fails |
| `Events.DoDropoff` | event.py:389-404 | the ride ends at the destination, rider and driver log the dropoff, and exactly one driver request at the same time is returned |
| `Events.RiderRequestSound` | event.py:187-189 | a rider request keeps the state invariant, names existing objects, and schedules nothing in the past when patience is non-negative |
| `Events.DriverRequestSound` | event.py:232-235 | a driver request keeps the invariant and schedules its pickup no earlier than itself |
| `Events.PickupSound` | event.py:350-360 | a pickup keeps the invariant, its spawned events are not in the past, and the only status change is from waiting to satisfied |
| `Events.DropoffSound` | event.py:395-404 | a dropoff keeps the invariant and changes no rider |
| `Events.Step` | event.py:136-152 | any event either fails exactly when it names an unknown object or ends a drive without a destination, or keeps the invariant, spawns events about existing objects, no earlier than itself when every patience is non-negative, and only moves riders from waiting to satisfied |
| `Events.StepIntended` | event.py:278-285 | with the documented cancellation, a waiting rider that cancels becomes cancelled; every other event behaves as in `Step` |
| `Events.CancelledRiderIsPickedUp` | event.py:286-287 | as written, a rider who cancels while waiting stays waiting, and a driver arriving later still picks them up and schedules a dropoff |
| `Events.CancelledRiderIsSkippedIntended` | event.py:350-351 | with the documented cancellation, the same driver is turned away and asks for another rider, and nothing is logged |
| `EventList.Tokens` | event.py:424-434 | the tokens of a line that is not blank or a comment are the `split()` tokens of the raw line: at least one, each a word |
| `EventList.DriverLine` | event.py:441-448 | a driver line succeeds exactly when it has at least five tokens (extra ones are ignored), an integer speed and a valid location, and it creates a fresh driver from tokens 2, 3 and 4 |
| `EventList.RiderLine` | event.py:450-461 | a rider line succeeds exactly when it has at least six tokens (extra ones are ignored), two valid locations and an integer patience, and it creates a fresh waiting rider from tokens 2 to 5 |
| `EventList.DecodeTokens` | event.py:434-461 | a bad timestamp fails before the kind is read, a single token is a missing field, the two known kinds are decoded, and an unknown kind gives nothing |
| `EventList.DecodeLine` | event.py:424-428 | a raw line that is all whitespace, or whose first non-space character is `#`, gives nothing; any other line has at least one `split()` token and is decoded from those tokens |
| `EventList.SkippedOfRaw` | event.py:424-428 | the stripped line is empty or starts with `#` exactly when the raw line is blank or a comment |
| `EventList.CollectFirstFailure` | event.py:420-462 | the reading succeeds exactly when every line does, otherwise the error is that of the first failing line, and there are no more entries than lines (which entries, in which order, is fixed by `EventList.DecodeLinesOne` with `EventList.DecodeLinesAppend`) |
| `EventList.DecodeLines` | event.py:420-462 | the same, stated about the lines of a file |
| `EventList.DecodeLinesAppend` | event.py:420-462 | reading two parts of a file gives the entries of the first part followed by those of the second, and the first failure decides the error |
| `EventList.DecodeLinesOne` | event.py:420-462 | no line gives no entry; one line gives its own entry, nothing for a skipped or unknown line, or its error; with the row above this fixes the entries of every reading and their order |
| `EventList.EntryRoundTrip` | event.py:434-461 | the line written for any fresh request reads back as that request |
| `EventList.DriversOf` | event.py:441-448 | every driver created by the file is filed under its identifier |
| `EventList.RidersOf` | event.py:450-461 | every rider created by the file is filed under its identifier |
| `EventList.Initial` | event.py:441-461 | the initial state holds every object the file creates, an empty dispatcher and an empty monitor, satisfies the invariant, and the request events follow file order and name existing objects |

## Left out

- The simulation loop and its priority queue. simulation.py is not part of this model, so no run of several events is modelled beyond the two-step lemmas.
- Opening and reading the event file (event.py:422) is input/output. `EventList.DecodeLines` takes the file's lines as a sequence of strings.
- All `__str__` methods except the location printer (`Locations.Show`), and the `python_ta` blocks, are formatting and tooling.
- Drivers.RoundHalfEven: rounds the exact quotient distance/speed, while the source rounds the float `distance / self.speed` (driver.py:67-68). The two agree whenever the distance is below 2^52. Float rounding of larger distances is not modelled.
- The averages are floats in the source. The model keeps numerator and denominator, so float rounding is not modelled.
- The class docstring examples of `Cancellation` and `Pickup` (event.py:249-265 and event.py:329-345) never call `do()`. The abstract `Event.do` and `Event.__str__` are replaced by the closed `Event` datatype.
- `isinstance` checks: riders, drivers, locations and events are distinct types in the model, so "a rider is never equal to a non-rider" and the other `False` fall-backs hold by typing and are not stated.
- The Pickup/Dropoff argument swap at the call sites is not reproduced (see the notes above).
- Negative coordinates: the source's constructor leaves such a field unset, and the first later use would fail. `Locations.Deserialize` reports `NegativeCoordinate` instead, and `Location` has only non-negative fields.
- Ending a drive with no destination: the source stores `None` as the location. `Events.DoPickup` and `Events.DoDropoff` fail with `EndWithoutDestination` instead.
- Drivers with speed zero or below: the source would divide by zero or produce negative travel times. The state invariant (`Events.Valid`) and `EventList.Initial` require positive speeds.
- Duplicate identifiers among drivers, or among riders, are excluded by `EventList.UniqueIds`. Python would keep separate objects that share an identifier.
- `int()` accepts non-ASCII decimal digits; the model accepts ASCII digits only, with underscores between digits. It skips the whitespace `strip()` removes except the information separators U+001C to U+001F, which make `int()` fail anywhere in the text.
- `sample_tests.py` reads `events.txt`, which is not part of this model, and runs the simulation. It serves only as evidence for the expectations cited above.

## Findings

| source | as written | input that shows it | evidently intended | confidence | as-written member | corrected member |
|---|---|---|---|---|---|---|
| event.py:286-287 | `self.rider.status == CANCELLED` compares and discards the result, so a cancelling rider stays waiting | a waiting rider whose cancellation comes before the assigned driver's pickup: the pickup finds the rider waiting, boards them and schedules a dropoff | the status becomes `cancelled` (event.py:279-282, sample_tests.py:92), and the later pickup sends the driver back with a new driver request | high (not executed) | `Events.CancelledRiderIsPickedUp` | `Events.CancelledRiderIsSkippedIntended` |
