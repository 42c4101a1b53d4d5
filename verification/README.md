# Master data: fittings, revocations, catalogue cache

This project models the parts of the master-data service whose rules span several records and
whole runs, and proves what those rules promise.

* **The device register.** `Fit` and `Unfit` move a device between vehicles with several ordered
  writes over two collections, in a transaction where the store has them and in a fixed order
  where it does not. The model takes each Mongo write as one step, lets the store be lost after
  any of them, and proves what survives: at most one vehicle per device and one device per
  vehicle and kind always, and agreement between `vehicle.trackerId` and the open assignments
  again after the same device is next fitted to the same vehicle, at once or after any operations
  that were not themselves cut off.
  Drivers, vehicle groups, plates, device identity and custody are rules of their own. For each
  there is the exact condition under which an operation keeps it, whatever has become of the
  others; some, like unique plates, hold in every run.
* **Its history.** The assignments are intervals. `IMEIsAt`, `VehicleAt` and `PeriodsFor` are
  proved to answer what the intervals say, to agree with each other, to be each other's inverse
  when the history is unambiguous, and to change from a fitting's instant on and nowhere else.
* **Revocations.** Publishers, the durable set, the lossy channel and a subscriber's event loop
  are a transition system. A reread takes many steps and everything else may happen in between.
  Nothing un-revokes a live token, and a reread leaves an exact list.
* **The catalogue cache.** Reading, writing and sweeping by key prefix, down to the text of the
  keys. Over any run the cached service gives the answers of the uncached one, and one tenant's
  writes show to no other.
* **Contacts.** A site's list of contacts and the single contact that mirrors its default.

Ids appear in two spellings: as a caller typed them and as the database prints them
(24 hexadecimal digits, lower case). The register reads the first into the second (`oid`), but
some operations then compare the typed text with stored text. The model keeps that difference,
so a number of results say *exactly when* an operation keeps a rule; `known_gaps.dfy` holds
the states in which it does not.

The structure follows the program. Services and stores are classes whose methods issue the
writes in order (`registry_service.dfy`, `catalog_service.dfy`, `revocation_list.dfy`,
`revocation_store.dfy`, `devices.dfy`, `site_contacts.dfy`); each method is proved to compute
a specification function of the old state, and the theorems are about those functions.

| file | what it holds |
|---|---|
| `text.dfy`, `normalise.dfy`, `keys.dfy` | text, folding, the key grammar |
| `records.dfy` | documents, `BeforeWrite`, unique indexes |
| `registry.dfy`, `registry_frames.dfy`, `registry_promises.dfy`, `registry_accepts.dfy`, `registry_service.dfy` | the register: specification, frames, what it promises, what it accepts, the object |
| `fitting.dfy`, `fitting_outcomes.dfy`, `history.dfy`, `fleet_rules.dfy` | invariants of fittings, what one does, invariants of the history, of drivers, groups and plates |
| `rules.dfy` | every rule, and which operations keep it |
| `devices.dfy`, `device_ties.dfy`, `device_effects.dfy` | the queries, clashing rows, what fitting means to a query |
| `catalog.dfy`, `catalog_writes.dfy`, `catalog_accepts.dfy`, `catalog_service.dfy` | the lists without a cache, what writes mean and which are accepted, and the object with a cache |
| `catalog_cache.dfy`, `catalog_memory.dfy`, `catalog_queries.dfy`, `catalog_limits.dfy` | coherence of the cache, what it remembers, when queries are told apart, and where it ends |
| `platform.dfy` | register and lists as one machine; whole runs |
| `revocation_list.dfy`, `revocation_protocol.dfy`, `revocation_store.dfy`, `revocation_runs.dfy` | the list, how it is fed, the store and its event loop, and the loop as a run of the protocol |
| `site_contacts.dfy` | contacts |
| `known_gaps.dfy` | states in which an operation breaks a rule |

## Where the code does not do what it says

Each of these has a lemma with a failing state or run, and one with the exact condition under
which the code does keep the promise.

* An id compared as typed: `DeleteTracker` and `DeleteVehicle` (for a dashcam) retire what is
  still fitted, `DeleteDriver` leaves the driver on the truck, deleting a group leaves its
  vehicles in it, and a vehicle can name its group by an id nothing else finds.
* A swallowed read error: `All` skips a record whose read fails like one that expired, and the
  list that results does not call itself degraded, so a live token is let through again.
* `Publish` takes any instant. An older cutoff overwrites a later one, and a cutoff in the future
  is forgotten when its record expires, before the tokens it covers do.
* `Create` returns before the sweep for the two device lists, so their cached listings go stale.
* The text a listing is cached by reads the same for a search ending in `|s:name:true` as for a
  sort. A company named like a scope, and the parent "-", share keys with other questions.
* Switching off a vehicle group, a customer, a tracker model or a sensor type is accepted and has
  no effect.
* An `Unfit` cut off between its writes cannot be finished by repeating it.
* Staff may hand a fitted device to another company. The company whose truck it is on can then
  neither take it off nor retire the truck.
* `Validate` looks ids up in one map for all lists: an id that exists only under another list of
  the call passes, and one not spelled as printed is reported missing.
* `IMEIsAt` says the later of two clashing fittings wins. It compares with any row of that
  vehicle and IMEI, so a device that came back to the truck may lose. A backdated fitting is what
  makes rows clash.
* A contact form that says nothing leaves a list without a default as it is.

Where the repository's own README differs, the model follows the code: `Fit` keeps no vehicle id
on the tracker (the open assignment plays its part), and its writes do run in a session where
the server offers one.

## Model

| member | source | states |
|---|---|---|
| Text.TrimIdempotent | internal/services/registry.go:81-87 | ids and inputs trimmed on every path are the same after a second trim |
| Text.TrimTakesSpaces | internal/services/registry.go:124-134 | trimming takes spaces off both ends and nothing else |
| Text.TrimLeavesNone | internal/services/registry.go:124-134 | and leaves none there |
| Text.OidIsCanonical | internal/services/registry.go:81-87 | whatever spelling an id was read from, its printed form reads back as itself |
| Text.OidReadsExactly | internal/services/registry.go:81-87 | an id is read from a text if and only if its 24 hexadecimal digits, in either case, stand there between outer spaces |
| Text.JoinPrefix | internal/platform/cache/keys.go:32-52 | over parts free of the separator, a joined text with a closing separator is a prefix of another exactly when the parts are a proper prefix |
| Text.JoinInjective | internal/platform/cache/keys.go:32-41 | over such parts, joining loses nothing |
| Text.ItoaInjective | internal/services/catalog.go:233-247 | page numbers and sizes printed into a key stay apart, negative ones included |
| Normalise.PlateIdentifies | internal/platform/normalise/normalise.go:43-45 | two registrations have one stored twin if and only if they are equal apart from case and punctuation, a relation defined by walking both strings |
| Normalise.NameIdentifies | internal/platform/normalise/normalise.go:67-69 | two names have one folded twin if and only if they are equal when letters are compared without case, runs of space count as one and outer space is ignored, a relation defined by walking both strings |
| Normalise.NameIsIdempotent | internal/platform/normalise/normalise.go:67-69 | folding a folded name changes nothing |
| Normalise.FoldedBegins | internal/services/catalog.go:523-526 | a search is the start of a folded name if and only if walking it beside the name as typed finds it there, letters compared without case |
| Normalise.FoldingIsIdempotent | internal/platform/normalise/normalise.go:43-60 | folding a folded plate, serial number or IMEI changes nothing |
| Normalise.ImeiSurvivesTrim | internal/services/registry.go:764-819 | a folded IMEI has nothing left to trim |
| Normalise.TwinsIgnoreTrim | internal/services/registry.go:337-390 | inputs are trimmed before they are stored, and the twins are still those of what was typed |
| Keys.Key | internal/platform/cache/keys.go:32-41 | the loop builds the root, the version and each part with its colons replaced |
| Keys.Prefix | internal/platform/cache/keys.go:50-52 | a text that starts exactly those keys whose cleaned parts properly extend the given ones |
| Keys.SweepIsExact | internal/platform/cache/keys.go:32-52 | a prefix sweep removes exactly the keys whose cleaned parts properly extend the prefix's |
| Keys.KeysCollide | internal/platform/cache/keys.go:32-41 | two keys are one exactly when their cleaned parts are |
| RevocationList.ApplyAddsExactly | internal/platform/revocation/revocation.go:126-144 | applying an event refuses what was refused before and what the event covers, and nothing else |
| RevocationList.ReplayIsExact | internal/platform/revocation/revocation.go:147-157 | a replayed list refuses a token if and only if one of the events covers it |
| RevocationList.ReplayKeepsLatest | internal/platform/revocation/revocation.go:126-157 | for users and companies the list holds each id's latest cutoff |
| RevocationList.ReplayIsOrderFree | internal/platform/revocation/revocation.go:126-157 | events in any order and number give the same cutoffs and the same refusals |
| RevocationList.SessionReplayDependsOnOrder | internal/platform/revocation/revocation.go:126-132 | ended sessions are not order-free: the same events in another order store another instant |
| RevocationList.PruneIsInvisible | internal/platform/revocation/revocation.go:161-181 | for an unexpired token pruning changes the answer exactly when only a session end older than the token spoke against it |
| RevocationList.List.Revoked | internal/platform/revocation/revocation.go:100-123 | refused if and only if an entry of the list covers the token |
| RevocationList.List.Apply | internal/platform/revocation/revocation.go:126-144 | a cutoff only moves forward; a session end is stored as given |
| RevocationList.List.Replace | internal/platform/revocation/revocation.go:147-157 | the list becomes the replay of the events and is no longer degraded |
| RevocationList.List.Prune | internal/platform/revocation/revocation.go:161-181 | entries older than the longest token life go, the others stay |
| RevocationList.List.Drop | internal/platform/revocation/revocation.go:161-181 | deleting while ranging over the map removes exactly the old entries |
| RevocationList.List.MarkDegraded | internal/platform/revocation/revocation.go:193-205 | only the flag changes |
| RevocationProtocol.StoreKeysDistinct | internal/platform/revocation/redis.go:52-52 | one durable record per kind and id, whatever the id contains |
| RevocationProtocol.StepKeepsInv | internal/platform/revocation/redis.go:54-173 | every step keeps: each event still able to cover a live token has a record standing for it, no record expires before what its name covers, and a reread in progress has fetched or will fetch it |
| RevocationProtocol.RunKeepsInv | internal/platform/revocation/redis.go:54-173 | the same over every run |
| RevocationProtocol.CoveredIsFetched | internal/platform/revocation/redis.go:79-109 | a live token covered when the reread began is covered by something fetched, although records were overwritten and expired meanwhile |
| RevocationProtocol.ScanIsComplete | internal/platform/revocation/redis.go:79-109 | a finished reread refuses every live token covered when it began, and none never revoked |
| RevocationProtocol.ResyncIsExact | internal/platform/revocation/redis.go:166-173 | in every reachable state a reread leaves a list that refuses every live token covered by an event published before it began, and none that no event covers; the two are one when nothing is published meanwhile |
| RevocationProtocol.StepNeverUnrevokes | internal/platform/revocation/redis.go:115-173 | no step lets a refused live token through |
| RevocationProtocol.NeverUnrevoked | internal/platform/revocation/redis.go:54-173 | a token refused at any point of any run is refused until it expires, short of a restart |
| RevocationProtocol.PublishIsSafeWhenOrderly | internal/platform/revocation/redis.go:54-76 | a publication leaves the durable set complete if and only if it moves no live cutoff back |
| RevocationProtocol.PublishLastsWhenTimely | internal/platform/revocation/redis.go:54-76 | a publication is known until what it covers has expired if and only if its instant lies so that this is before its record expires, or it ends a session already ended |
| RevocationProtocol.FutureCutoffUnrevokes | internal/platform/revocation/redis.go:54-76 | a run in which a cutoff given in the future is forgotten with its record and a refused live token is let through |
| RevocationProtocol.OlderCutoffUnrevokes | internal/platform/revocation/redis.go:54-76 | a run in which an older cutoff takes a later one's place and a refused live token is let through |
| RevocationProtocol.SkippedReadsDecide | internal/platform/revocation/redis.go:79-109 | whichever reads of a reread fail, and whatever is published meanwhile, the list is not degraded, and it refuses every live token revoked before the reread began if and only if each event of a skipped key was dispensable: something fetched stands for it, or its name covers nothing live, which for a session is told by any end already spent |
| RevocationProtocol.SwallowedReadUnrevokes | internal/platform/revocation/redis.go:79-109 | an orderly, timely run from the start after which one failed read lets a revoked live token through |
| RevocationStore.ReadsFindsExactly | internal/platform/revocation/redis.go:79-109 | the events read are those of the readable keys, except events without an id |
| RevocationStore.FullReadRefuses | internal/platform/revocation/redis.go:79-109 | reading every key refuses exactly what the records cover |
| RevocationStore.Store.constructor | internal/platform/revocation/redis.go:40-45 | a lifetime that is not positive becomes two hours |
| RevocationStore.Store.Publish | internal/platform/revocation/redis.go:54-76 | record first, then announce; a failed record announces nothing, a lost announcement is no error |
| RevocationStore.Store.All | internal/platform/revocation/redis.go:79-109 | page by page, the readable events in scan order: an event is found if and only if some page names its key, its record is read and it has an id; only a failed scan is an error |
| RevocationStore.Store.Resync | internal/platform/revocation/redis.go:166-173 | a reread that succeeds leaves a list that refuses a token if and only if a record it reached covers it, and is not degraded; one that fails keeps the lists and marks them degraded |
| RevocationStore.Store.Watch | internal/platform/revocation/redis.go:115-164 | the loop first rereads and then heeds every signal: a message adds what it covers and nothing else, a closed subscription and every resync tick reread the durable set as it is by then, a prune tick takes out what is older than the longest token life |
| RevocationStore.Store.Hear | internal/platform/revocation/redis.go:130-162 | one turn of the loop computes what the signal is for |
| RevocationStore.SignalIsHeeded | internal/platform/revocation/redis.go:130-173 | for each signal, stated by the tokens refused afterwards, what it does to the list and to its degraded flag |
| RevocationStore.WatchedIsHeeded | internal/platform/revocation/redis.go:115-164 | so for the first reread and every signal of a sequence |
| RevocationStore.PagesExactly | internal/platform/revocation/redis.go:79-109 | a key is read if and only if some page of the scan names it, whichever page |
| RevocationRuns.RereadIsRun | internal/platform/revocation/redis.go:79-109 | a reread of the loop is a run of the protocol: begin, a read for each key of each page, end |
| RevocationRuns.WatchIsRun | internal/platform/revocation/redis.go:115-173 | whatever is published, announced and expires between its signals, the loop is a run of enabled protocol steps that ends with the same list |
| RevocationRuns.LoopNeverUnrevokes | internal/platform/revocation/redis.go:115-173 | over any such course of events, a token the loop refuses is refused until it expires |
| RevocationRuns.LoopResyncIsExact | internal/platform/revocation/redis.go:166-173 | after any such course, a resync tick or a closed subscription whose reread succeeds leaves a list that refuses a live token if and only if an event ever published covers it |
| Records.StoredIdentityIsStable | internal/models/models.go:758-781 | saving a stored device again changes nothing about what it is |
| Records.SavingIdentifiesExactly | internal/models/models.go:758-781 | a write leaves a stored identity if and only if a tracker has fifteen digits, in its id or, without one, in its IMEI, or a camera an id that is not blank |
| Records.CopyIsFaithful | internal/models/models.go:905-918 | an assignment keeps the identity copied from a stored device |
| Records.RowIsTold | internal/models/models.go:905-918 | whatever an assignment copies, it is stored with a kind, a tracker's with the digits of its number as IMEI, a camera's without one |
| RegistryFrames.StepFrame | internal/services/registry.go:245-1090 | which records an operation leaves as they were |
| RegistryServices.RegistryService.UnpairElsewhere | internal/services/registry.go:592-613 | every other truck of the company with this driver loses it and its login, and nothing else changes |
| RegistryServices.RegistryService.ChooseDriver | internal/services/registry.go:551-588 | keep, release or pair, with the other trucks written first |
| RegistryServices.RegistryService.SaveVehicle | internal/services/registry.go:508-546 | group check, pairing, then the write; a refused write keeps the unpairing already made |
| RegistryServices.RegistryService.CreateVehicle | internal/services/registry.go:508-525 | an accepted creation stores a new vehicle of the company with the plate, chassis number and group typed, twins filled and no device; every other vehicle is as it was or lost its driver to this one; and of the rules that held exactly those spared are kept |
| RegistryServices.RegistryService.UpdateVehicle | internal/services/registry.go:527-546 | an accepted update stores what was typed over what the vehicle was, keeps its company, device and life, and leaves every other vehicle as it was or without the driver taken |
| RegistryServices.RegistryService.DeleteVehicle | internal/services/registry.go:618-636 | refused while fitted, by the id as typed or by the vehicle's own copy |
| RegistryServices.RegistryService.CreateDriver | internal/services/registry.go:245-256 | an accepted creation adds one live driver of the company, named, active or inactive as typed, alone in having the login |
| RegistryServices.RegistryService.UpdateDriver | internal/services/registry.go:258-271 | an accepted update rewrites one driver of the company: what was typed, the rest as it was, alone in having the login |
| RegistryServices.RegistryService.DeleteDriver | internal/services/registry.go:275-288 | retires the driver, then releases the trucks naming the id as typed |
| RegistryServices.RegistryService.CreateTracker | internal/services/registry.go:821-854 | an accepted creation registers the kind and folded id typed, which no other live device has, with the status and the digits of the card number typed |
| RegistryServices.RegistryService.UpdateTracker | internal/services/registry.go:866-895 | an accepted update leaves the device what it is, moves it to another company only for staff, and takes the status and the digits of the card number typed, or keeps them |
| RegistryServices.RegistryService.DeleteTracker | internal/services/registry.go:917-934 | refused while an open assignment names the id as typed |
| RegistryServices.RegistryService.RunFit | internal/services/registry.go:1003-1035 | the writes in order for either kind of device, cut off after any of them, rolled back in a transaction |
| RegistryServices.RegistryService.Fit | internal/services/registry.go:951-1043 | an Ok ends the open stretches of the device, and of its kind on the vehicle, and begins exactly one more: this device on this vehicle, of its kind, from the instant asked for; a GPS device is then named by this vehicle and no other; nothing else changes |
| RegistryServices.RegistryService.RunUnfit | internal/services/registry.go:1065-1080 | the two writes in order, the second only for GPS, cut off in between |
| RegistryServices.RegistryService.Unfit | internal/services/registry.go:1049-1090 | an Ok ends the open stretch of the device, whatever its kind, and clears a GPS device from every vehicle naming it; nothing else changes |
| Fitting.PlanIsSound | internal/services/registry.go:951-1002 | a fitting that passes its checks names a live device and a live vehicle of the company and copies the device's identity, as of the instant asked for |
| Fitting.WritesSpelledOut | internal/services/registry.go:1003-1035 | what the database is after each prefix of the writes |
| Fitting.VacatedIsFree | internal/services/registry.go:1003-1019 | after the two closings neither the device nor the vehicle's slot is taken, and rows were only closed |
| Fitting.FitPrefixKeepsRegister | internal/services/registry.go:1003-1035 | after any prefix of the writes: one vehicle per device, one device per vehicle and kind, and every row sound |
| Fitting.FitLeavesOthersAlone | internal/services/registry.go:1003-1035 | no prefix changes whether another device and another vehicle agree |
| Fitting.FitSettles | internal/services/registry.go:1022-1033 | a finished GPS fitting leaves its device and its vehicle in agreement with everything |
| Fitting.FitRepairsExactly | internal/services/registry.go:1110-1127 | a finished GPS fitting restores full agreement if and only if every disagreement involved its device or its vehicle |
| Fitting.UnfitSettles | internal/services/registry.go:1049-1090 | taking a GPS device off settles everything about that device and nothing else |
| Fitting.UnfitRetryIsRefused | internal/services/registry.go:1049-1090 | an unfitting cut off between its writes is refused when repeated, and the vehicle goes on naming the device |
| Fitting.UnfitTwiceSettlesExactly | internal/services/registry.go:1049-1090 | asking twice leaves every vehicle in agreement if and only if the first was for a dashcam, in a transaction, or not cut off between its writes |
| FittingOutcomes.FitDoes | internal/services/registry.go:951-1043 | a finished fitting, of a tracker or of a dashcam, does what the row of Fit says |
| FittingOutcomes.OneStretchIsOpen | internal/services/registry.go:1003-1021 | afterwards the new stretch alone is open for the device, and alone of its kind on the vehicle |
| FittingOutcomes.FitEndsExactly | internal/services/registry.go:1003-1019 | from any state, sound or not, a fitting ends exactly the open stretches of the device and those on the vehicle of live devices of its kind; one of a retired device stays open |
| FittingOutcomes.CopiesExactly | internal/services/registry.go:1022-1033 | cut off anywhere, the copies are first taken off the other vehicles and then put on this one, which never loses its own |
| FittingOutcomes.FitAnswersExactly | internal/services/registry.go:951-1043 | the answer in every case: no such device, one that is not active, no such vehicle, an instant more than a minute ahead, a store lost before the last write, or the device |
| FittingOutcomes.UnfitDoes | internal/services/registry.go:1049-1090 | a finished unfitting does what the row of Unfit says |
| FittingOutcomes.UnfitAnswersExactly | internal/services/registry.go:1049-1090 | the answer in every case, a conflict exactly when nothing is open |
| Fitting.CreateTrackerRegisters | internal/services/registry.go:764-854 | a device is registered with the kind and folded id given, alone in having them among the live |
| Fitting.UpdateKeepsIdentity | internal/services/registry.go:764-895 | an accepted update changes neither kind, device id nor IMEI |
| Fitting.DeleteTrackerKeepsExactly | internal/services/registry.go:917-934 | retiring a device keeps the register if and only if the id was spelled as stored, the spelling given matched a fitting, or nothing was fitted |
| Fitting.DeleteVehicleKeepsExactly | internal/services/registry.go:618-636 | the same for a vehicle, which also sees its own GPS device |
| Fitting.StepKeepsRegisterExactly | internal/services/registry.go:508-1090 | an operation, cut off or not, keeps the register invariant if and only if it retires nothing that is fitted |
| Fitting.StepKeepsAgreement | internal/services/registry.go:508-1090 | every operation not cut off keeps each agreement between a device and a vehicle |
| History.FitKeepsHistoryExactly | internal/services/registry.go:951-1043 | a fitting keeps all intervals of a device and of a vehicle's GPS slot disjoint if and only if it does not begin before the end of an earlier stretch of either |
| History.ClosingKeepsUnambiguous | internal/services/registry.go:1049-1090 | closing an open stretch at any instant creates no overlap |
| History.StepKeepsHistory | internal/services/registry.go:508-1090 | every operation made in the order things happened keeps the intervals disjoint |
| History.StepRemembers | internal/services/registry.go:764-1090 | no operation changes what a device is or what a recorded fitting says, but for closing an open one |
| History.RemembersIsTransitive | internal/services/registry.go:764-1090 | remembering composes over steps |
| Devices.CarriesIsOneToOne | internal/repository/devices.go:46-129 | at any instant of an unambiguous history a vehicle carries one IMEI and an IMEI one vehicle |
| Devices.ImeisAreDetermined | internal/repository/devices.go:46-94 | then the point query has one answer, whatever order the cursor has |
| Devices.PointQueriesAreInverse | internal/repository/devices.go:46-129 | then the two point queries are inverse to each other |
| Devices.CopyAgreesWithHistory | internal/repository/devices.go:46-94 | once nothing recorded lies ahead, the vehicle's own copy of its device is what the point query says, both present or both absent |
| Devices.WindowRefinesPoint | internal/repository/devices.go:153-198 | at every instant of a window the returned periods in force are exactly what is carried |
| Devices.CompanyCallCoversVehicle | internal/repository/devices.go:153-198 | the company call restricted to a vehicle returns that vehicle's periods, each as often |
| Devices.AdmittedExactly | internal/repository/devices.go:55-63 | what the filter admits: this company, these vehicles, in force |
| Devices.TallyAnswers | internal/repository/devices.go:71-91 | whatever the order and the row compared with, every vehicle with a carried IMEI is answered with one it carried, and no other is |
| Devices.DeviceResolver.FittedAtOf | internal/repository/devices.go:96-103 | the instant on some row of the vehicle and IMEI, and nothing exactly when there is none |
| Devices.DeviceResolver.IMEIsAt | internal/repository/devices.go:46-94 | the loop computes the tally and so answers the question |
| Devices.DeviceResolver.StandingHasRow | internal/repository/devices.go:82-89 | the standing answer always has a row to compare with |
| Devices.DeviceResolver.VehicleAt | internal/repository/devices.go:110-129 | some vehicle that carried the IMEI, or none when none did |
| Devices.DeviceResolver.PeriodsFor | internal/repository/devices.go:153-198 | returns a period if and only if it is a stretch of a tracked device, of the company and vehicle asked for, that began no later than the end of the window and had not ended by its start; in the order of the sorted cursor |
| DeviceTies.LaterWinsExactly | internal/repository/devices.go:76-91 | a latest fitting wins for every order and every row compared with, if and only if no row of a latest IMEI is as early as a loser's admitted row and no row of a loser is later than the latest fitting |
| DeviceTies.OneStretchEachIsEnough | internal/repository/devices.go:76-91 | it wins whenever each device was on the vehicle once |
| DeviceTies.HoldingIsNeeded | internal/repository/devices.go:76-103 | otherwise an order and a row exist by which a loser replaces a winner |
| DeviceTies.YieldingIsNeeded | internal/repository/devices.go:76-103 | or by which a loser, once answered, is not replaced |
| DeviceEffects.FitRewritesFromThen | internal/services/registry.go:951-1043 | a GPS fitting: from its instant on the vehicle carries the device, and neither carries or is carried otherwise except where an ended stretch says so; every other answer, past or elsewhere, stays |
| DeviceEffects.UnfitRewritesFromThen | internal/services/registry.go:1049-1090 | from the instant of removal only an ended stretch carries the device; every other answer stays |
| DeviceEffects.FittedIsAnswered | internal/repository/devices.go:46-94 | after a fitting, at an instant no ended stretch speaks for, the point query names the device for its vehicle and for no other |
| DeviceEffects.ChronologicalIsUndisputed | internal/repository/devices.go:46-94 | for a fitting made in the order things happened that is every instant from its own on |
| Catalog.DeleteGroupKeepsExactly | internal/services/catalog.go:414-458 | deleting a group keeps every group reference whole if and only if its id is spelled as stored or nobody is in it |
| Catalog.WriteTouchesOneEntry | internal/services/catalog_write.go:71-216 | a write changes one entry of its own list, which for a company is one it owns before and after |
| Catalog.RefusedWriteIsNothing | internal/services/catalog_write.go:71-216 | a refused write changes nothing |
| Catalog.WriteShowsOnlyAtHome | internal/services/catalog.go:485-494 | a company's write shows only to itself and to staff, and only in the list written |
| Catalog.UngroupingStaysHome | internal/services/catalog.go:432-458 | the unscoped sweep of a deleted group's vehicles stays within the company that owned the group, when each vehicle's group, in any spelling and retired or not, is of its own company |
| Catalog.TenantsDoNotInterfere | internal/services/catalog.go:291-458 | then, whatever a company writes, every other company and the shared scope get the same from Get, List and Resolve, and keep their vehicles |
| CatalogWrites.AuthorityExactly | internal/services/catalog_write.go:191-216 | staff may change every live entry, a company exactly its own; a shared one is forbidden, another's is not found |
| CatalogWrites.ReadsWhatItMayChange | internal/services/catalog.go:485-494 | a caller reads exactly what it may change and the shared entries |
| CatalogWrites.WritesNeedAuthority | internal/services/catalog.go:312-426 | no write is applied without that authority; only staff create in the lists without owners |
| CatalogAccepts.CreatedExactly | internal/services/catalog.go:312-368 | the answer of a creation in every case: which lists are written, what each requires, that the device lists are for staff, that an entry of a private list needs an owner, and that the id is new |
| CatalogAccepts.UpdatedExactly | internal/services/catalog.go:398-411 | the answer of an update in every case: the list is not written, there is no such entry or it is another company's, it is shared, or it is changed |
| CatalogAccepts.DeletedExactly | internal/services/catalog.go:414-426 | the answer of a deletion in every case |
| CatalogAccepts.WriteKeepsOwners | internal/services/catalog.go:143-147 | every write keeps every customer, item and vehicle group owned by a company |
| CatalogAccepts.PrivateEntriesAreOnes | internal/services/catalog.go:143-147 | so no two companies read the same one |
| CatalogWrites.CreatedIsRead | internal/services/catalog.go:312-368 | a new entry is read by its owner, by staff and, when shared, by all, and by nobody else; it says what was typed as far as its list declares it, and what the list folds or forces |
| CatalogWrites.UpdatedIsRead | internal/services/catalog_write.go:115-156 | an update is read by exactly those who read the entry before, with the same owner and the payload laid over what it said, decoded and folded by its list |
| CatalogWrites.WrittenIsKept | internal/models/models.go:185-825 | what a list's document keeps of what was typed: no undeclared field, the others as typed, device codes and names folded, activity forced or as said |
| CatalogWrites.WrittenIsStable | internal/models/models.go:181-825 | saving again what is stored changes no field |
| CatalogWrites.WriteKeepsStored | internal/services/catalog_write.go:71-183 | every write keeps the folded names, and leaves each entry as its own write path would |
| CatalogWrites.EmptyUpdateIsNothing | internal/services/catalog_write.go:115-156 | so an update that says nothing changes nothing |
| CatalogWrites.DeactivationTakesEffectExactly | internal/models/models.go:697-825 | switching an entry off is read as such exactly in the lists that declare the field and do not force it: not for groups, customers, tracker models or sensor types |
| CatalogWrites.SwitchingOffAGroupDoesNothing | internal/models/models.go:511-530 | from nothing: a company adds a group, switches it off, and reads it as active |
| CatalogWrites.DeletedIsGone | internal/services/catalog_write.go:163-183 | a deleted entry is found by nobody, and cannot be changed or deleted again |
| CatalogWrites.OthersReadAsBefore | internal/services/catalog_write.go:71-183 | every other entry is read as before, by everybody |
| CatalogWrites.OwnersAreForGood | internal/services/catalog_write.go:71-183 | over any writes an entry keeps its owner, and a deleted one stays as it was |
| CatalogWrites.ListAgreesWithGet | internal/services/catalog.go:497-593 | under any parent and search every listed entry matches and is what a lookup gives, and a page holding all the matches misses none |
| CatalogWrites.ListingMatchesExactly | internal/services/catalog.go:515-526 | a listing matches exactly the visible entries whose parent field is the parent asked for and whose name begins with the search, compared as names are |
| CatalogWrites.FindsExactly | internal/services/catalog.go:523-526 | a search finds a name if and only if the name begins so, letters compared without case, however it was typed |
| CatalogWrites.ParentIsAcceptedExactly | internal/services/catalog.go:497-526 | a parent is accepted for sub-categories, items, cities and districts, each under a field of its own, and refused for every other list |
| CatalogMemory.EachOnItsPage | internal/services/helpers.go:15-38 | with a database that skips and limits what it has ordered, every entry found is on the page its place falls on, at its place there, and on no other page |
| CatalogWrites.ResolveAgreesWithGet | internal/services/catalog.go:601-646 | resolving gives what looking each id up as the company would, nothing else and nothing missing |
| CatalogWrites.ValidateAgreesExactly | internal/services/catalog.go:654-672 | validating a reference agrees with looking it up exactly when one that exists is spelled as printed, and one that does not is not resolved under another list of the same call |
| CatalogCache.BuildQueryText | internal/services/catalog.go:233-247 | the builder's loops write the search, then each clause and sort behind a bar |
| CatalogQueries.CleanTextDecides | internal/services/catalog.go:233-247 | clean queries of one text ask for the same search in the same order, and by the same clauses where field and operator have no colon |
| CatalogQueries.CleanQueriesTell | internal/services/catalog.go:233-247 | fingerprints that do not collide tell any set of clean queries apart |
| CatalogQueries.TextTellsExactly | internal/services/catalog.go:233-247 | no other query has a query's text if and only if it is a bare search in which no bar is followed by a clause or a sort |
| CatalogCache.EntryKeyDecides | internal/services/catalog.go:218-231 | an entry key is read by one question only |
| CatalogCache.ListKeyExactly | internal/services/catalog.go:233-247 | two listings share a key exactly when scope, list, parent, page and fingerprint agree |
| CatalogCache.ChangeKeepsCoherence | internal/services/catalog.go:255-265 | after a write's sweep every cached answer left is what the database answers |
| CatalogCache.StepIsInvisible | internal/services/catalog.go:312-593 | each step answers as the uncached service and keeps the cache coherent |
| CatalogMemory.ForgetsExactly | internal/services/catalog.go:255-265 | a write forgets exactly the answers it may have changed: all of them where it is staff's, else those of its list that its own company or staff asked for |
| CatalogMemory.OthersAnswersAreKept | internal/services/catalog.go:556-593 | an entry once answered is answered again from the cache, after any write that does not make it stale, and is not in the cache after one that does |
| CatalogMemory.OthersListingsAreKept | internal/services/catalog.go:497-553 | and so is a listing |
| CatalogCache.CacheIsInvisible | internal/services/catalog.go:312-593 | over any run of reads, writes, evictions and register operations, from any database whose names are folded, every answer is the uncached one |
| CatalogLimits.InvisibleExactly | internal/services/catalog.go:233-247 | no run over a set of queries is answered otherwise than by the database if and only if the fingerprints tell apart, among queries of one page, those that find different names or order what they find differently; the run that goes wrong starts from the empty database |
| CatalogLimits.SortSpelledAsSearchGoesWrong | internal/services/catalog.go:233-247 | from nothing: a brand is added, browsed by a sort, and searched for by the text of that sort; the sorted listing is the answer, under any fingerprint |
| CatalogLimits.CreationsAreSeenExactly | internal/services/catalog.go:312-368 | runs that also create entries of a list are answered as by the database exactly for the lists whose entries have owners |
| CatalogLimits.UnownedCreateGoesStale | internal/services/catalog.go:341-347 | a cached empty listing still counts none after a device entry was created |
| CatalogLimits.BothRightExactly | internal/services/catalog.go:218-247 | two listings of any list and page, one after the other, are answered rightly on every database the writes can make if and only if scope or parent read differently in the key, or they ask the same |
| CatalogLimits.CompanyCalledStaffGoesWrong | internal/services/catalog.go:218-227 | a run from nothing in which a company named "staff" is shown another company's entry |
| CatalogLimits.CompanyCalledGlobalGoesWrong | internal/services/catalog.go:218-227 | a run from nothing in which a company named "global" is not shown its own |
| CatalogLimits.DashParentGoesWrong | internal/services/catalog.go:233-247 | a run from nothing in which the parent "-" is answered with an entry of another parent |
| CatalogServices.StripReserved | internal/services/catalog_write.go:71-113 | the loop deletes exactly the reserved fields |
| CatalogServices.Merge | internal/services/catalog_write.go:115-156 | the loop lays the payload over the stored fields, reserved ones excepted |
| CatalogServices.CatalogService.Get | internal/services/catalog.go:556-593 | the read-through lookup |
| CatalogServices.CatalogService.List | internal/services/catalog.go:497-553 | the read-through listing, which looks in the cache before it checks the parent; its search ignores case, as the rows of ListingMatchesExactly and FindsExactly say |
| CatalogServices.CatalogService.Resolve | internal/services/catalog.go:601-646 | list by list, later answers laid over earlier ones, refused whole for an unknown list |
| CatalogServices.CatalogService.Validate | internal/services/catalog.go:654-672 | the loops collect the ids, as typed, that are neither empty nor resolved |
| CatalogServices.CatalogService.DeleteByPrefix | internal/services/catalog.go:255-265 | removes exactly the keys below the prefix |
| CatalogServices.CatalogService.Invalidate | internal/services/catalog.go:255-265 | a company's write sweeps its own and the staff view of the list, any other write everything |
| CatalogServices.CatalogService.Create | internal/services/catalog.go:312-368 | the checks in order, among them the one on lists that may not hold shared entries, the insertion, and the sweep where the code reaches it |
| CatalogServices.CatalogService.Update | internal/services/catalog.go:398-411 | load, merge, write, sweep |
| CatalogServices.CatalogService.Delete | internal/services/catalog.go:414-426 | retire, sweep, release the vehicles of a group |
| CatalogServices.CatalogService.UngroupVehicles | internal/services/catalog.go:432-458 | only for vehicle groups, and only vehicles naming the id as typed |
| FleetRules.SavingKeepsPairs | internal/services/registry.go:508-613 | each driver on one truck, live and of its company, and no login without a driver: also when the write is refused after the unpairing |
| FleetRules.PairingTakes | internal/services/registry.go:551-613 | afterwards the vehicle has the driver with its login, and every other truck has the driver it had, or none if it was this one |
| FleetRules.PairingKeepsOrReleases | internal/services/registry.go:551-588 | without a driver in the input the vehicle keeps its own, with a blank one it has none; no other truck is touched |
| FleetRules.NamingItsDriverIsNothing | internal/services/registry.go:551-588 | naming the driver a vehicle already has is the same as naming none: not even a changed login is taken over |
| FleetRules.DeleteDriverKeepsExactly | internal/services/registry.go:275-288 | retiring a driver keeps the pairs if and only if the id is spelled as stored or no truck has the driver |
| FleetRules.SavingKeepsGroupsExactly | internal/services/registry.go:1142-1159 | a saved vehicle's group reference is whole if and only if the id was given as stored |
| FleetRules.SavedExactly | internal/services/registry.go:508-588 | a vehicle is stored if and only if its group is the company's, its driver active or left out, its plate valid, and neither plate nor chassis number taken |
| FleetRules.SavingKeepsGroups | internal/services/registry.go:508-546 | saving keeps every group reference whole if and only if these guards refuse it or the group to be stored is spelled as stored |
| FleetRules.SavingKeepsHomes | internal/services/registry.go:1142-1159 | saving keeps every group reference within its company, in any spelling |
| FleetRules.NoVehicleTwice | schema/master_data.js:334-342 | no two live vehicles of a company carry one plate typed twice, and no two anywhere one chassis number |
| RegistryPromises.CreateVehicleSays | internal/services/registry.go:337-525 | the new vehicle is what was typed without its outer space, its twins filled, active where no status is typed |
| RegistryPromises.UpdateVehicleSays | internal/services/registry.go:337-546 | the vehicle is what was typed over what it was; blank clears, nothing typed keeps |
| RegistryPromises.CreateDriverSays | internal/services/registry.go:162-256 | the new driver is who was typed, and nobody else has the login |
| RegistryPromises.UpdateDriverSays | internal/services/registry.go:162-271 | the driver is who was typed over who it was |
| RegistryPromises.UpdateTrackerSays | internal/services/registry.go:764-895 | the device is the one it was; only staff move it, and no other live device has its card |
| RegistryAccepts.CreateVehicleExactly | internal/services/registry.go:508-525 | a vehicle is added if and only if its plate has a letter or digit, no live vehicle of the company has that plate and none anywhere that chassis number, up to case and punctuation, and its group and driver are the company's |
| RegistryAccepts.UpdateVehicleExactly | internal/services/registry.go:527-546 | an update likewise, with what is not typed as it was |
| RegistryAccepts.DeleteVehicleExactly | internal/services/registry.go:618-636 | refused exactly while something is fitted to the id as typed or the vehicle names a tracker; otherwise only marked |
| RegistryAccepts.CreateDriverExactly | internal/services/registry.go:245-256 | the answer in every case: a name is needed, a status is active or inactive, and no other live driver has the login |
| RegistryAccepts.UpdateDriverExactly | internal/services/registry.go:258-271 | the same for an update |
| RegistryAccepts.DeleteDriverExactly | internal/services/registry.go:275-288 | a driver is only marked, and leaves exactly the company's trucks that name the id as typed |
| RegistryAccepts.CreateTrackerExactly | internal/services/registry.go:764-854 | the answer in every case: the kind typed is known, a tracker has fifteen digits and a camera an id, and no live device is the same or has the card |
| RegistryAccepts.UpdateTrackerExactly | internal/services/registry.go:764-895 | the answer in every case: the kind and the id typed are the ones it has, and no other live device has the card |
| RegistryAccepts.DeleteTrackerExactly | internal/services/registry.go:917-934 | refused exactly while something is fitted under the id as typed; otherwise only marked |
| FleetRules.ResavingKeepsTwins | internal/models/models.go:477-507 | saving again what is stored changes neither twin |
| FleetRules.SavingKeepsTwins | internal/repository/repository.go:85-133 | the write path fills the twins and keeps them unique |
| FleetRules.DeletingFreesTwins | internal/repository/repository.go:197-211 | retiring a vehicle frees its plate and chassis number |
| Rules.ActKeepsExactly | internal/services/registry.go:508-1159 | rule by rule: an operation of register or lists, cut off or not, keeps a rule that holds if and only if it spares it, whatever has become of the other rules |
| Rules.StepKeepsCustodyExactly | internal/services/registry.go:866-895 | what is on a company's truck stays the company's if and only if no accepted staff update hands a fitted device to another |
| Rules.TakesOffExactly | internal/services/registry.go:1049-1090 | a company can take off what is on its truck if and only if the device is its own; otherwise it is told there is none |
| Rules.FittedTruckStays | internal/services/registry.go:618-636 | and until then the truck cannot be retired |
| Platform.RunKeepsExactly | internal/services/registry.go:508-1159 | a rule holds in every state of a run, operations cut off part-way included, for exactly the runs whose acts spare that rule |
| Platform.EveryRunKeeps | internal/services/registry.go:508-1159 | in every run whatsoever devices stay distinct and what they were registered as, plates and chassis numbers unique, a vehicle's group one of its own company, list entries as their write path leaves them, and every customer, item and vehicle group owned by a company |
| Platform.TenantsNeverInterfere | internal/services/catalog.go:291-458 | after any run at all, whatever a company writes, every other company and the shared scope get the same answers and keep their vehicles |
| Platform.PrivateListsStayPrivate | internal/services/catalog.go:143-147 | after any run at all from nothing, no two companies read the same customer, item or vehicle group |
| Platform.RunKeepsIdsPrinted | internal/services/catalog_write.go:99-112 | list ids stay printed ones in every run that mints printed ids |
| Platform.WellSpelledRunSpares | internal/services/registry.go:81-87 | a run whose ids are spelled as stored spares every rule but custody |
| Platform.RunKeepsAgreement | internal/services/registry.go:1022-1079 | in every run from the empty database that retires nothing fitted and whose operations finish or are rolled back, each vehicle names exactly the GPS device an open assignment puts on it |
| Platform.ChronologicalRunIsUnambiguous | internal/services/registry.go:951-1090 | a chronological run leaves disjoint intervals |
| Platform.RunRemembers | internal/services/registry.go:764-1090 | over any run at all devices stay what they are and recorded fittings say what they said |
| Platform.CrashConfinesDamage | internal/services/registry.go:1003-1035 | a fitting cut off anywhere sets at odds only its own device or vehicle |
| Platform.CrashIsRepairedLater | internal/services/registry.go:1110-1127 | a cut-off fitting, any whole operations that retire nothing fitted, then the same device fitted to the same vehicle: full agreement again |
| Platform.RetryIsAccepted | internal/services/registry.go:951-1002 | a cut-off fitting asked for again passes its checks, for the same device and vehicle |
| Platform.RetryRepairs | internal/services/registry.go:1110-1127 | and so restores full agreement, whenever it is retried |
| SiteContacts.Site.ApplyPICs | internal/services/site_write.go:70-135 | the entered rows in order with the default asked for, or the single contact edited; the mirror always shows the default |
| SiteContacts.Build | internal/services/site_write.go:70-135 | the loop over the rows, refused when a row has a phone and no name; rows without an id get different minted ones |
| SiteContacts.Edit | internal/services/site_write.go:70-135 | edits the first default in place, or joins a new one and flags it alone |
| SiteContacts.OneDefaultAfterList | internal/services/site_write.go:70-135 | a list leaves exactly one default whenever anyone is on it |
| SiteContacts.OneDefaultAfterEdit | internal/services/site_write.go:70-135 | so does a single contact |
| SiteContacts.OneDefaultExactly | internal/services/site_write.go:70-135 | at most one default always; one whenever anyone is there, if and only if the form said something or it was so before |
| SiteContacts.SilentFormRepairsNothing | internal/services/site_write.go:70-135 | a list without a default stays so under a form that says nothing |
| KnownGaps.CapitalsRespell | internal/services/registry.go:81-87 | an id in capitals is read as the id in lower case and is another text |
| KnownGaps.RespelledIdRetiresWhatIsFitted | internal/services/registry.go:618-934 | a fitted camera, and a vehicle with one, retired by their ids spelled otherwise |
| KnownGaps.HandedDeviceIsStuck | internal/services/registry.go:866-895 | a fitted device handed to another company: the first can neither take it off nor retire the truck |
| KnownGaps.OtherListPasses | internal/services/catalog.go:654-672 | a reference to a cargo type that does not exist passes beside a brand of its id |
| KnownGaps.RespelledIsMissing | internal/services/catalog.go:654-672 | an existing brand, its id spelled otherwise, is reported missing |
| KnownGaps.RespelledIdLeavesTheDriver | internal/services/registry.go:275-288 | a retired driver still on a truck |
| KnownGaps.RespelledIdLeavesTheGroup | internal/services/catalog.go:432-458 | a vehicle left in a deleted group |
| KnownGaps.RespelledIdJoinsNoGroup | internal/services/registry.go:1142-1159 | a vehicle naming its group by an id nothing else finds |
| KnownGaps.BackdatingOverlaps | internal/services/registry.go:951-1043 | a backdated fitting after which two stretches of one device cover one instant |
| KnownGaps.ComingBackReaches | internal/services/registry.go:951-1090 | five fittings and unfittings that leave a returned device clashing with one recorded before |
| KnownGaps.ReturnedDeviceMayLose | internal/repository/devices.go:76-103 | there, with the register in order, a later fitting loses to an earlier one |

## Left out

* Handlers, routes, gRPC, generated code, Swagger, logging, configuration, JWT and permission checks, parsing of page numbers and counting of pages: shape conversion and plumbing. Seeding loads the read-only lists with their names folded, which is all the model asks of a database it starts from.
* MongoDB and Redis themselves: collections are maps keyed by printed id, a sweep is deletion by string prefix, a time to live is an expiry step. How a cursor sorts, skips and limits is a parameter, of which results about the cache ask only that it returns what was found, each once.
* Interleavings of concurrent requests: one service call is atomic, except where it is cut off part-way and except in the revocation protocol, whose rereads are not atomic.
* Database reads succeed. `Fit` and `Unfit` are cut off at every write and `Publish`, rereads and single reads fail where the code has a branch for it; other operations are not cut off.
* In-place mutation of documents: `apply`, decoding, `BeforeWrite` and `Stamp` are functions from the document to the document written, because every path saves what they leave.
* Fields without a rule in this model: brand, model and unit type of a vehicle, odometer, attributes, timestamps, actors, licence dates, phone numbers. `checkModel` is not part of this model.
* The indexes on a driver's phone, employee number and licence, and the lists' own indexes and validators: their verdict is an input (`clash`, `refused`), so every result holds for either.
* Change notices, the membership rows deleted with a vehicle, and the announcement of group changes: no reader of this model depends on them.
* The JSON round trip of cached values and failed cache calls: a cached answer is kept as given, and a failed write or deletion is not modelled (an expired or evicted entry is).
* The fingerprint is a parameter: results about the cache ask of it what `Telling` says, of companies that they are not named "staff" or "global" and have no colon, and of parents that they are not "-" and have no colon.
* Explicit nulls in a payload, and values of the wrong type: a value is a text, and the refusal of one that does not decode is part of the `refused` input. The driver's fallback from a key to its lower-case form is not part of this model.
* Unicode: text is ASCII, so `strings.ToUpper`, `ToLower` and `TrimSpace` are their ASCII parts.
* `currentDriverUserId` following a driver whose login changes later: the code does not promise it.
* The truncation of stored instants to milliseconds: instants are integers of one unit.
* RevocationProtocol.NeverUnrevoked: assumes each name's cutoffs are published in order, no event dated so far ahead that it outlives its record, tokens no longer-lived than records, no token minted for an ended session, and reads of present keys succeeding; the results beside it show exactly when the first two and the last are needed.
* An event without an id, which every reader ignores, is never published in the model.
* RevocationRuns.LoopNeverUnrevokes: others publish between the loop's signals, not within one of its rereads; `NeverUnrevoked` has them publish anywhere. It takes over that lemma's conditions.
* RevocationStore.Store.All: events whose kind is none of the three declared ones are not modelled.
