# Geotify: the geofence bookkeeping of `GeotificationsViewController`

Geotify lets a user drop geotifications on a map. A geotification is a circular
geofence (centre, radius, identifier, note, and whether it fires on entry or on
exit). `GeotificationsViewController` keeps the list of geotifications on
screen. It draws one circle per geotification on the map, registers regions
with Core Location for monitoring, persists the list in the user defaults, and
reacts to authorization changes.

This project models that bookkeeping in Dafny. The platform objects the
controller drives become plain state of one class,
`Controller.GeotificationsViewController`:

- `geotifications`: the list on screen.
- `overlays`: the map view's overlays.
- `showsUserLocation`: whether the map shows the user's location.
- `monitoredRegions`: the location manager's monitored regions.
- `titleCount`: the count shown in the title "Geotifications (n)". `None` means the title is still the storyboard's.
- `alerts`: the alerts presented.
- `defaults`: the standard user defaults.

Each method states its whole new state: what changed, and that every other
field is unchanged.

The modules follow the parts of the controller:

- `Sequences`: the Swift array operations it uses. These are `indexOf`, `removeAtIndex` on the index found, and element-wise mapping.
- `Geotify`: the geotification value and the circle drawn for it.
- `Monitoring`: the region built for a geotification, and which regions survive a stop.
- `Persistence`: the stored array of archived items, and what a load decodes from it.
- `Controller`: the class, and the invariant that every geotification has its circle on the map.

The archiver and unarchiver are foreign code, so they are parameters:

- `encode` is any total function from a geotification to bytes.
- `decode` is any partial function from bytes to a geotification.

The device's monitoring capability and the current authorization status are
parameters of `StartMonitoringGeotification`.

The loop of `loadAllGeotifications` over the stored items is its own method,
`AddDecodableItems`, which `LoadAllGeotifications` calls after emptying the
list.

`regionWithGeotification` is modelled as written. Exit notification is copied
from entry notification. So an `OnEntry` geotification fires on entry and on
exit, and an `OnExit` geotification fires on neither. The model keeps this
behaviour and states it in the contract of `Monitoring.RegionWithGeotification`.

## Model

| member | source | states |
|---|---|---|
| Sequences.IndexOf | Geotify/GeotificationsViewController.swift:76 | `indexOf` finds nothing exactly when the element is absent; otherwise it gives a position holding the element with no earlier occurrence |
| Sequences.RemoveFirst | Geotify/GeotificationsViewController.swift:76-78 | removing at the index found drops exactly one occurrence (length one less, multiset minus that element) when present, and changes nothing when absent |
| Sequences.RemoveFirstSplit | Geotify/GeotificationsViewController.swift:76-78 | only the first occurrence goes: everything before and after it stays in order, later occurrences included |
| Sequences.AppendThenRemoveFirst | Geotify/GeotificationsViewController.swift:68-83 | adding then removing the same geotification restores the length and the elements, and the exact list when it was absent before |
| Sequences.RemoveFirstAfterAppend | Geotify/GeotificationsViewController.swift:68-83 | adding a geotification that is already listed and then removing it moves its first copy to the end |
| Sequences.Map | Geotify/GeotificationsViewController.swift:58-61 | the per-element loop yields one transformed item per element, same length, in order |
| Sequences.MapDistributes | Geotify/GeotificationsViewController.swift:58-61 | the mapping of a concatenation is the concatenation of the mappings |
| Sequences.MapAppendOne | Geotify/GeotificationsViewController.swift:58-61 | mapping one more element appends exactly its image |
| Sequences.MapMultisetSplit | Geotify/GeotificationsViewController.swift:142-144 | one more geotification contributes exactly one more circle to the multiset of circles |
| Geotify.CircleOf | Geotify/GeotificationsViewController.swift:142-144 | the overlay drawn for a geotification is a circle with its centre and radius |
| Geotify.CircleMatches | Geotify/GeotificationsViewController.swift:150-152 | the latitude, longitude and radius comparison holds of exactly one overlay, the circle drawn for the geotification |
| Monitoring.ShowsUserLocationFor | Geotify/GeotificationsViewController.swift:170-172 | the user's location is shown only when the status is `AuthorizedAlways`, and hidden for each of the other four statuses, `AuthorizedWhenInUse` included |
| Monitoring.RegionWithGeotification | Geotify/GeotificationsViewController.swift:175-189 | the region is circular with the geotification's centre, radius and identifier; entry notification is on iff the event is `OnEntry`; exit notification equals entry notification, so `OnExit` gets neither |
| Monitoring.IsCircularNamed | Geotify/GeotificationsViewController.swift:228-229 | a circular region matches exactly when its identifier is the geotification's; a region of another kind never matches, whatever its identifier |
| Monitoring.WithoutCircularRegionsNamed | Geotify/GeotificationsViewController.swift:226-234 | a stop never leaves more regions than were monitored |
| Monitoring.StopKeepsExactlyOthers | Geotify/GeotificationsViewController.swift:226-234 | after a stop, no surviving region is circular with the identifier; every region that is not such a region survives; nothing is added |
| Monitoring.StoppedIsNotKept | Geotify/GeotificationsViewController.swift:228-230 | a circular region with the identifier is never among the survivors of a stop |
| Monitoring.StopStep | Geotify/GeotificationsViewController.swift:227-232 | scanning one more region keeps it exactly when it is not a circular region with the identifier |
| Monitoring.StopScanStops | Geotify/GeotificationsViewController.swift:227-232 | one loop iteration on a matching region: stopping it extends the scanned prefix by one region |
| Monitoring.StopScanKeeps | Geotify/GeotificationsViewController.swift:227-232 | one loop iteration on a region that does not match: leaving it extends the scanned prefix by one region |
| Monitoring.StartThenStop | Geotify/GeotificationsViewController.swift:196-234 | stopping a geotification removes the region starting it registered, and leaves the earlier regions as a stop without that start would |
| Monitoring.NothingStoppedWhenNoneNamed | Geotify/GeotificationsViewController.swift:226-234 | when no circular region carries the identifier, a stop changes nothing |
| Monitoring.StopIsIdempotent | Geotify/GeotificationsViewController.swift:226-234 | a second stop for the same identifier changes nothing |
| Monitoring.StopDistributes | Geotify/GeotificationsViewController.swift:226-234 | stopping over a concatenation stops each part on its own, so survivors keep their relative order |
| Persistence.SavedItems | Geotify/GeotificationsViewController.swift:47 | reading the key gives the stored array, and nothing when the key is absent or holds something other than an array |
| Persistence.ReadAfterStore | Geotify/GeotificationsViewController.swift:47-62 | reading the key back gives exactly the array a save stored under it; storing under another key does not change what is read |
| Persistence.Decoded | Geotify/GeotificationsViewController.swift:44-54 | a load yields at most one geotification per stored item |
| Persistence.DecodedFromItems | Geotify/GeotificationsViewController.swift:47-50 | every geotification a load yields is what some stored item decodes to |
| Persistence.DecodedStep | Geotify/GeotificationsViewController.swift:48-51 | reading one more item appends its geotification when it decodes and nothing otherwise |
| Persistence.DecodedDistributes | Geotify/GeotificationsViewController.swift:44-54 | items load independently and in order: the load of a concatenation is the concatenation of the loads |
| Persistence.DecodableIsLoaded | Geotify/GeotificationsViewController.swift:48-51 | every stored item that unarchives to a geotification has that geotification loaded, wherever it sits |
| Persistence.DecodablePositionsStep | Geotify/GeotificationsViewController.swift:48-51 | the positions that decode are those before the last item, plus the last one when it decodes |
| Persistence.LoadedCount | Geotify/GeotificationsViewController.swift:44-54 | a load yields exactly as many geotifications as there are stored items that unarchive to one |
| Persistence.SkipsUndecodableItem | Geotify/GeotificationsViewController.swift:49-51 | an item that unarchives to no geotification is skipped without aborting the load: the items around it load as if it were absent |
| Persistence.DecodedAllDecodable | Geotify/GeotificationsViewController.swift:44-54 | when every item decodes, the load yields one geotification per item, each the decoding of the item at the same position |
| Persistence.OneUndecodableAmongDecodable | Geotify/GeotificationsViewController.swift:44-54 | one undecodable item among decodable ones reduces the count by exactly one |
| Persistence.ReloadAfterSave | Geotify/GeotificationsViewController.swift:44-64 | when the unarchiver inverts the archiver on each saved geotification, loading the saved array gives the list back |
| Controller.CoverAfterAdd | Geotify/GeotificationsViewController.swift:68-73 | adding a geotification together with its circle keeps every geotification's circle on the map |
| Controller.CoverByAppending | Geotify/GeotificationsViewController.swift:44-54 | overlays ending with the circles of the loaded list, in order, cover that list |
| Controller.LoadAddsItem | Geotify/GeotificationsViewController.swift:48-51 | one iteration of the load loop on an item that decodes: adding the geotification and its circle loads one more item, and the load is then not empty |
| Controller.LoadSkipsItem | Geotify/GeotificationsViewController.swift:48-51 | one iteration of the load loop on an item that does not decode: skipping it loads one more item |
| Controller.LoadFinished | Geotify/GeotificationsViewController.swift:44-54 | once every item is read, the list is the load of all items, one per item that decodes, and the overlays cover it |
| Controller.AbsentRemovalCanBreakCover | Geotify/GeotificationsViewController.swift:75-83 | removing a geotification that is not listed leaves the list alone but still removes a circle another geotification drew, so with the overlays exactly the list's circles the cover is lost |
| Controller.CoverAfterRemove | Geotify/GeotificationsViewController.swift:75-83 | removing a listed geotification and the first circle matching it keeps every remaining geotification's circle on the map |
| Controller.GeotificationsViewController.constructor | Geotify/GeotificationsViewController.swift:19-20 | the controller starts with no geotifications and no overlays, with the device's regions and defaults, with the user-location setting the map view starts with (a parameter: only the authorization callback changes it), and with the storyboard title |
| Controller.GeotificationsViewController.LoadAllGeotifications | Geotify/GeotificationsViewController.swift:44-54 | the list is reset and then holds exactly the decodable stored items, in stored order, one per stored item that decodes; their circles are appended to the overlays, which then cover the list; the title shows the count unless nothing decoded; nothing else changes |
| Controller.GeotificationsViewController.AddDecodableItems | Geotify/GeotificationsViewController.swift:48-52 | the loop adds, after the current list, exactly the geotifications the items decode to, in stored order, with their circles; the title changes only when something is added; nothing else changes |
| Controller.GeotificationsViewController.SaveAllGeotifications | Geotify/GeotificationsViewController.swift:56-64 | the key `savedItems` holds one archived item per geotification, in list order; every other key and field is unchanged |
| Controller.GeotificationsViewController.AddGeotification | Geotify/GeotificationsViewController.swift:68-73 | the list becomes the old list plus the geotification; its circle is appended to the overlays; the title shows the new length; nothing else changes |
| Controller.GeotificationsViewController.RemoveGeotification | Geotify/GeotificationsViewController.swift:75-83 | the first equal geotification leaves the list (nothing does when it is absent); the first matching circle leaves the overlays; the title shows the new length either way; a cover of a list holding the geotification is kept |
| Controller.GeotificationsViewController.AddThenRemoveGeotification | Geotify/GeotificationsViewController.swift:68-83 | adding a geotification and then removing it restores the list's length and elements, the overlays' length and elements, and the title shows the old list's length; the list and the overlays are exactly as before when the geotification and its circle were new, and otherwise their first copy moves to the end |
| Controller.GeotificationsViewController.UpdateGeotificationsCount | Geotify/GeotificationsViewController.swift:85-87 | the title shows the list's length; nothing else changes |
| Controller.GeotificationsViewController.DidAddGeotification | Geotify/GeotificationsViewController.swift:91-97 | the geotification built from the entered fields is appended, its circle is drawn, the title is updated and the whole list is saved; monitoring is not started |
| Controller.GeotificationsViewController.CalloutAccessoryControlTapped | Geotify/GeotificationsViewController.swift:133-138 | the tapped geotification and its first matching circle are removed, the title is updated and the whole list is saved; monitoring is not stopped |
| Controller.GeotificationsViewController.AddRadiusOverlayForGeotification | Geotify/GeotificationsViewController.swift:142-144 | one circle with the geotification's centre and radius is appended to the overlays; nothing else changes |
| Controller.GeotificationsViewController.RemoveRadiusOverlayForGeotification | Geotify/GeotificationsViewController.swift:146-159 | the scan removes the first circle with equal latitude, longitude and radius and stops; every other overlay stays in order, and nothing is removed when no circle matches |
| Controller.GeotificationsViewController.DidChangeAuthorizationStatus | Geotify/GeotificationsViewController.swift:170-172 | the user's location is shown iff the status is `AuthorizedAlways`; nothing else changes |
| Controller.GeotificationsViewController.StartMonitoringGeotification | Geotify/GeotificationsViewController.swift:196-221 | without the capability, one "Error" alert is shown and no region is registered; with it, a "Warning" alert is shown exactly when the status is not `AuthorizedAlways`, and the geotification's region is registered whatever the status |
| Controller.GeotificationsViewController.StopMonitoringGeotification | Geotify/GeotificationsViewController.swift:226-234 | the scan stops every circular region with the geotification's identifier, without breaking at the first; all other regions stay in order |
| Controller.GeotificationsViewController.StartMonitoringForRegion | Geotify/GeotificationsViewController.swift:220 | the region joins the monitored regions; nothing else changes |
| Controller.GeotificationsViewController.StopMonitoringForRegion | Geotify/GeotificationsViewController.swift:230 | the region leaves the monitored regions; nothing else changes |
| Controller.GeotificationsViewController.ShowSimpleAlertWithTitle | Geotify/GeotificationsViewController.swift:204-211 | one alert with the given title and message is presented; nothing else changes |

## Left out

- Map and UI presentation is left out because it is rendering glue. This covers:
  - the annotation view and its styling (101-118);
  - the circle renderer (120-131);
  - the segue to the add screen (34-40);
  - zooming to the user's location (164-166);
  - dismissing the add screen (92).
  Alerts are recorded by title and message only.
- Annotations are left out. `addAnnotation` and `removeAnnotation` (70, 80) put the geotifications on the map as pins. The delete callback reads its geotification back from the tapped pin (135); `CalloutAccessoryControlTapped` takes that geotification as a parameter instead.
- `viewDidLoad` is not modelled (23-32). It sets the delegate, asks for always-authorization and calls the load. The authorization request is an OS prompt; the load is `LoadAllGeotifications`.
- The archiver and unarchiver are parameters. `NSKeyedArchiver` and `NSKeyedUnarchiver` are foreign code.
- Persistence.ReloadAfterSave: the round trip holds only under the stated hypothesis on the parameters. The app itself promises only one item per element, in order.
- `synchronize` is not modelled; writes are immediate.
- Failed writes are not modelled.
- A stored array holding something other than data traps in the app (the force cast at 49). The model's items are always bytes.
- A malformed archive terminates the app: `NSKeyedUnarchiver.unarchiveObjectWithData` (49) raises an exception Swift cannot catch. `decode` returning `None` stands only for an item that unarchives to nothing or to an object that is not a geotification, which the `if let ... as?` at 49 skips.
- A stored value at the key that is not an array loads as an empty list.
- Monitoring.WithoutCircularRegionsNamed: its own contract states only the length bound. Which regions survive is stated by `Monitoring.StopKeepsExactlyOthers` beside it.
- Persistence.Decoded: its own contract states only the length bound. Where the items come from, order and skipping are stated by the lemmas beside it.
- Coordinates and radii are `Double`s, modelled as `real`s. They are only copied and compared, so NaN and rounding are not modelled.
- Geotification equality is equality of the whole value. `Geotification.swift` is not part of this model. With `NSObject` identity, two equal-looking geotifications would be distinct in `indexOf`; the model does not distinguish them.
- `mapView?` being nil is not modelled. The overlay calls (143, 148, 153) use optional chaining and then do nothing; the model always has a map view.
- Controller.GeotificationsViewController.StartMonitoringForRegion: region registration is modelled as appending. The OS replacing an existing region with the same identifier, and its limit on monitored regions, are not modelled.
- Monitoring.IsCircularNamed: identifiers are compared as equal character sequences. Swift's `String ==` at 229 also treats canonically equivalent Unicode strings as equal (a precomposed accent equals a base letter plus a combining accent); that equivalence is not modelled, which matters only for identifiers that are not ASCII.
- Controller.GeotificationsViewController.StopMonitoringForRegion: deregistration is modelled as removing the first equal region value.
- Core Location's `monitoredRegions` is an unordered set. The model keeps it as a sequence, so its order and any duplicates are properties of the model only; the order `Monitoring.StopDistributes` preserves is the model's order.
- Controller.GeotificationsViewController.AddGeotification: its contract does not restate that the circles still cover the list. That property is the lemma `Controller.CoverAfterAdd` over the new state the contract gives.
- The code does not have these behaviours, so the model does not either:
  - rejection of duplicate identifiers;
  - re-registration of regions when authorization is upgraded;
  - starting monitoring from the add path, or stopping it from the delete path;
  - mutually exclusive entry and exit flags.
