/** The geotification bookkeeping of `GeotificationsViewController`, with the
    platform objects it drives replaced by plain state: the map view's overlays
    and `showsUserLocation`, the location manager's monitored regions, the
    count shown in the title, the alerts presented, and the standard user
    defaults. */
module Controller {
  import opened Sequences
  import opened Geotify
  import opened Monitoring
  import opened Persistence

  /** Every geotification has its radius circle among the overlays, counted
      with multiplicity (two geotifications with the same centre and radius
      need two circles). */
  predicate Covers(overlays: seq<Overlay>, gs: seq<Geotification>)
  {
    multiset(Map(gs, CircleOf)) <= multiset(overlays)
  }

  /** Adding a geotification together with its circle keeps the cover. */
  lemma CoverAfterAdd(overlays: seq<Overlay>, gs: seq<Geotification>, g: Geotification)
    requires Covers(overlays, gs)
    ensures Covers(overlays + [CircleOf(g)], gs + [g])
  {
    assert Map(gs + [g], CircleOf) == Map(gs, CircleOf) + [CircleOf(g)];
  }

  /** Overlays that end with the circles of `gs`, in order, cover `gs`. */
  lemma CoverByAppending(overlays: seq<Overlay>, gs: seq<Geotification>)
    ensures Covers(overlays + Map(gs, CircleOf), gs)
  {
    assert multiset(overlays + Map(gs, CircleOf)) == multiset(overlays) + multiset(Map(gs, CircleOf));
  }

  /** An iteration of the loop in `loadAllGeotifications` on an item that
      decodes to `g`: with the items before position `i` loaded after the
      geotifications `gs0`, and their circles appended after the overlays
      `base`, adding `g` and its circle loads one item more. */
  lemma LoadAddsItem(items: seq<Bytes>, i: nat, decode: Bytes -> Option<Geotification>, g: Geotification,
                     gs0: seq<Geotification>, base: seq<Overlay>, gs: seq<Geotification>, overlays: seq<Overlay>)
    requires i < |items| && decode(items[i]) == Some(g)
    requires gs == gs0 + Decoded(items[..i], decode)
    requires overlays == base + Map(Decoded(items[..i], decode), CircleOf)
    ensures |Decoded(items[..i + 1], decode)| != 0
    ensures gs + [g] == gs0 + Decoded(items[..i + 1], decode)
    ensures overlays + [CircleOf(g)] == base + Map(Decoded(items[..i + 1], decode), CircleOf)
  {
    var before := Decoded(items[..i], decode);
    DecodedStep(items, i, decode);
    assert Decoded(items[..i + 1], decode) == before + [g];
    MapAppendOne(before, g, CircleOf);
  }

  /** An iteration of the loop in `loadAllGeotifications` on an item that
      does not decode: skipping it loads one item more. */
  lemma LoadSkipsItem(items: seq<Bytes>, i: nat, decode: Bytes -> Option<Geotification>)
    requires i < |items| && decode(items[i]).None?
    ensures Decoded(items[..i + 1], decode) == Decoded(items[..i], decode)
  {
    DecodedStep(items, i, decode);
    assert Decoded(items[..i], decode) + [] == Decoded(items[..i], decode);
  }

  /** The end of the loop in `loadAllGeotifications`: with every item read,
      the list is the load of all items, one geotification per item that
      decodes, and the overlays cover it. */
  lemma LoadFinished(items: seq<Bytes>, decode: Bytes -> Option<Geotification>,
                     gs: seq<Geotification>, base: seq<Overlay>, overlays: seq<Overlay>)
    requires gs == Decoded(items, decode)
    requires overlays == base + Map(Decoded(items, decode), CircleOf)
    ensures overlays == base + Map(gs, CircleOf)
    ensures |gs| == |DecodablePositions(items, decode)|
    ensures Covers(overlays, gs)
  {
    LoadedCount(items, decode);
    CoverByAppending(base, gs);
  }

  /** Removing a geotification that is in the list, together with the first
      circle matching it, keeps the cover. */
  lemma CoverAfterRemove(overlays: seq<Overlay>, gs: seq<Geotification>, g: Geotification)
    requires Covers(overlays, gs)
    requires g in gs
    ensures Covers(RemoveFirst(overlays, CircleOf(g)), RemoveFirst(gs, g))
  {
    var i := IndexOf(gs, g).value;
    var before, after := gs[..i], gs[i + 1..];
    var c := CircleOf(g);
    assert gs == before + [g] + after;
    RemoveFirstSplit(before, g, after);
    MapMultisetSplit(before, g, after, CircleOf);
    var left := multiset(Map(RemoveFirst(gs, g), CircleOf));
    assert multiset(Map(gs, CircleOf)) == left + multiset{c};
    assert c in overlays by {
      assert c in multiset(overlays);
    }
    assert multiset(RemoveFirst(overlays, c)) == multiset(overlays) - multiset{c};
  }

  /** Removing a geotification that is not in the list still removes a circle
      equal to its own when another geotification drew one: with the overlays
      exactly the circles of the list, the cover is then lost. This is why the
      cover is kept only when the removed geotification was listed. */
  lemma AbsentRemovalCanBreakCover(overlays: seq<Overlay>, gs: seq<Geotification>, g: Geotification, h: Geotification)
    requires multiset(overlays) == multiset(Map(gs, CircleOf))
    requires g !in gs && h in gs && CircleOf(h) == CircleOf(g)
    ensures RemoveFirst(gs, g) == gs
    ensures |RemoveFirst(overlays, CircleOf(g))| == |overlays| - 1
    ensures !Covers(RemoveFirst(overlays, CircleOf(g)), RemoveFirst(gs, g))
  {
    var c := CircleOf(g);
    var i :| 0 <= i < |gs| && gs[i] == h;
    assert Map(gs, CircleOf)[i] == c;
    assert c in multiset(overlays);
    assert multiset(RemoveFirst(overlays, c))[c] < multiset(Map(gs, CircleOf))[c];
  }

  class GeotificationsViewController {
    /** The geotifications on screen, in the order they were added. */
    var geotifications: seq<Geotification>
    /** `mapView.overlays`. */
    var overlays: seq<Overlay>
    /** `mapView.showsUserLocation`. */
    var showsUserLocation: bool
    /** `locationManager.monitoredRegions`. */
    var monitoredRegions: seq<Region>
    /** The count in the title "Geotifications (n)"; `None` while the title
        is still the one the storyboard gave. */
    var titleCount: Option<nat>
    /** The alerts presented, oldest first. */
    var alerts: seq<Alert>
    /** `NSUserDefaults.standardUserDefaults()`. */
    var defaults: map<string, Stored>

    /** The controller before `viewDidLoad`: no geotifications and no
        overlays, whatever regions and defaults the device already holds, and
        the user-location setting the storyboard's map view starts with. */
    constructor (savedDefaults: map<string, Stored>, regions: seq<Region>, showsLocation: bool)
      ensures geotifications == [] && overlays == [] && showsUserLocation == showsLocation
      ensures monitoredRegions == regions && titleCount == None && alerts == []
      ensures defaults == savedDefaults
    {
      geotifications := [];
      overlays := [];
      showsUserLocation := showsLocation;
      monitoredRegions := regions;
      titleCount := None;
      alerts := [];
      defaults := savedDefaults;
    }

    // Loading and saving

    /** `loadAllGeotifications`: the list is emptied, then every stored item
        that decodes is added, in stored order; items that do not decode are
        skipped. The overlays are not cleared first, and the title changes
        only when something is added. */
    method LoadAllGeotifications(decode: Bytes -> Option<Geotification>)
      modifies this
      ensures showsUserLocation == old(showsUserLocation) && monitoredRegions == old(monitoredRegions) && alerts == old(alerts)
      ensures defaults == old(defaults)
      ensures geotifications == Decoded(SavedItems(defaults), decode)
      ensures |geotifications| == |DecodablePositions(SavedItems(defaults), decode)|
      ensures overlays == old(overlays) + Map(geotifications, CircleOf)
      ensures titleCount == if |geotifications| == 0 then old(titleCount) else Some(|geotifications|)
      ensures Covers(overlays, geotifications)
    {
      geotifications := [];
      var savedItems := SavedItems(defaults);
      AddDecodableItems(savedItems, decode);
      LoadFinished(savedItems, decode, geotifications, old(overlays), overlays);
    }

    /** The loop of `loadAllGeotifications` over the stored items: each item
        that decodes is added with `addGeotification`, in stored order, and
        each one that does not is skipped. */
    method AddDecodableItems(items: seq<Bytes>, decode: Bytes -> Option<Geotification>)
      modifies this`geotifications, this`overlays, this`titleCount
      ensures showsUserLocation == old(showsUserLocation) && monitoredRegions == old(monitoredRegions) && alerts == old(alerts)
      ensures defaults == old(defaults)
      ensures geotifications == old(geotifications) + Decoded(items, decode)
      ensures overlays == old(overlays) + Map(Decoded(items, decode), CircleOf)
      ensures titleCount == if |Decoded(items, decode)| == 0 then old(titleCount) else Some(|geotifications|)
    {
      var i := 0;
      while i < |items|
        invariant 0 <= i <= |items|
        invariant geotifications == old(geotifications) + Decoded(items[..i], decode)
        invariant overlays == old(overlays) + Map(Decoded(items[..i], decode), CircleOf)
        invariant titleCount == if |Decoded(items[..i], decode)| == 0 then old(titleCount) else Some(|geotifications|)
      {
        var decoded := decode(items[i]);
        if decoded.Some? {
          LoadAddsItem(items, i, decode, decoded.value, old(geotifications), old(overlays), geotifications, overlays);
          AddGeotification(decoded.value);
        } else {
          LoadSkipsItem(items, i, decode);
        }
        i := i + 1;
      }
      assert items[..i] == items;
    }

    /** `saveAllGeotifications`: one archived item per geotification, in list
        order, stored under `SavedItemsKey`; no other key changes. */
    method SaveAllGeotifications(encode: Geotification -> Bytes)
      modifies this
      ensures geotifications == old(geotifications) && overlays == old(overlays) && titleCount == old(titleCount)
      ensures showsUserLocation == old(showsUserLocation) && monitoredRegions == old(monitoredRegions) && alerts == old(alerts)
      ensures defaults == old(defaults)[SavedItemsKey := DataArray(Map(geotifications, encode))]
    {
      var items: seq<Bytes> := [];
      for i := 0 to |geotifications|
        invariant items == Map(geotifications[..i], encode)
      {
        assert geotifications[..i + 1][..i] == geotifications[..i];
        items := items + [encode(geotifications[i])];
      }
      assert geotifications[..|geotifications|] == geotifications;
      defaults := defaults[SavedItemsKey := DataArray(items)];
    }

    // Updating the model and the views

    /** `addGeotification`: appended to the list, its circle appended to the
        overlays, and the title shows the new length. */
    method AddGeotification(g: Geotification)
      modifies this`geotifications, this`overlays, this`titleCount
      ensures showsUserLocation == old(showsUserLocation) && monitoredRegions == old(monitoredRegions) && alerts == old(alerts)
      ensures defaults == old(defaults)
      ensures geotifications == old(geotifications) + [g]
      ensures overlays == old(overlays) + [CircleOf(g)]
      ensures titleCount == Some(|geotifications|)
    {
      geotifications := geotifications + [g];
      AddRadiusOverlayForGeotification(g);
      UpdateGeotificationsCount();
    }

    /** `removeGeotification`: the first element equal to `g` leaves the list
        (nothing does when `g` is absent), the first circle matching `g` leaves
        the overlays, and the title shows the new length either way. */
    method RemoveGeotification(g: Geotification)
      modifies this
      ensures showsUserLocation == old(showsUserLocation) && monitoredRegions == old(monitoredRegions) && alerts == old(alerts)
      ensures defaults == old(defaults)
      ensures geotifications == RemoveFirst(old(geotifications), g)
      ensures overlays == RemoveFirst(old(overlays), CircleOf(g))
      ensures titleCount == Some(|geotifications|)
      ensures old(Covers(overlays, geotifications)) && g in old(geotifications) ==> Covers(overlays, geotifications)
    {
      if Covers(overlays, geotifications) && g in geotifications {
        CoverAfterRemove(overlays, geotifications, g);
      }
      match IndexOf(geotifications, g) {
        case Some(i) => geotifications := geotifications[..i] + geotifications[i + 1..];
        case None =>
      }
      RemoveRadiusOverlayForGeotification(g);
      UpdateGeotificationsCount();
    }

    /** `addGeotification` followed by `removeGeotification` of the same
        geotification, as when one is added and its callout's delete button is
        tapped: the list is back to its old length and elements, the title
        shows the old list's length. The list and the overlays are exactly as before
        when the geotification and its circle were new; otherwise their first
        copy moves to the end. */
    method AddThenRemoveGeotification(g: Geotification)
      modifies this
      ensures showsUserLocation == old(showsUserLocation) && monitoredRegions == old(monitoredRegions) && alerts == old(alerts)
      ensures defaults == old(defaults)
      ensures |geotifications| == |old(geotifications)| && multiset(geotifications) == multiset(old(geotifications))
      ensures |overlays| == |old(overlays)| && multiset(overlays) == multiset(old(overlays))
      ensures geotifications == RemoveFirst(old(geotifications) + [g], g)
      ensures overlays == RemoveFirst(old(overlays) + [CircleOf(g)], CircleOf(g))
      ensures g !in old(geotifications) ==> geotifications == old(geotifications)
      ensures g in old(geotifications) ==> geotifications == RemoveFirst(old(geotifications), g) + [g]
      ensures CircleOf(g) !in old(overlays) ==> overlays == old(overlays)
      ensures CircleOf(g) in old(overlays) ==> overlays == RemoveFirst(old(overlays), CircleOf(g)) + [CircleOf(g)]
      ensures titleCount == Some(|old(geotifications)|)
    {
      AppendThenRemoveFirst(geotifications, g);
      AppendThenRemoveFirst(overlays, CircleOf(g));
      if g in geotifications {
        RemoveFirstAfterAppend(geotifications, g);
      }
      if CircleOf(g) in overlays {
        RemoveFirstAfterAppend(overlays, CircleOf(g));
      }
      AddGeotification(g);
      RemoveGeotification(g);
    }

    /** `updateGeotificationsCount`: the title shows the list's length. */
    method UpdateGeotificationsCount()
      modifies this`titleCount
      ensures geotifications == old(geotifications) && overlays == old(overlays) && showsUserLocation == old(showsUserLocation)
      ensures monitoredRegions == old(monitoredRegions) && alerts == old(alerts) && defaults == old(defaults)
      ensures titleCount == Some(|geotifications|)
    {
      titleCount := Some(|geotifications|);
    }

    // Delegate callbacks

    /** The add screen's delegate callback: a geotification built from the
        entered fields is added and the whole list saved. Monitoring is not
        started. */
    method DidAddGeotification(coordinate: Coordinate, radius: real, identifier: string, note: string,
                               eventType: EventType, encode: Geotification -> Bytes)
      modifies this
      ensures showsUserLocation == old(showsUserLocation) && monitoredRegions == old(monitoredRegions) && alerts == old(alerts)
      ensures var g := Geotification(coordinate, radius, identifier, note, eventType);
        && geotifications == old(geotifications) + [g]
        && overlays == old(overlays) + [CircleOf(g)]
      ensures titleCount == Some(|geotifications|)
      ensures defaults == old(defaults)[SavedItemsKey := DataArray(Map(geotifications, encode))]
    {
      var g := Geotification(coordinate, radius, identifier, note, eventType);
      AddGeotification(g);
      SaveAllGeotifications(encode);
    }

    /** The callout's delete button: the geotification is removed and the
        whole list saved. Monitoring is not stopped. */
    method CalloutAccessoryControlTapped(g: Geotification, encode: Geotification -> Bytes)
      modifies this
      ensures showsUserLocation == old(showsUserLocation) && monitoredRegions == old(monitoredRegions) && alerts == old(alerts)
      ensures geotifications == RemoveFirst(old(geotifications), g)
      ensures overlays == RemoveFirst(old(overlays), CircleOf(g))
      ensures titleCount == Some(|geotifications|)
      ensures defaults == old(defaults)[SavedItemsKey := DataArray(Map(geotifications, encode))]
    {
      RemoveGeotification(g);
      SaveAllGeotifications(encode);
    }

    // Map overlays

    /** `addRadiusOverlayForGeotification`. */
    method AddRadiusOverlayForGeotification(g: Geotification)
      modifies this`overlays
      ensures geotifications == old(geotifications) && titleCount == old(titleCount) && showsUserLocation == old(showsUserLocation)
      ensures monitoredRegions == old(monitoredRegions) && alerts == old(alerts) && defaults == old(defaults)
      ensures overlays == old(overlays) + [CircleOf(g)]
    {
      overlays := overlays + [CircleOf(g)];
    }

    /** `removeRadiusOverlayForGeotification`: scans the overlays and removes
        the first circle whose latitude, longitude and radius equal `g`'s,
        then stops; every other overlay stays, in order, and nothing is
        removed when no circle matches. */
    method RemoveRadiusOverlayForGeotification(g: Geotification)
      modifies this
      ensures geotifications == old(geotifications) && titleCount == old(titleCount) && showsUserLocation == old(showsUserLocation)
      ensures monitoredRegions == old(monitoredRegions) && alerts == old(alerts) && defaults == old(defaults)
      ensures overlays == RemoveFirst(old(overlays), CircleOf(g))
    {
      var snapshot := overlays;
      var i := 0;
      while i < |snapshot|
        invariant 0 <= i <= |snapshot|
        invariant overlays == snapshot
        invariant geotifications == old(geotifications) && titleCount == old(titleCount)
        invariant showsUserLocation == old(showsUserLocation) && monitoredRegions == old(monitoredRegions)
        invariant alerts == old(alerts) && defaults == old(defaults)
        invariant CircleOf(g) !in snapshot[..i]
      {
        if CircleMatches(snapshot[i], g) {
          assert snapshot == snapshot[..i] + [CircleOf(g)] + snapshot[i + 1..];
          RemoveFirstSplit(snapshot[..i], CircleOf(g), snapshot[i + 1..]);
          overlays := overlays[..i] + overlays[i + 1..];
          break;
        }
        assert snapshot[..i + 1] == snapshot[..i] + [snapshot[i]];
        i := i + 1;
      }
      assert i == |snapshot| ==> snapshot[..i] == snapshot;
    }

    // Location manager

    /** `locationManager(_:didChangeAuthorizationStatus:)`: the user's
        location is shown exactly when the app may always use it. */
    method DidChangeAuthorizationStatus(status: AuthorizationStatus)
      modifies this
      ensures geotifications == old(geotifications) && overlays == old(overlays) && titleCount == old(titleCount)
      ensures monitoredRegions == old(monitoredRegions) && alerts == old(alerts) && defaults == old(defaults)
      ensures showsUserLocation == ShowsUserLocationFor(status)
    {
      showsUserLocation := ShowsUserLocationFor(status);
    }

    /** `startMonitoringGeotification`, with the device's capability and the
        current authorization as parameters. Without the capability an
        "Error" alert is shown and nothing is registered. Otherwise a
        "Warning" alert is shown first when the app is not always authorized,
        and the region for `g` is registered in either case. */
    method StartMonitoringGeotification(g: Geotification, monitoringAvailable: bool,
                                        status: AuthorizationStatus)
      modifies this
      ensures geotifications == old(geotifications) && overlays == old(overlays) && titleCount == old(titleCount)
      ensures showsUserLocation == old(showsUserLocation) && defaults == old(defaults)
      ensures !monitoringAvailable ==>
        alerts == old(alerts) + [UnsupportedAlert] && monitoredRegions == old(monitoredRegions)
      ensures monitoringAvailable ==>
        && alerts == old(alerts) + (if status == AuthorizedAlways then [] else [PermissionAlert])
        && monitoredRegions == old(monitoredRegions) + [RegionWithGeotification(g)]
    {
      if !monitoringAvailable {
        ShowSimpleAlertWithTitle(UnsupportedAlert.title, UnsupportedAlert.message);
        return;
      }
      if status != AuthorizedAlways {
        ShowSimpleAlertWithTitle(PermissionAlert.title, PermissionAlert.message);
      }
      var region := RegionWithGeotification(g);
      StartMonitoringForRegion(region);
    }

    /** `stopMonitoringGeotification`: scans the monitored regions and stops
        every circular region with `g`'s identifier (the scan does not stop at
        the first); all other regions stay, in order. */
    method StopMonitoringGeotification(g: Geotification)
      modifies this`monitoredRegions
      ensures geotifications == old(geotifications) && overlays == old(overlays) && titleCount == old(titleCount)
      ensures showsUserLocation == old(showsUserLocation) && alerts == old(alerts) && defaults == old(defaults)
      ensures monitoredRegions == WithoutCircularRegionsNamed(old(monitoredRegions), g.identifier)
    {
      var regions := monitoredRegions;
      var i := 0;
      while i < |regions|
        invariant 0 <= i <= |regions|
        invariant monitoredRegions == WithoutCircularRegionsNamed(regions[..i], g.identifier) + regions[i..]
      {
        var region := regions[i];
        if IsCircularNamed(region, g.identifier) {
          StopScanStops(regions, i, g.identifier, monitoredRegions);
          StopMonitoringForRegion(region);
        } else {
          StopScanKeeps(regions, i, g.identifier, monitoredRegions);
        }
        i := i + 1;
      }
      assert regions[..i] == regions;
    }

    /** `CLLocationManager.startMonitoringForRegion`: the region joins the
        monitored set. */
    method StartMonitoringForRegion(region: Region)
      modifies this
      ensures geotifications == old(geotifications) && overlays == old(overlays) && titleCount == old(titleCount)
      ensures showsUserLocation == old(showsUserLocation) && alerts == old(alerts) && defaults == old(defaults)
      ensures monitoredRegions == old(monitoredRegions) + [region]
    {
      monitoredRegions := monitoredRegions + [region];
    }

    /** `CLLocationManager.stopMonitoringForRegion`: the region leaves the
        monitored set. */
    method StopMonitoringForRegion(region: Region)
      modifies this`monitoredRegions
      ensures geotifications == old(geotifications) && overlays == old(overlays) && titleCount == old(titleCount)
      ensures showsUserLocation == old(showsUserLocation) && alerts == old(alerts) && defaults == old(defaults)
      ensures monitoredRegions == RemoveFirst(old(monitoredRegions), region)
    {
      monitoredRegions := RemoveFirst(monitoredRegions, region);
    }

    /** `showSimpleAlertWithTitle`: the alert is presented. */
    method ShowSimpleAlertWithTitle(title: string, message: string)
      modifies this
      ensures geotifications == old(geotifications) && overlays == old(overlays) && titleCount == old(titleCount)
      ensures showsUserLocation == old(showsUserLocation) && monitoredRegions == old(monitoredRegions) && defaults == old(defaults)
      ensures alerts == old(alerts) + [Alert(title, message)]
    {
      alerts := alerts + [Alert(title, message)];
    }
  }
}
