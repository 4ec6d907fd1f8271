/** Region monitoring: the circular region registered with Core Location for a
    geotification, and which monitored regions survive
    `stopMonitoringGeotification`. */
module Monitoring {
  import opened Sequences
  import opened Geotify

  /** `CLAuthorizationStatus`. */
  datatype AuthorizationStatus =
    | NotDetermined
    | Restricted
    | Denied
    | AuthorizedAlways
    | AuthorizedWhenInUse

  /** The reaction to an authorization change: the user's location is shown
      exactly when the app may always use it. */
  predicate ShowsUserLocationFor(status: AuthorizationStatus)
    ensures ShowsUserLocationFor(status) ==> status.AuthorizedAlways?
    ensures !ShowsUserLocationFor(status) ==>
      status.NotDetermined? || status.Restricted? || status.Denied? || status.AuthorizedWhenInUse?
  {
    status == AuthorizedAlways
  }

  /** A region in the location manager's monitored set: a `CLCircularRegion`,
      or a region of another kind (a beacon region) known only by its
      identifier. */
  datatype Region =
    | CircularRegion(center: Coordinate, radius: real, identifier: string,
                     notifyOnEntry: bool, notifyOnExit: bool)
    | OtherRegion(identifier: string)

  /** An alert shown to the user, by title and message. */
  datatype Alert = Alert(title: string, message: string)

  const UnsupportedAlert := Alert("Error", "Geofencing is not supported on this device!")
  const PermissionAlert := Alert("Warning", "Your geotification is saved but will only be activated once you grant Geotify permission to access the device location.")

  /** `regionWithGeotification`: a circular region with `g`'s centre, radius
      and identifier. Entry notification is on exactly for an `OnEntry`
      geotification, and exit notification is copied from it, so the two
      flags are always equal: an `OnEntry` geotification fires on entry AND
      on exit, and an `OnExit` geotification fires on neither. */
  function RegionWithGeotification(g: Geotification): (r: Region)
    ensures r.CircularRegion?
    ensures r.center == g.coordinate && r.radius == g.radius && r.identifier == g.identifier
    ensures r.notifyOnEntry <==> g.eventType == OnEntry
    ensures r.notifyOnExit == r.notifyOnEntry
    ensures g.eventType == OnExit ==> !r.notifyOnEntry && !r.notifyOnExit
  {
    var notifyOnEntry := g.eventType == OnEntry;
    CircularRegion(g.coordinate, g.radius, g.identifier, notifyOnEntry, notifyOnEntry)
  }

  /** The test of `stopMonitoringGeotification`: a circular region with the
      given identifier. A region of another kind is never stopped, whatever
      its identifier. */
  predicate IsCircularNamed(r: Region, id: string)
    ensures r.OtherRegion? ==> !IsCircularNamed(r, id)
    ensures r.CircularRegion? ==> (IsCircularNamed(r, id) <==> r.identifier == id)
  {
    r.CircularRegion? && r.identifier == id
  }

  /** The monitored regions left after stopping every circular region named
      `id`, in their original order. */
  function WithoutCircularRegionsNamed(rs: seq<Region>, id: string): (r: seq<Region>)
    ensures |r| <= |rs|
  {
    if rs == [] then []
    else
      var last := rs[|rs| - 1];
      WithoutCircularRegionsNamed(rs[..|rs| - 1], id) + (if IsCircularNamed(last, id) then [] else [last])
  }

  /** A stop keeps exactly the regions that are not circular regions named
      `id`: every survivor was monitored before and does not match, and every
      monitored region that does not match survives. */
  lemma {:induction false} StopKeepsExactlyOthers(rs: seq<Region>, id: string)
    ensures forall x :: x in WithoutCircularRegionsNamed(rs, id) ==> x in rs && !IsCircularNamed(x, id)
    ensures forall x :: x in rs && !IsCircularNamed(x, id) ==> x in WithoutCircularRegionsNamed(rs, id)
  {
    if rs != [] {
      var n := |rs| - 1;
      var init, last := rs[..n], rs[n];
      StopKeepsExactlyOthers(init, id);
      assert rs == init + [last];
      var tail := if IsCircularNamed(last, id) then [] else [last];
      assert WithoutCircularRegionsNamed(rs, id) == WithoutCircularRegionsNamed(init, id) + tail;
    }
  }

  /** One more region scanned: the survivors so far, plus that region unless
      it is stopped. */
  lemma StopStep(rs: seq<Region>, i: nat, id: string)
    requires i < |rs|
    ensures WithoutCircularRegionsNamed(rs[..i + 1], id)
         == WithoutCircularRegionsNamed(rs[..i], id) + (if IsCircularNamed(rs[i], id) then [] else [rs[i]])
  {
    assert rs[..i + 1][..i] == rs[..i];
  }

  /** A circular region named `id` is not among the survivors of a stop for
      `id`, whichever regions that stop ran over. */
  lemma StoppedIsNotKept(rs: seq<Region>, r: Region, id: string)
    requires IsCircularNamed(r, id)
    ensures r !in WithoutCircularRegionsNamed(rs, id)
  {
    StopKeepsExactlyOthers(rs, id);
  }

  /** One iteration of the scan in `stopMonitoringGeotification` on a
      region it stops: with the regions before position `i` already scanned,
      stopping `rs[i]` extends the scanned part by one. */
  lemma StopScanStops(rs: seq<Region>, i: nat, id: string, current: seq<Region>)
    requires i < |rs| && IsCircularNamed(rs[i], id)
    requires current == WithoutCircularRegionsNamed(rs[..i], id) + rs[i..]
    ensures RemoveFirst(current, rs[i]) == WithoutCircularRegionsNamed(rs[..i + 1], id) + rs[i + 1..]
  {
    var x, kept, rest := rs[i], WithoutCircularRegionsNamed(rs[..i], id), rs[i + 1..];
    assert current == kept + [x] + rest by {
      assert rs[i..] == [x] + rest;
    }
    assert WithoutCircularRegionsNamed(rs[..i + 1], id) == kept by {
      StopStep(rs, i, id);
      assert kept + [] == kept;
    }
    assert RemoveFirst(kept + [x] + rest, x) == kept + rest by {
      StoppedIsNotKept(rs[..i], x, id);
      RemoveFirstSplit(kept, x, rest);
    }
  }

  /** One iteration of the scan in `stopMonitoringGeotification` on a
      region it keeps: the scanned part grows by one and nothing changes. */
  lemma StopScanKeeps(rs: seq<Region>, i: nat, id: string, current: seq<Region>)
    requires i < |rs| && !IsCircularNamed(rs[i], id)
    requires current == WithoutCircularRegionsNamed(rs[..i], id) + rs[i..]
    ensures current == WithoutCircularRegionsNamed(rs[..i + 1], id) + rs[i + 1..]
  {
    var kept, rest := WithoutCircularRegionsNamed(rs[..i], id), rs[i + 1..];
    assert rs[i..] == [rs[i]] + rest;
    StopStep(rs, i, id);
    assert WithoutCircularRegionsNamed(rs[..i + 1], id) == kept + [rs[i]];
  }

  /** Nothing is stopped when no circular region carries the identifier. */
  lemma {:induction false} NothingStoppedWhenNoneNamed(rs: seq<Region>, id: string)
    requires forall i :: 0 <= i < |rs| ==> !IsCircularNamed(rs[i], id)
    ensures WithoutCircularRegionsNamed(rs, id) == rs
  {
    if rs != [] {
      var n := |rs| - 1;
      NothingStoppedWhenNoneNamed(rs[..n], id);
      StopStep(rs, n, id);
      assert rs[..n + 1] == rs;
      assert rs == rs[..n] + [rs[n]];
    }
  }

  /** Stopping is idempotent: a second stop for the same identifier changes
      nothing. */
  lemma StopIsIdempotent(rs: seq<Region>, id: string)
    ensures WithoutCircularRegionsNamed(WithoutCircularRegionsNamed(rs, id), id)
         == WithoutCircularRegionsNamed(rs, id)
  {
    var kept := WithoutCircularRegionsNamed(rs, id);
    StopKeepsExactlyOthers(rs, id);
    assert forall i :: 0 <= i < |kept| ==> kept[i] in kept;
    NothingStoppedWhenNoneNamed(kept, id);
  }

  /** The scan treats each region on its own: stopping over a concatenation
      is the concatenation of the two stops, so surviving regions keep their
      relative order. */
  lemma {:induction false} StopDistributes(a: seq<Region>, b: seq<Region>, id: string)
    ensures WithoutCircularRegionsNamed(a + b, id)
         == WithoutCircularRegionsNamed(a, id) + WithoutCircularRegionsNamed(b, id)
  {
    if b == [] {
      assert a + b == a;
    } else {
      var init, last := b[..|b| - 1], b[|b| - 1];
      var tail := if IsCircularNamed(last, id) then [] else [last];
      assert (a + b)[..|a + b| - 1] == a + init;
      assert WithoutCircularRegionsNamed(a + b, id) == WithoutCircularRegionsNamed(a + init, id) + tail;
      assert WithoutCircularRegionsNamed(b, id) == WithoutCircularRegionsNamed(init, id) + tail;
      StopDistributes(a, init, id);
    }
  }

  /** Starting then stopping a geotification: the stop removes the region
      the start registered and leaves the earlier regions as a stop without
      that start would. */
  lemma StartThenStop(rs: seq<Region>, g: Geotification)
    ensures WithoutCircularRegionsNamed(rs + [RegionWithGeotification(g)], g.identifier)
         == WithoutCircularRegionsNamed(rs, g.identifier)
    ensures RegionWithGeotification(g) !in WithoutCircularRegionsNamed(rs + [RegionWithGeotification(g)], g.identifier)
  {
    var s := rs + [RegionWithGeotification(g)];
    assert s[..|s| - 1] == rs;
    StoppedIsNotKept(s, RegionWithGeotification(g), g.identifier);
  }
}
