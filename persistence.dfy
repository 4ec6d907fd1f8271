/** The persisted geotification list: one array of archived items stored in the
    user defaults under a single key. The archiver (`NSKeyedArchiver`) and
    unarchiver (`NSKeyedUnarchiver`) are foreign code: encoding is an arbitrary
    total function and decoding an arbitrary partial one (`None` when the item
    does not unarchive to a geotification), passed in by the caller. */
module Persistence {
  import opened Sequences
  import opened Geotify

  /** The contents of one archived item (`NSData`). */
  type Bytes = seq<bv8>

  /** The key under which the list is stored (`kSavedItemsKey`). */
  const SavedItemsKey := "savedItems"

  /** A value in the user defaults: an array of archived items, or a value of
      any other kind. */
  datatype Stored = DataArray(items: seq<Bytes>) | NonArray

  /** The items `arrayForKey(kSavedItemsKey)` yields; nothing when the key is
      absent or does not hold an array. */
  function SavedItems(defaults: map<string, Stored>): (items: seq<Bytes>)
    ensures SavedItemsKey !in defaults ==> items == []
    ensures SavedItemsKey in defaults && defaults[SavedItemsKey].NonArray? ==> items == []
    ensures SavedItemsKey in defaults && defaults[SavedItemsKey].DataArray? ==> items == defaults[SavedItemsKey].items
  {
    if SavedItemsKey in defaults && defaults[SavedItemsKey].DataArray?
    then defaults[SavedItemsKey].items
    else []
  }

  /** Reading the key back gives exactly the array a save stored under it,
      and storing under any other key does not change what is read. */
  lemma ReadAfterStore(defaults: map<string, Stored>, key: string, value: Stored, items: seq<Bytes>)
    ensures SavedItems(defaults[SavedItemsKey := DataArray(items)]) == items
    ensures key != SavedItemsKey ==> SavedItems(defaults[key := value]) == SavedItems(defaults)
  {
  }

  /** The geotifications a load collects from `items`: in stored order, the
      result of every item that decodes; items that do not decode are skipped. */
  function Decoded(items: seq<Bytes>, decode: Bytes -> Option<Geotification>): (r: seq<Geotification>)
    ensures |r| <= |items|
  {
    if items == [] then []
    else
      var init, last := items[..|items| - 1], items[|items| - 1];
      Decoded(init, decode) + (match decode(last) case Some(g) => [g] case None => [])
  }

  /** Every geotification a load yields is what some stored item decodes to. */
  lemma {:induction false} DecodedFromItems(items: seq<Bytes>, decode: Bytes -> Option<Geotification>, g: Geotification)
    requires g in Decoded(items, decode)
    ensures exists b :: b in items && decode(b) == Some(g)
  {
    var init, last := items[..|items| - 1], items[|items| - 1];
    if g in Decoded(init, decode) {
      DecodedFromItems(init, decode, g);
      var b :| b in init && decode(b) == Some(g);
      assert b in items;
    } else {
      assert decode(last) == Some(g);
    }
  }

  /** One more item read: the load so far, plus that item's geotification
      when it decodes. */
  lemma DecodedStep(items: seq<Bytes>, i: nat, decode: Bytes -> Option<Geotification>)
    requires i < |items|
    ensures Decoded(items[..i + 1], decode)
         == Decoded(items[..i], decode) + (match decode(items[i]) case Some(g) => [g] case None => [])
  {
    assert items[..i + 1][..i] == items[..i];
  }

  /** Decoding treats each item on its own: the load of a concatenation is the
      concatenation of the loads, in order. */
  lemma {:induction false} DecodedDistributes(a: seq<Bytes>, b: seq<Bytes>, decode: Bytes -> Option<Geotification>)
    ensures Decoded(a + b, decode) == Decoded(a, decode) + Decoded(b, decode)
  {
    if b == [] {
      assert a + b == a;
    } else {
      var init, last := b[..|b| - 1], b[|b| - 1];
      var tail := match decode(last) case Some(g) => [g] case None => [];
      assert (a + b)[..|a + b| - 1] == a + init;
      assert Decoded(a + b, decode) == Decoded(a + init, decode) + tail;
      assert Decoded(b, decode) == Decoded(init, decode) + tail;
      DecodedDistributes(a, init, decode);
    }
  }

  /** Every stored item that decodes has its geotification loaded, wherever
      it sits among the other items. */
  lemma DecodableIsLoaded(a: seq<Bytes>, b: Bytes, c: seq<Bytes>, decode: Bytes -> Option<Geotification>)
    requires decode(b).Some?
    ensures decode(b).value in Decoded(a + [b] + c, decode)
  {
    assert [b][..0] == [];
    DecodedDistributes(a, [b], decode);
    DecodedDistributes(a + [b], c, decode);
  }

  /** The positions of the stored items that decode. */
  function DecodablePositions(items: seq<Bytes>, decode: Bytes -> Option<Geotification>): set<nat>
  {
    set i: nat | i < |items| && decode(items[i]).Some?
  }

  /** The positions that decode in `items` are those in all but its last
      item, plus the last position when that item decodes. */
  lemma DecodablePositionsStep(items: seq<Bytes>, decode: Bytes -> Option<Geotification>)
    requires items != []
    ensures var n := |items| - 1;
      DecodablePositions(items, decode)
      == DecodablePositions(items[..n], decode) + (if decode(items[n]).Some? then {n} else {})
    ensures |items| - 1 !in DecodablePositions(items[..|items| - 1], decode)
  {
    var n := |items| - 1;
    var init := items[..n];
    var all, before := DecodablePositions(items, decode), DecodablePositions(init, decode);
    var last: set<nat> := if decode(items[n]).Some? then {n} else {};
    forall i | i in all
      ensures i in before + last
    {
      if i < n {
        assert init[i] == items[i];
      }
    }
    forall i | i in before
      ensures i in all
    {
      assert init[i] == items[i];
    }
  }

  /** A load yields exactly one geotification per stored item that decodes. */
  lemma {:induction false} LoadedCount(items: seq<Bytes>, decode: Bytes -> Option<Geotification>)
    ensures |Decoded(items, decode)| == |DecodablePositions(items, decode)|
  {
    if items != [] {
      var n := |items| - 1;
      var init := items[..n];
      LoadedCount(init, decode);
      DecodablePositionsStep(items, decode);
      var before := DecodablePositions(init, decode);
      if decode(items[n]).Some? {
        assert n !in before;
        assert |before + {n}| == |before| + 1;
      }
    }
  }

  /** An item that unarchives to no geotification is skipped without aborting
      the load: the items around it load exactly as they would without it. */
  lemma SkipsUndecodableItem(a: seq<Bytes>, bad: Bytes, b: seq<Bytes>, decode: Bytes -> Option<Geotification>)
    requires decode(bad).None?
    ensures Decoded(a + [bad] + b, decode) == Decoded(a, decode) + Decoded(b, decode)
  {
    assert [bad][..0] == [];
    assert Decoded([bad], decode) == [];
    DecodedDistributes(a, [bad], decode);
    DecodedDistributes(a + [bad], b, decode);
  }

  /** When every item decodes, the load yields one geotification per item, in
      order. */
  lemma {:induction false} DecodedAllDecodable(items: seq<Bytes>, decode: Bytes -> Option<Geotification>)
    requires forall i :: 0 <= i < |items| ==> decode(items[i]).Some?
    ensures |Decoded(items, decode)| == |items|
    ensures forall i :: 0 <= i < |items| ==> Decoded(items, decode)[i] == decode(items[i]).value
  {
    if items != [] {
      var init, last := items[..|items| - 1], items[|items| - 1];
      assert forall i :: 0 <= i < |init| ==> init[i] == items[i];
      DecodedAllDecodable(init, decode);
      assert Decoded(items, decode) == Decoded(init, decode) + [decode(last).value];
    }
  }

  /** One undecodable item among decodable ones costs exactly that item. */
  lemma OneUndecodableAmongDecodable(a: seq<Bytes>, bad: Bytes, b: seq<Bytes>, decode: Bytes -> Option<Geotification>)
    requires forall i :: 0 <= i < |a| ==> decode(a[i]).Some?
    requires forall i :: 0 <= i < |b| ==> decode(b[i]).Some?
    requires decode(bad).None?
    ensures |Decoded(a + [bad] + b, decode)| == |a| + |b|
  {
    SkipsUndecodableItem(a, bad, b, decode);
    DecodedAllDecodable(a, decode);
    DecodedAllDecodable(b, decode);
  }

  /** Saving stores `Map(gs, encode)`. Should the unarchiver invert the
      archiver on every saved geotification, loading that array gives the list
      back; the app itself promises no more than one item per element. */
  lemma {:induction false} ReloadAfterSave(gs: seq<Geotification>, encode: Geotification -> Bytes,
                                           decode: Bytes -> Option<Geotification>)
    requires forall g :: g in gs ==> decode(encode(g)) == Some(g)
    ensures Decoded(Map(gs, encode), decode) == gs
  {
    if gs != [] {
      var init := gs[..|gs| - 1];
      assert forall g :: g in init ==> g in gs;
      ReloadAfterSave(init, encode, decode);
      var items := Map(gs, encode);
      assert items[..|items| - 1] == Map(init, encode);
      assert gs == init + [gs[|gs| - 1]];
    }
  }
}
