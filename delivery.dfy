/** The delivery-zone resolver of src/lib/utils.js. */
module Delivery {
  import opened Wrappers
  import opened Seqs
  import opened Text

  datatype Zone = Zone(id: string, zoneName: string, fee: real, isActive: bool, areaKeywords: seq<string>)

  /** The address as the resolver reads it: a missing address is `""`, then lower-cased. */
  function AddressText(address: Option<string>): string {
    Lower(address.GetOr(""))
  }

  /** Some keyword of the zone, lower-cased, occurs in the lower-cased address `a`. */
  predicate HasKeywordIn(a: string, z: Zone) {
    exists i | 0 <= i < |z.areaKeywords| :: Contains(a, Lower(z.areaKeywords[i]))
  }

  /** The zone can decide the fee for the lower-cased address `a`. */
  predicate ZoneMatches(a: string, z: Zone) {
    z.isActive && HasKeywordIn(a, z)
  }

  /** The fee of the first active zone, in list order, with a keyword inside
      the address; `None` stands for `null`. */
  function CalcDeliveryFee(address: Option<string>, zones: seq<Zone>): (r: Option<real>)
    ensures r.None? <==> forall j | 0 <= j < |zones| :: !ZoneMatches(AddressText(address), zones[j])
    ensures r.Some? ==>
      exists i | 0 <= i < |zones| ::
        ZoneMatches(AddressText(address), zones[i]) && r.value == zones[i].fee &&
        forall j | 0 <= j < i :: !ZoneMatches(AddressText(address), zones[j])
  {
    var a := AddressText(address);
    match Find(zones, z => ZoneMatches(a, z))
    case Some(z) => Some(z.fee)
    case None => None
  }

  /** Only the first matching zone counts: zones listed after it never change the fee. */
  lemma AppendAfterMatch(address: Option<string>, zones: seq<Zone>, more: seq<Zone>)
    requires CalcDeliveryFee(address, zones).Some?
    ensures CalcDeliveryFee(address, zones + more) == CalcDeliveryFee(address, zones)
  {
    var a := AddressText(address);
    FindAppend(zones, more, (z: Zone) => ZoneMatches(a, z));
  }

  /** The zones handed to the checkout: the active ones, in order. */
  function ActiveZones(zones: seq<Zone>): seq<Zone> {
    Filter(zones, (z: Zone) => z.isActive)
  }

  /** A zone that is switched off never decides the fee: dropping every
      inactive zone first gives the same result. */
  lemma InactiveNeverDecides(address: Option<string>, zones: seq<Zone>)
    ensures CalcDeliveryFee(address, ActiveZones(zones)) == CalcDeliveryFee(address, zones)
  {
    var a := AddressText(address);
    FindAfterFilter(zones, (z: Zone) => ZoneMatches(a, z), (z: Zone) => z.isActive);
  }

  /** Letter case of the address does not matter. */
  lemma AddressCaseIgnored(a: string, b: string, zones: seq<Zone>)
    requires Lower(a) == Lower(b)
    ensures CalcDeliveryFee(Some(a), zones) == CalcDeliveryFee(Some(b), zones)
  {
    assert AddressText(Some(a)) == AddressText(Some(b));
  }

  /** Two zones that differ at most in the letter case of their keywords. */
  predicate SameUpToCase(z: Zone, w: Zone) {
    z.fee == w.fee && z.isActive == w.isActive && |z.areaKeywords| == |w.areaKeywords| &&
    forall i | 0 <= i < |z.areaKeywords| :: Lower(z.areaKeywords[i]) == Lower(w.areaKeywords[i])
  }

  /** Letter case of the keywords does not matter. */
  lemma SameUpToCaseMatches(a: string, z: Zone, w: Zone)
    requires SameUpToCase(z, w)
    ensures ZoneMatches(a, z) <==> ZoneMatches(a, w)
  {
    if HasKeywordIn(a, z) {
      var k :| 0 <= k < |z.areaKeywords| && Contains(a, Lower(z.areaKeywords[k]));
      assert Contains(a, Lower(w.areaKeywords[k]));
    }
    if HasKeywordIn(a, w) {
      var k :| 0 <= k < |w.areaKeywords| && Contains(a, Lower(w.areaKeywords[k]));
      assert Contains(a, Lower(z.areaKeywords[k]));
    }
  }

  lemma KeywordCaseIgnored(address: Option<string>, zones: seq<Zone>, other: seq<Zone>)
    requires |zones| == |other|
    requires forall i | 0 <= i < |zones| :: SameUpToCase(zones[i], other[i])
    ensures CalcDeliveryFee(address, zones) == CalcDeliveryFee(address, other)
  {
    var a := AddressText(address);
    var p := (z: Zone) => ZoneMatches(a, z);
    forall i | 0 <= i < |zones|
      ensures p(zones[i]) <==> p(other[i])
    {
      SameUpToCaseMatches(a, zones[i], other[i]);
    }
    FindIndexPointwise(zones, p, other, p);
  }

  /** A zone without keywords never matches, whatever the address. */
  lemma EmptyKeywordsNeverMatch(a: string, z: Zone)
    requires z.areaKeywords == []
    ensures !ZoneMatches(a, z)
  {
  }

  /** An active zone holding an empty keyword matches every address. */
  lemma EmptyKeywordMatchesAll(address: Option<string>, z: Zone)
    requires z.isActive && "" in z.areaKeywords
    ensures CalcDeliveryFee(address, [z]) == Some(z.fee)
  {
    var a := AddressText(address);
    var k :| 0 <= k < |z.areaKeywords| && z.areaKeywords[k] == "";
    ContainsEmptyNeedle(a);
    assert Contains(a, Lower(z.areaKeywords[k]));
  }

  /** With a missing or empty address and no empty keyword, there is no fee. */
  lemma EmptyAddressNoFee(address: Option<string>, zones: seq<Zone>)
    requires address == None || address == Some("")
    requires forall i, k | 0 <= i < |zones| && 0 <= k < |zones[i].areaKeywords| :: zones[i].areaKeywords[k] != ""
    ensures CalcDeliveryFee(address, zones) == None
  {
    assert AddressText(address) == "";
    forall i | 0 <= i < |zones|
      ensures !ZoneMatches("", zones[i])
    {
      forall k | 0 <= k < |zones[i].areaKeywords|
        ensures !Contains("", Lower(zones[i].areaKeywords[k]))
      {
        EmptyHayContainsOnlyEmpty(Lower(zones[i].areaKeywords[k]));
      }
    }
  }

  /** The two zones of the worked example. */
  function ExampleZones(): seq<Zone> {
    [Zone("z1", "Bangna", 40.0, true, ["Bangna"]), Zone("z2", "Sukhumvit", 60.0, true, ["Sukhumvit"])]
  }

  /** The worked example: "123 Bangna Soi 5" falls in the first zone and costs 40. */
  lemma BangnaExample()
    ensures CalcDeliveryFee(Some("123 Bangna Soi 5"), ExampleZones()) == Some(40.0)
  {
    var zs := ExampleZones();
    var a := AddressText(Some("123 Bangna Soi 5"));
    assert a == "123 bangna soi 5";
    assert Lower(zs[0].areaKeywords[0]) == "bangna";
    assert OccursAt(a, "bangna", 4);
    assert ZoneMatches(a, zs[0]);
    assert zs == [zs[0]] + zs[1..];
    FindCons(zs[0], zs[1..], (z: Zone) => ZoneMatches(a, z));
  }

  /** The worked example: "Nowhere" matches no zone, so there is no fee. */
  lemma NowhereExample()
    ensures CalcDeliveryFee(Some("Nowhere"), ExampleZones()) == None
  {
    var zs := ExampleZones();
    var a := AddressText(Some("Nowhere"));
    assert a == "nowhere";
    assert Lower(zs[0].areaKeywords[0]) == "bangna";
    assert Lower(zs[1].areaKeywords[0]) == "sukhumvit";
    assert !Contains(a, "bangna") by {
      forall i | 0 <= i <= 1 ensures !OccursAt(a, "bangna", i) {
        assert a[i] != 'b';
      }
    }
    assert !ZoneMatches(a, zs[0]);
    assert !ZoneMatches(a, zs[1]);
  }
}
