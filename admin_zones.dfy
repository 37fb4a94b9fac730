/** The staff delivery-zone page of src/pages/staff/StaffZones.jsx: the
    search filter, the form, the save guard and payload, the active
    toggle and the editor reset on delete. */
module StaffZones {
  import opened Wrappers
  import opened Seqs
  import opened Text
  import opened JsValues
  import opened Delivery

  // ---------------------------------------------------------------------
  // Search

  /** The zone name and its keywords joined by spaces, lower-cased. */
  function Haystack(z: Zone): string {
    Lower(Join([z.zoneName] + z.areaKeywords, " "))
  }

  /** `filteredZones`: every zone for a blank query, else the zones whose
      haystack contains the trimmed, lower-cased query, in list order. */
  function FilteredZones(zones: seq<Zone>, q: string): (r: seq<Zone>)
    ensures Trim(q) == "" ==> r == zones
    ensures IsSubsequence(r, zones)
    ensures Trim(q) != "" ==> forall z :: z in r <==> z in zones && Contains(Haystack(z), Lower(Trim(q)))
  {
    var s := Lower(Trim(q));
    if s == "" then
      assert zones == [] + zones && IsSubsequence(zones, zones) by { SubsequenceRefl(zones); }
      zones
    else
      var matches := (z: Zone) => Contains(Haystack(z), s);
      FilterSubsequence(zones, matches);
      FilterMembership(zones, matches);
      Filter(zones, matches)
  }

  lemma {:induction false} SubsequenceRefl<T>(s: seq<T>)
    ensures IsSubsequence(s, s)
    decreases |s|
  {
    if s != [] {
      SubsequenceRefl(s[1..]);
    }
  }

  lemma JoinHead(x: string, ys: seq<string>, sep: string)
    ensures Join([x] + ys, sep) == x + (if ys == [] then "" else sep + Join(ys, sep))
  {
    var xs := [x] + ys;
    assert xs[0] == x && xs[1..] == ys;
  }

  lemma LowerPrefix(a: string, b: string)
    ensures Lower(a + b)[..|a|] == Lower(a)
  {
  }

  /** Searching for a zone's own (trimmed) name finds it. */
  lemma ZoneFoundByName(zones: seq<Zone>, i: nat)
    requires i < |zones| && zones[i].zoneName != "" && IsTrimmed(zones[i].zoneName)
    ensures zones[i] in FilteredZones(zones, zones[i].zoneName)
  {
    var z := zones[i];
    var name := z.zoneName;
    var rest := if z.areaKeywords == [] then "" else " " + Join(z.areaKeywords, " ");
    var hay := Haystack(z);
    assert Join([name] + z.areaKeywords, " ") == name + rest by {
      JoinHead(name, z.areaKeywords, " ");
    }
    assert hay[..|name|] == Lower(name) by {
      LowerPrefix(name, rest);
    }
    assert Trim(name) == name by {
      TrimOfTrimmed(name);
    }
    assert OccursAt(hay, Lower(name), 0);
    assert Contains(hay, Lower(Trim(name)));
  }

  // ---------------------------------------------------------------------
  // The form and saving

  /** The form fields besides the keyword text box. */
  datatype ZoneForm = ZoneForm(zoneName: string, fee: JsNum, isActive: bool)

  /** `emptyZone()`. */
  function EmptyZoneForm(): ZoneForm {
    ZoneForm("", Finite(0.0), true)
  }

  /** The form and keyword text `startEdit` fills from a zone. */
  function EditZoneForm(z: Zone): (r: (ZoneForm, string))
    ensures r.0.zoneName == z.zoneName && r.0.isActive == z.isActive
  {
    (ZoneForm(z.zoneName, Finite(z.fee), z.isActive), Join(z.areaKeywords, ", "))
  }

  datatype ZonePayload = ZonePayload(zoneName: string, fee: real, isActive: bool, areaKeywords: seq<string>)

  datatype ZoneSave = NoCall | CreateZone(payload: ZonePayload) | UpdateZone(id: string, payload: ZonePayload)

  /** The payload carries the trimmed name, `Number(fee) || 0`, the boolean
      flag and the parsed keywords. */
  predicate ZonePayloadFrom(pl: ZonePayload, form: ZoneForm, keywordsText: string) {
    pl.zoneName == Trim(form.zoneName) && pl.fee == OrZero(form.fee) &&
    pl.isActive == form.isActive && pl.areaKeywords == ParseCommaList(keywordsText)
  }

  /** `save`: nothing for a blank name, else an update of the zone being
      edited or a new zone. */
  function ZoneSaveOf(form: ZoneForm, editing: Option<Zone>, keywordsText: string): (r: ZoneSave)
    ensures r == NoCall <==> Trim(form.zoneName) == ""
    ensures r.CreateZone? <==> r != NoCall && editing.None?
    ensures r.UpdateZone? <==> r != NoCall && editing.Some?
    ensures r.UpdateZone? ==> r.id == editing.value.id
    ensures r != NoCall ==> ZonePayloadFrom(r.payload, form, keywordsText)
  {
    var name := Trim(form.zoneName);
    if name == "" then NoCall
    else
      var payload := ZonePayload(name, OrZero(form.fee), form.isActive, ParseCommaList(keywordsText));
      match editing
      case Some(z) => UpdateZone(z.id, payload)
      case None => CreateZone(payload)
  }

  /** The zone the server stores for a payload. */
  function StoredZone(id: string, pl: ZonePayload): Zone {
    Zone(id, pl.zoneName, pl.fee, pl.isActive, pl.areaKeywords)
  }

  /** A zone as `save` writes it: a trimmed non-empty name and a clean
      keyword list. */
  predicate SavedShape(z: Zone) {
    z.zoneName != "" && IsTrimmed(z.zoneName) && CleanItems(z.areaKeywords)
  }

  /** Whatever `save` sends has that shape. */
  lemma SavedZoneShape(form: ZoneForm, editing: Option<Zone>, keywordsText: string, id: string)
    requires ZoneSaveOf(form, editing, keywordsText) != NoCall
    ensures SavedShape(StoredZone(id, ZoneSaveOf(form, editing, keywordsText).payload))
  {
    var r := ZoneSaveOf(form, editing, keywordsText);
    assert ZonePayloadFrom(r.payload, form, keywordsText);
  }

  /** Opening a saved zone and saving at once sends it back unchanged. */
  lemma EditThenSaveKeepsZone(z: Zone)
    requires SavedShape(z)
    ensures ZoneSaveOf(EditZoneForm(z).0, Some(z), EditZoneForm(z).1) ==
            UpdateZone(z.id, ZonePayload(z.zoneName, z.fee, z.isActive, z.areaKeywords))
  {
    var e := EditZoneForm(z);
    assert Trim(e.0.zoneName) == z.zoneName by {
      TrimOfTrimmed(z.zoneName);
    }
    assert ParseCommaList(e.1) == z.areaKeywords by {
      ParseJoinRoundTrip(z.areaKeywords);
    }
    var r := ZoneSaveOf(e.0, Some(z), e.1);
    assert r.UpdateZone?;
    assert ZonePayloadFrom(r.payload, e.0, e.1);
  }

  /** Zones written by `save` carry no empty keyword, so none of them
      matches a missing or empty address. */
  lemma SavedZonesIgnoreEmptyAddress(address: Option<string>, zones: seq<Zone>)
    requires address == None || address == Some("")
    requires forall i | 0 <= i < |zones| :: SavedShape(zones[i])
    ensures CalcDeliveryFee(address, zones) == None
  {
    EmptyAddressNoFee(address, zones);
  }

  // ---------------------------------------------------------------------
  // Toggling

  /** `toggleActive`: the negated flag of the first zone with the id, or no
      call for an unknown id. */
  function ZoneToggleRequest(zones: seq<Zone>, id: string): (r: Option<bool>)
    ensures r.None? <==> forall j | 0 <= j < |zones| :: zones[j].id != id
    ensures r.Some? ==> exists i | 0 <= i < |zones| ::
      zones[i].id == id && r.value == !zones[i].isActive && forall j | 0 <= j < i :: zones[j].id != id
  {
    match Find(zones, (z: Zone) => z.id == id)
    case None => None
    case Some(z) => Some(!z.isActive)
  }

  // ---------------------------------------------------------------------
  // Deleting

  /** The editor state that `deleteZone` may reset. */
  datatype ZoneEditor = ZoneEditor(open: bool, editing: Option<Zone>, form: ZoneForm, keywordsText: string)

  /** The editor after `deleteZone(id)`. `deleted` says whether the user
      confirmed and the server call succeeded. Only deleting the zone being
      edited closes the editor and empties the form. */
  function EditorAfterDelete(ed: ZoneEditor, id: string, deleted: bool): (r: ZoneEditor)
    ensures deleted ==> !(r.editing.Some? && r.editing.value.id == id)
    ensures (deleted && ed.editing.Some? && ed.editing.value.id == id) ==>
              !r.open && r.form == EmptyZoneForm() && r.keywordsText == ""
    ensures !(deleted && ed.editing.Some? && ed.editing.value.id == id) ==> r == ed
  {
    if deleted && ed.editing.Some? && ed.editing.value.id == id then
      ZoneEditor(false, None, EmptyZoneForm(), "")
    else ed
  }

  /** Once a zone is deleted, saving the editor never sends an update of it. */
  lemma DeletedZoneNeverUpdated(ed: ZoneEditor, id: string)
    ensures var r := EditorAfterDelete(ed, id, true);
            var call := ZoneSaveOf(r.form, r.editing, r.keywordsText);
            !(call.UpdateZone? && call.id == id)
  {
  }
}
