/** The record mapping and the login rule of src/services/api.js. The
    server's JSON is a value of `Json`; the fetch calls themselves are not
    modelled. */
module Api {
  import opened Wrappers
  import opened Seqs

  /** Parsed JSON. Object key order is not kept. */
  datatype Json =
    | JNull
    | JBool(b: bool)
    | JNum(n: real)
    | JStr(s: string)
    | JArr(elems: seq<Json>)
    | JObj(fields: map<string, Json>)

  /** The JSON values JavaScript treats as false. */
  predicate Falsy(x: Json) {
    x == JNull || x == JBool(false) || x == JNum(0.0) || x == JStr("")
  }

  /** `obj[k]` is present and truthy. */
  predicate HasTruthy(fields: map<string, Json>, k: string) {
    k in fields && !Falsy(fields[k])
  }

  /** `item._id && !item.id` on an object. */
  predicate NeedsId(x: Json) {
    x.JObj? && HasTruthy(x.fields, "_id") && !HasTruthy(x.fields, "id")
  }

  /** `mapId`: falsy values pass through, arrays are mapped element by
      element, an object with a truthy `_id` and no truthy `id` gains
      `id = _id`, anything else is returned as it is. */
  function MapId(x: Json): (r: Json)
    ensures Falsy(x) ==> r == x
    ensures r.JArr? <==> x.JArr?
    ensures x.JArr? ==> |r.elems| == |x.elems|
    ensures x.JObj? ==> r.JObj? && r.fields.Keys == x.fields.Keys + (if NeedsId(x) then {"id"} else {})
    ensures x.JObj? ==> forall k | k in x.fields && k != "id" :: r.fields[k] == x.fields[k]
    ensures NeedsId(x) ==> r.fields["id"] == x.fields["_id"]
    ensures x.JObj? && (HasTruthy(x.fields, "_id") || HasTruthy(x.fields, "id")) ==> HasTruthy(r.fields, "id")
    ensures !x.JArr? && !NeedsId(x) ==> r == x
    decreases x
  {
    if Falsy(x) then x
    else if x.JArr? then JArr(seq(|x.elems|, i requires 0 <= i < |x.elems| => MapId(x.elems[i])))
    else if NeedsId(x) then JObj(x.fields["id" := x.fields["_id"]])
    else x
  }

  /** Arrays are mapped element by element (also nested arrays). */
  lemma MapIdElements(xs: seq<Json>, i: nat)
    requires i < |xs|
    ensures MapId(JArr(xs)).elems[i] == MapId(xs[i])
  {
  }

  /** `mapId` is idempotent. */
  lemma {:induction false} MapIdIdempotent(x: Json)
    ensures MapId(MapId(x)) == MapId(x)
    decreases x
  {
    match x
    case JArr(elems) =>
      var r := MapId(x);
      forall i | 0 <= i < |elems|
        ensures MapId(r.elems[i]) == r.elems[i]
      {
        MapIdElements(elems, i);
        MapIdIdempotent(elems[i]);
      }
      assert MapId(r).elems == r.elems;
    case JObj(fields) =>
      if NeedsId(x) {
        assert !NeedsId(MapId(x));
      }
    case _ =>
  }

  /** Every record of a fetched list of records with `_id`s comes out with
      a truthy `id`. */
  lemma MapIdGivesIds(xs: seq<Json>)
    requires forall i | 0 <= i < |xs| :: xs[i].JObj? && HasTruthy(xs[i].fields, "_id")
    ensures forall i | 0 <= i < |xs| :: MapId(JArr(xs)).elems[i].JObj? &&
                                        HasTruthy(MapId(JArr(xs)).elems[i].fields, "id")
  {
    forall i | 0 <= i < |xs|
      ensures MapId(JArr(xs)).elems[i].JObj? && HasTruthy(MapId(JArr(xs)).elems[i].fields, "id")
    {
      MapIdElements(xs, i);
    }
  }

  // ---------------------------------------------------------------------
  // Login

  /** `u.k`, absent when `u` is not an object or lacks the key. */
  function Field(u: Json, k: string): Option<Json> {
    if u.JObj? && k in u.fields then Some(u.fields[k]) else None
  }

  /** `u.email === email && u.password === password`: strict equality with
      the two strings. */
  predicate Matches(u: Json, email: string, password: string) {
    Field(u, "email") == Some(JStr(email)) && Field(u, "password") == Some(JStr(password))
  }

  /** `login`: the first matching staff user, mapped, or `null` (`None`). */
  function Login(users: seq<Json>, email: string, password: string): (r: Option<Json>)
    ensures r.None? <==> forall i | 0 <= i < |users| :: !Matches(users[i], email, password)
    ensures r.Some? ==> exists i | 0 <= i < |users| ::
      Matches(users[i], email, password) && r.value == MapId(users[i]) &&
      forall j | 0 <= j < i :: !Matches(users[j], email, password)
  {
    match Find(users, u => Matches(u, email, password))
    case None => None
    case Some(u) => Some(MapId(u))
  }

  /** For the list `getStaffUsers` returns (already mapped), `login` hands
      back the stored record itself: the second `mapId` changes nothing. */
  lemma LoginReturnsListedUser(raw: seq<Json>, email: string, password: string)
    requires Login(MapId(JArr(raw)).elems, email, password).Some?
    ensures Login(MapId(JArr(raw)).elems, email, password).value in MapId(JArr(raw)).elems
  {
    var users := MapId(JArr(raw)).elems;
    var r := Login(users, email, password);
    var i :| 0 <= i < |users| && Matches(users[i], email, password) && r.value == MapId(users[i]);
    MapIdElements(raw, i);
    MapIdIdempotent(raw[i]);
  }
}
