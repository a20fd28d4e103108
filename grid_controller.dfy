/**
 * The grid-space handlers that do more than forward to the service: the
 * populated layout, the 404 answers, the reservation of a space, and the
 * space-to-layouts map attached to a user's own spaces.
 */
module GridController {
  import opened Wrappers
  import opened Api
  import opened GridSpaces
  import opened GridStore
  import GridService
  import App

  // ---------------------------------------------------------------------
  // Reads.

  /** `GridLayout.findById(id).populate("spaces")`: the referenced spaces
    * that still exist, in the layout's order. */
  function Populate(ids: seq<nat>, spaces: map<nat, GridSpace>): (r: seq<GridSpace>)
    ensures |r| <= |ids|
    decreases |ids|
  {
    if |ids| == 0 then []
    else
      var rest := Populate(ids[..|ids| - 1], spaces);
      var last := ids[|ids| - 1];
      if last in spaces then rest + [spaces[last]] else rest
  }

  /** A layout whose spaces all exist is populated one for one. */
  lemma {:induction false} PopulateComplete(ids: seq<nat>, spaces: map<nat, GridSpace>)
    requires forall i :: 0 <= i < |ids| ==> ids[i] in spaces
    ensures |Populate(ids, spaces)| == |ids|
    ensures forall i :: 0 <= i < |ids| ==> Populate(ids, spaces)[i] == spaces[ids[i]]
    decreases |ids|
  {
    if |ids| > 0 {
      PopulateComplete(ids[..|ids| - 1], spaces);
    }
  }

  /** Every populated space is one the layout refers to. */
  lemma {:induction false} PopulateSound(ids: seq<nat>, spaces: map<nat, GridSpace>, s: GridSpace)
    requires s in Populate(ids, spaces)
    ensures exists i :: 0 <= i < |ids| && ids[i] in spaces && spaces[ids[i]] == s
    decreases |ids|
  {
    var n := |ids| - 1;
    var rest := Populate(ids[..n], spaces);
    if s in rest {
      PopulateSound(ids[..n], spaces, s);
      var i :| 0 <= i < n && ids[..n][i] in spaces && spaces[ids[..n][i]] == s;
      assert ids[i] == ids[..n][i];
    } else {
      assert ids[n] in spaces && spaces[ids[n]] == s;
    }
  }

  /** `getGridLayout`: the layout with its spaces, or 404. */
  function GetGridLayout(layouts: map<nat, GridLayout>, spaces: map<nat, GridSpace>, id: nat)
    : (r: Outcome<(GridLayout, seq<GridSpace>)>)
    ensures id !in layouts ==> r == Fail(NotFound, "Layout not found")
    ensures id in layouts ==> r.Ok? && r.value.0 == layouts[id]
    ensures r.Ok? ==> forall s :: s in r.value.1 ==>
      exists i :: 0 <= i < |layouts[id].spaces| && layouts[id].spaces[i] in spaces
        && spaces[layouts[id].spaces[i]] == s
  {
    if id !in layouts then Fail(NotFound, "Layout not found")
    else
      var l := layouts[id];
      var ps := Populate(l.spaces, spaces);
      assert forall s :: s in ps ==>
        exists i :: 0 <= i < |l.spaces| && l.spaces[i] in spaces && spaces[l.spaces[i]] == s
      by {
        forall s | s in ps
          ensures exists i :: 0 <= i < |l.spaces| && l.spaces[i] in spaces && spaces[l.spaces[i]] == s
        {
          PopulateSound(l.spaces, spaces, s);
        }
      }
      Ok((l, ps))
  }

  /** `getGridSpace`: the impression is counted by the service; a missing
    * space is a 404. */
  method GetGridSpace(db: Db, id: nat, now: int) returns (r: Outcome<GridSpace>)
    requires db.Valid()
    modifies db
    ensures db.Valid()
    ensures id !in old(db.spaces) ==> r == Fail(NotFound, "Grid space not found") && unchanged(db)
    ensures id in old(db.spaces) ==> (r.Ok? && db.spaces == old(db.spaces)[id := r.value]
      && r.value.impressions == old(db.spaces)[id].impressions + 1)
  {
    var s := GridService.GetGridSpace(db, id, now);
    if s.None? {
      return Fail(NotFound, "Grid space not found");
    }
    r := Ok(s.value);
  }

  // ---------------------------------------------------------------------
  // Reservation.

  /** Three days, in milliseconds. */
  const ReservationMs: int := 3 * 24 * 60 * 60 * 1000

  /** The space as `reserveGridSpace` saves it. */
  function Reserved(s: GridSpace, user: nat, now: int): (t: GridSpace)
    ensures t.status == GridSpaces.Reserved && t.owner == Some(user)
    ensures t.reservationExpiresAt == Some(now + ReservationMs) && t.updatedAt == now
    ensures t.(status := s.status, owner := s.owner, reservationExpiresAt := s.reservationExpiresAt,
               updatedAt := s.updatedAt) == s
  {
    s.(status := GridSpaces.Reserved, owner := Some(user),
       reservationExpiresAt := Some(now + ReservationMs), updatedAt := now)
  }

  /** `reserveGridSpace` as written: the handler throws `new ApiError(...)`
    * but never imports `ApiError`, so evaluating either refusal throws a
    * `ReferenceError` instead, whose message is what the client reads. */
  function ReserveAsWritten(spaces: map<nat, GridSpace>, id: nat, user: nat, now: int): (r: Outcome<GridSpace>)
    ensures r.Ok? <==> id in spaces && spaces[id].status == Available
    ensures r.Ok? ==> r.value == Reserved(spaces[id], user, now)
    ensures r.Err? ==> r == Fail(ServerError, "ApiError is not defined")
  {
    if id !in spaces || spaces[id].status != Available then Fail(ServerError, "ApiError is not defined")
    else Ok(Reserved(spaces[id], user, now))
  }

  /** The refusals the handler means to send: "Grid space not found" (404)
    * for a missing space, "Only available spaces can be reserved" (400)
    * for one that is not available. */
  function Reserve(spaces: map<nat, GridSpace>, id: nat, user: nat, now: int): (r: Outcome<GridSpace>)
    ensures id !in spaces ==> r == Fail(NotFound, "Grid space not found")
    ensures id in spaces && spaces[id].status != Available ==>
      r == Fail(BadRequest, "Only available spaces can be reserved")
    ensures id in spaces && spaces[id].status == Available ==> r == Ok(Reserved(spaces[id], user, now))
  {
    if id !in spaces then Fail(NotFound, "Grid space not found")
    else if spaces[id].status != Available then Fail(BadRequest, "Only available spaces can be reserved")
    else Ok(Reserved(spaces[id], user, now))
  }

  /** The two agree on every reservation that succeeds; on every refusal
    * the client of the code as written reads "ApiError is not defined"
    * instead of the reason. */
  lemma ReserveDiscrepancy(spaces: map<nat, GridSpace>, id: nat, user: nat, now: int)
    ensures ReserveAsWritten(spaces, id, user, now).Ok? <==> Reserve(spaces, id, user, now).Ok?
    ensures Reserve(spaces, id, user, now).Ok? ==>
      ReserveAsWritten(spaces, id, user, now) == Reserve(spaces, id, user, now)
    ensures Reserve(spaces, id, user, now).Err? ==>
      App.ErrorResponse(ReserveAsWritten(spaces, id, user, now).error) == (ServerError, "ApiError is not defined")
      && App.ErrorResponse(Reserve(spaces, id, user, now).error).1
         in {"Grid space not found", "Only available spaces can be reserved"}
  {
  }

  /** The input that shows it: a space id that does not exist. */
  lemma ReserveMissingMessage(user: nat, now: int)
    ensures App.ErrorResponse(ReserveAsWritten(map[], 7, user, now).error).1 == "ApiError is not defined"
    ensures App.ErrorResponse(Reserve(map[], 7, user, now).error).1 == "Grid space not found"
  {
  }

  /** A space can be reserved only once until the reservation is lifted. */
  lemma NoDoubleReservation(spaces: map<nat, GridSpace>, id: nat, u1: nat, u2: nat, t1: int, t2: int)
    requires Reserve(spaces, id, u1, t1).Ok?
    ensures Reserve(spaces[id := Reserve(spaces, id, u1, t1).value], id, u2, t2)
      == Fail(BadRequest, "Only available spaces can be reserved")
  {
  }

  /** A reservation made at `t` is lifted by the first nightly run after
    * `t` plus three days, and survives every run before; once lifted the
    * space can be reserved again. */
  lemma ReservationLapses(spaces: map<nat, GridSpace>, id: nat, user: nat, t: int, now: int, other: nat)
    requires Reserve(spaces, id, user, t).Ok?
    ensures var held := spaces[id := Reserve(spaces, id, user, t).value];
      var after := App.ExpireReservations(held, now);
      (now > t + ReservationMs ==>
         (after[id].status == Available && after[id].owner.None? && Reserve(after, id, other, now).Ok?))
      && (now <= t + ReservationMs ==> after[id] == held[id])
  {
  }

  /** `reserveGridSpace`, with the refusals it means to send. */
  method ReserveGridSpace(db: Db, id: nat, user: nat, now: int) returns (r: Outcome<GridSpace>)
    requires db.Valid()
    modifies db
    ensures db.Valid()
    ensures r == Reserve(old(db.spaces), id, user, now)
    ensures r.Err? ==> unchanged(db)
    ensures r.Ok? ==> (db.spaces == old(db.spaces)[id := r.value]
      && db.layouts == old(db.layouts) && db.biddings == old(db.biddings)
      && db.transactions == old(db.transactions))
  {
    if id !in db.spaces {
      return Fail(NotFound, "Grid space not found");
    }
    var s := db.spaces[id];
    if s.status != Available {
      return Fail(BadRequest, "Only available spaces can be reserved");
    }
    db.SaveSpace(id, s.(status := GridSpaces.Reserved, owner := Some(user),
                        reservationExpiresAt := Some(now + ReservationMs)), now);
    r := Ok(db.spaces[id]);
  }

  // ---------------------------------------------------------------------
  // The layouts of a user's own spaces.

  /** An entry of a space's `layouts` list.  The related layouts are read
    * with `select("_id spaces")`, so `layout.name` is undefined and each
    * entry carries only the layout's id. */
  datatype LayoutRef = LayoutRef(id: nat)

  /** A related layout as selected: its id and its space ids. */
  type Related = (nat, seq<nat>)

  /** One entry per occurrence of `sid` among a layout's spaces. */
  function Occurrences(ids: seq<nat>, sid: nat, lid: nat): seq<LayoutRef>
    decreases |ids|
  {
    if |ids| == 0 then []
    else Occurrences(ids[..|ids| - 1], sid, lid) + (if ids[|ids| - 1] == sid then [LayoutRef(lid)] else [])
  }

  /** The entries the map holds for `sid` after the given layouts. */
  function RefsOf(related: seq<Related>, sid: nat): seq<LayoutRef>
    decreases |related|
  {
    if |related| == 0 then []
    else
      var l := related[|related| - 1];
      RefsOf(related[..|related| - 1], sid) + Occurrences(l.1, sid, l.0)
  }

  /** `spaceToLayoutMap[id] || []`. */
  function Lookup(m: map<nat, seq<LayoutRef>>, sid: nat): seq<LayoutRef> {
    if sid in m then m[sid] else []
  }

  /** The nested `forEach` of `getMyGridSpaces` building `spaceToLayoutMap`. */
  method LayoutsBySpace(related: seq<Related>) returns (m: map<nat, seq<LayoutRef>>)
    ensures forall sid :: Lookup(m, sid) == RefsOf(related, sid)
    ensures forall sid :: sid in m ==> |m[sid]| > 0
  {
    m := map[];
    var i := 0;
    while i < |related|
      invariant 0 <= i <= |related|
      invariant forall sid :: Lookup(m, sid) == RefsOf(related[..i], sid)
      invariant forall sid :: sid in m ==> |m[sid]| > 0
    {
      m := AddLayout(m, related[i].0, related[i].1);
      assert related[..i + 1][..i] == related[..i];
      i := i + 1;
    }
    assert related[..i] == related;
  }

  /** The inner `forEach`: one entry for the layout `lid` under each of
    * its space ids. */
  method AddLayout(m0: map<nat, seq<LayoutRef>>, lid: nat, ids: seq<nat>) returns (m: map<nat, seq<LayoutRef>>)
    requires forall sid :: sid in m0 ==> |m0[sid]| > 0
    ensures forall sid :: Lookup(m, sid) == Lookup(m0, sid) + Occurrences(ids, sid, lid)
    ensures forall sid :: sid in m ==> |m[sid]| > 0
  {
    m := m0;
    var j := 0;
    while j < |ids|
      invariant 0 <= j <= |ids|
      invariant forall sid :: Lookup(m, sid) == Lookup(m0, sid) + Occurrences(ids[..j], sid, lid)
      invariant forall sid :: sid in m ==> |m[sid]| > 0
    {
      var sid := ids[j];
      var m1 := m[sid := Lookup(m, sid) + [LayoutRef(lid)]];
      forall t
        ensures Lookup(m1, t) == Lookup(m0, t) + Occurrences(ids[..j + 1], t, lid)
      {
        AddStep(m0, m, ids, j, t, lid);
      }
      m := m1;
      j := j + 1;
    }
    assert ids[..j] == ids;
  }

  lemma AddStep(m0: map<nat, seq<LayoutRef>>, m: map<nat, seq<LayoutRef>>, ids: seq<nat>, j: nat, t: nat, lid: nat)
    requires j < |ids|
    requires Lookup(m, t) == Lookup(m0, t) + Occurrences(ids[..j], t, lid)
    ensures Lookup(m[ids[j] := Lookup(m, ids[j]) + [LayoutRef(lid)]], t)
      == Lookup(m0, t) + Occurrences(ids[..j + 1], t, lid)
  {
    OccurrencesStep(ids, j, t, lid);
    var e: seq<LayoutRef> := [];
    if ids[j] == t {
      assert Lookup(m0, t) + Occurrences(ids[..j + 1], t, lid)
        == (Lookup(m0, t) + Occurrences(ids[..j], t, lid)) + [LayoutRef(lid)];
    } else {
      assert Occurrences(ids[..j + 1], t, lid) == Occurrences(ids[..j], t, lid) + e;
      assert Occurrences(ids[..j], t, lid) + e == Occurrences(ids[..j], t, lid);
    }
  }

  lemma OccurrencesStep(ids: seq<nat>, j: nat, sid: nat, lid: nat)
    requires j < |ids|
    ensures Occurrences(ids[..j + 1], sid, lid)
      == Occurrences(ids[..j], sid, lid) + (if ids[j] == sid then [LayoutRef(lid)] else [])
  {
    assert ids[..j + 1][..j] == ids[..j];
  }

  lemma {:induction false} OccurrencesMembers(ids: seq<nat>, sid: nat, lid: nat, r: LayoutRef)
    ensures r in Occurrences(ids, sid, lid) <==> r == LayoutRef(lid) && sid in ids
    decreases |ids|
  {
    if |ids| > 0 {
      var n := |ids| - 1;
      OccurrencesMembers(ids[..n], sid, lid, r);
      assert ids == ids[..n] + [ids[n]];
    }
  }

  /** Some related layout with id `lid` lists `sid`. */
  predicate Lists(related: seq<Related>, lid: nat, sid: nat) {
    exists k :: 0 <= k < |related| && related[k].0 == lid && sid in related[k].1
  }

  /** A space's entries name exactly the related layouts that list it. */
  lemma {:induction false} RefsOfMembers(related: seq<Related>, sid: nat, lid: nat)
    ensures LayoutRef(lid) in RefsOf(related, sid) <==> Lists(related, lid, sid)
    decreases |related|
  {
    if |related| > 0 {
      var n := |related| - 1;
      RefsOfMembers(related[..n], sid, lid);
      OccurrencesMembers(related[n].1, sid, related[n].0, LayoutRef(lid));
      if Lists(related, lid, sid) {
        var k :| 0 <= k < |related| && related[k].0 == lid && sid in related[k].1;
        if k < n {
          assert related[..n][k] == related[k];
        }
      }
      if Lists(related[..n], lid, sid) {
        var k :| 0 <= k < n && related[..n][k].0 == lid && sid in related[..n][k].1;
        assert related[k] == related[..n][k];
      }
    }
  }

  /** `GridLayout.find({ spaces: { $in: spaceIds } })`: the layouts, in
    * their stored order, that list at least one of the spaces. */
  function RelatedTo(all: seq<Related>, spaceIds: seq<nat>): (r: seq<Related>)
    ensures |r| <= |all|
    decreases |all|
  {
    if |all| == 0 then []
    else
      var l := all[|all| - 1];
      var rest := RelatedTo(all[..|all| - 1], spaceIds);
      if exists s :: s in l.1 && s in spaceIds then rest + [l] else rest
  }

  lemma {:induction false} OccurrencesAbsent(ids: seq<nat>, sid: nat, lid: nat)
    requires sid !in ids
    ensures Occurrences(ids, sid, lid) == []
    decreases |ids|
  {
    if |ids| > 0 {
      OccurrencesAbsent(ids[..|ids| - 1], sid, lid);
    }
  }

  /** Reading only the related layouts loses nothing: for each listed
    * space they hold every layout entry that all layouts would give. */
  lemma {:induction false} RelatedSuffices(all: seq<Related>, spaceIds: seq<nat>, sid: nat)
    requires sid in spaceIds
    ensures RefsOf(RelatedTo(all, spaceIds), sid) == RefsOf(all, sid)
    decreases |all|
  {
    if |all| > 0 {
      var n := |all| - 1;
      var l := all[n];
      RelatedSuffices(all[..n], spaceIds, sid);
      var rest := RelatedTo(all[..n], spaceIds);
      if exists s :: s in l.1 && s in spaceIds {
        var r := rest + [l];
        assert r[..|r| - 1] == rest;
      } else {
        OccurrencesAbsent(l.1, sid, l.0);
      }
    }
  }

  /** A space of the listing with the layouts it belongs to. */
  datatype OwnSpace = OwnSpace(id: nat, space: GridSpace, layouts: seq<LayoutRef>)

  /** `GridSpace.find(filter)`: the spaces that match, in stored order. */
  function Matching(spaces: seq<(nat, GridSpace)>, f: GridService.OwnFilter): (r: seq<(nat, GridSpace)>)
    ensures |r| <= |spaces|
    ensures forall p :: p in r <==> p in spaces && GridService.OwnMatches(f, p.0, p.1)
    decreases |spaces|
  {
    if |spaces| == 0 then []
    else
      var rest := Matching(spaces[..|spaces| - 1], f);
      var p := spaces[|spaces| - 1];
      assert spaces == spaces[..|spaces| - 1] + [p];
      if GridService.OwnMatches(f, p.0, p.1) then rest + [p] else rest
  }

  /** `getMyGridSpaces`: the user's spaces, each with the layouts listing
    * it.  `spaces` and `layouts` are the stored documents in order;
    * `layoutSpaces` is what `GridLayout.findById` gives for the layout
    * filter. */
  method GetMyGridSpaces(spaces: seq<(nat, GridSpace)>, layouts: seq<Related>, user: nat,
                         status: Option<string>, layoutId: Option<string>, layoutSpaces: Option<seq<nat>>)
    returns (r: Outcome<seq<OwnSpace>>)
    ensures GridService.OwnFilterOf(user, status, layoutId, layoutSpaces).Err? ==>
      r == Err(GridService.OwnFilterOf(user, status, layoutId, layoutSpaces).error)
    ensures GridService.OwnFilterOf(user, status, layoutId, layoutSpaces).Ok? ==>
      var found := Matching(spaces, GridService.OwnFilterOf(user, status, layoutId, layoutSpaces).value);
      r.Ok? && |r.value| == |found|
      && forall k :: 0 <= k < |found| ==>
        r.value[k] == OwnSpace(found[k].0, found[k].1, RefsOf(layouts, found[k].0))
  {
    var f := GridService.OwnFilterOf(user, status, layoutId, layoutSpaces);
    if f.Err? {
      return Err(f.error);
    }
    var found := Matching(spaces, f.value);
    var spaceIds := seq(|found|, k requires 0 <= k < |found| => found[k].0);
    var m := LayoutsBySpace(RelatedTo(layouts, spaceIds));
    var out := seq(|found|, k requires 0 <= k < |found| => OwnSpace(found[k].0, found[k].1, Lookup(m, found[k].0)));
    forall k | 0 <= k < |found|
      ensures out[k] == OwnSpace(found[k].0, found[k].1, RefsOf(layouts, found[k].0))
    {
      assert found[k].0 == spaceIds[k];
      RelatedSuffices(layouts, spaceIds, found[k].0);
    }
    r := Ok(out);
  }
}
