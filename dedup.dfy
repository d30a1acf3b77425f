/**
 * The daemon's duplicate-suppression window: the last 32 accepted message
 * ids (`rid`) kept in a ring with a write cursor. A packet whose id is in
 * the ring is skipped; an accepted id overwrites the slot at the cursor and
 * the cursor moves on modulo 32. The ring starts zero-filled.
 */
module Dedup {
  import opened Common

  /** Number of remembered ids. */
  const Slots := 32

  /** The ring of remembered ids and the slot the next accepted id goes to. */
  datatype Window = Window(ids: seq<U24>, cursor: nat)

  ghost predicate Valid(w: Window)
  {
    |w.ids| == Slots && w.cursor < Slots
  }

  /** The ring as the daemon clears it before its loop starts. */
  function Initial(): (w: Window)
    ensures Valid(w)
    ensures forall j :: 0 <= j < Slots ==> w.ids[j] == 0
    ensures w.cursor == 0
  {
    Window(seq(Slots, _ => 0), 0)
  }

  /** An id counts as already seen when some slot holds it. */
  predicate Seen(w: Window, rid: U24)
  {
    rid in w.ids
  }

  /** Store an accepted id at the cursor and advance the cursor. */
  function Remember(w: Window, rid: U24): (r: Window)
    requires Valid(w)
    ensures Valid(r) && r.ids[w.cursor] == rid && Seen(r, rid)
  {
    Window(w.ids[w.cursor := rid], (w.cursor + 1) % Slots)
  }

  /** Decide on one offered id: accept and remember it unless already seen. */
  function Admit(w: Window, rid: U24): (r: (bool, Window))
    requires Valid(w)
    ensures Valid(r.1)
    ensures r.0 <==> !Seen(w, rid)
    ensures r.0 ==> r.1 == Remember(w, rid) && Seen(r.1, rid)
    ensures !r.0 ==> r.1 == w
  {
    if Seen(w, rid) then (false, w) else (true, Remember(w, rid))
  }

  /** The window after remembering `rs` in order. */
  function RememberAll(w: Window, rs: seq<U24>): (r: Window)
    requires Valid(w)
    ensures Valid(r)
    decreases |rs|
  {
    if rs == [] then w else Remember(RememberAll(w, rs[..|rs| - 1]), rs[|rs| - 1])
  }

  /** Offer `offers` in order: the ids accepted, and the window afterwards. */
  function Run(w: Window, offers: seq<U24>): (r: (seq<U24>, Window))
    requires Valid(w)
    ensures Valid(r.1)
    ensures |r.0| <= |offers|
    ensures forall k :: 0 <= k < |r.0| ==> r.0[k] in offers
    decreases |offers|
  {
    if offers == [] then ([], w)
    else
      var (accepted, w') := Run(w, offers[..|offers| - 1]);
      var (ok, w'') := Admit(w', offers[|offers| - 1]);
      (if ok then accepted + [offers[|offers| - 1]] else accepted, w'')
  }

  /** The slot the `k`-th id remembered from cursor `c` lands in. */
  function Slot(c: nat, k: nat): (s: nat)
    requires c < Slots && k <= Slots
    ensures s < Slots
  {
    if c + k < Slots then c + k else c + k - Slots
  }

  lemma SlotNext(c: nat, k: nat)
    requires c < Slots && k < Slots
    ensures (Slot(c, k) + 1) % Slots == Slot(c, k + 1)
  {
  }

  /** How many ids must be remembered from cursor `c` before slot `j` is written. */
  function Age(c: nat, j: nat): (a: nat)
    requires c < Slots && j < Slots
    ensures a < Slots && Slot(c, a) == j
    ensures forall k :: 0 <= k < Slots && Slot(c, k) == j ==> k == a
  {
    if c <= j then j - c else j + Slots - c
  }

  lemma {:induction false} RememberAllAppend(w: Window, rs: seq<U24>, ts: seq<U24>)
    requires Valid(w)
    ensures RememberAll(w, rs + ts) == RememberAll(RememberAll(w, rs), ts)
    decreases |ts|
  {
    if ts == [] {
      assert rs + ts == rs;
    } else {
      var ts' := ts[..|ts| - 1];
      assert (rs + ts)[..|rs + ts| - 1] == rs + ts';
      RememberAllAppend(w, rs, ts');
    }
  }

  /**
   * Up to 32 remembered ids land in consecutive slots from the cursor on, and
   * every slot that has not yet been reached keeps its id.
   */
  lemma {:induction false} RememberAllSlots(w: Window, rs: seq<U24>)
    requires Valid(w) && |rs| <= Slots
    ensures RememberAll(w, rs).cursor == Slot(w.cursor, |rs|)
    ensures forall k :: 0 <= k < |rs| ==> RememberAll(w, rs).ids[Slot(w.cursor, k)] == rs[k]
    ensures forall j :: 0 <= j < Slots && Age(w.cursor, j) >= |rs| ==>
      RememberAll(w, rs).ids[j] == w.ids[j]
    decreases |rs|
  {
    if rs != [] {
      var c, n := w.cursor, |rs| - 1;
      var rs' := rs[..n];
      RememberAllSlots(w, rs');
      var r' := RememberAll(w, rs');
      var r := RememberAll(w, rs);
      assert r == Remember(r', rs[n]);
      SlotNext(c, n);
      forall k | 0 <= k < |rs|
        ensures r.ids[Slot(c, k)] == rs[k]
      {
        if k < n {
          assert Slot(c, k) != Slot(c, n);
          assert rs'[k] == rs[k];
        }
      }
      forall j | 0 <= j < Slots && Age(c, j) >= |rs|
        ensures r.ids[j] == w.ids[j]
      {
        assert j != Slot(c, n);
      }
    }
  }

  /** Once 32 or more ids have been remembered, exactly the last 32 are seen. */
  lemma WindowHoldsLast(w: Window, rs: seq<U24>, x: U24)
    requires Valid(w) && |rs| >= Slots
    ensures Seen(RememberAll(w, rs), x) <==> x in rs[|rs| - Slots..]
  {
    var tail := rs[|rs| - Slots..];
    assert rs == rs[..|rs| - Slots] + tail;
    RememberAllAppend(w, rs[..|rs| - Slots], tail);
    var mid := RememberAll(w, rs[..|rs| - Slots]);
    RememberAllSlots(mid, tail);
    var r := RememberAll(w, rs);
    if Seen(r, x) {
      var j :| 0 <= j < Slots && r.ids[j] == x;
      assert tail[Age(mid.cursor, j)] == x;
    }
    if x in tail {
      var k :| 0 <= k < Slots && tail[k] == x;
      assert r.ids[Slot(mid.cursor, k)] == x;
    }
  }

  /** Any of the last 32 remembered ids is seen. */
  lemma RecentIsSeen(w: Window, rs: seq<U24>, k: nat)
    requires Valid(w) && k < |rs| && |rs| - k <= Slots
    ensures Seen(RememberAll(w, rs), rs[k])
  {
    assert rs == rs[..k] + rs[k..];
    RememberAllAppend(w, rs[..k], rs[k..]);
    var mid := RememberAll(w, rs[..k]);
    RememberAllSlots(mid, rs[k..]);
    assert RememberAll(w, rs).ids[Slot(mid.cursor, 0)] == rs[k];
  }

  /**
   * From the zero-filled ring, while fewer than 32 ids have been accepted,
   * the seen ids are the accepted ones and 0.
   */
  lemma InitialRemembersZero(rs: seq<U24>, x: U24)
    requires |rs| < Slots
    ensures Seen(RememberAll(Initial(), rs), x) <==> x == 0 || x in rs
  {
    var r := RememberAll(Initial(), rs);
    RememberAllSlots(Initial(), rs);
    assert Age(0, Slots - 1) == Slots - 1;
    assert r.ids[Slots - 1] == 0;
    if Seen(r, x) {
      var j :| 0 <= j < Slots && r.ids[j] == x;
      if j < |rs| {
        assert Slot(0, j) == j;
      }
    }
    if x in rs {
      var k :| 0 <= k < |rs| && rs[k] == x;
      assert r.ids[Slot(0, k)] == x;
    }
  }

  /** The window after a run is the start window with the accepted ids remembered. */
  lemma {:induction false} RunRemembersAccepted(w: Window, offers: seq<U24>)
    requires Valid(w)
    ensures Run(w, offers).1 == RememberAll(w, Run(w, offers).0)
    decreases |offers|
  {
    if offers != [] {
      var offers' := offers[..|offers| - 1];
      RunRemembersAccepted(w, offers');
      var accepted := Run(w, offers').0;
      var x := offers[|offers| - 1];
      if !Seen(Run(w, offers').1, x) {
        assert (accepted + [x])[..|accepted + [x]| - 1] == accepted;
      }
    }
  }

  /** Each accepted id was unseen given the ids accepted before it. */
  lemma {:induction false} RunAcceptsUnseen(w: Window, offers: seq<U24>)
    requires Valid(w)
    ensures forall j :: 0 <= j < |Run(w, offers).0| ==>
      !Seen(RememberAll(w, Run(w, offers).0[..j]), Run(w, offers).0[j])
    decreases |offers|
  {
    if offers != [] {
      var offers' := offers[..|offers| - 1];
      RunAcceptsUnseen(w, offers');
      RunRemembersAccepted(w, offers');
      var accepted := Run(w, offers').0;
      var x := offers[|offers| - 1];
      if !Seen(Run(w, offers').1, x) {
        var acc := accepted + [x];
        forall j | 0 <= j < |acc|
          ensures !Seen(RememberAll(w, acc[..j]), acc[j])
        {
          if j < |accepted| {
            assert acc[..j] == accepted[..j];
          } else {
            assert acc[..j] == accepted;
          }
        }
      }
    }
  }

  /** An id accepted again comes at least 33 acceptances after its earlier acceptance (at least 32 others in between). */
  lemma AcceptedIdsAreSpaced(w: Window, offers: seq<U24>, i: nat, j: nat)
    requires Valid(w)
    requires i < j < |Run(w, offers).0|
    requires Run(w, offers).0[i] == Run(w, offers).0[j]
    ensures j - i > Slots
  {
    var acc := Run(w, offers).0;
    RunAcceptsUnseen(w, offers);
    if j - i <= Slots {
      RecentIsSeen(w, acc[..j], i);
      assert false;
    }
  }

  /** From the zero-filled ring, id 0 is never among the first 32 accepted ids. */
  lemma ZeroRejectedUntilOverwritten(offers: seq<U24>, j: nat)
    requires j < |Run(Initial(), offers).0| && Run(Initial(), offers).0[j] == 0
    ensures j >= Slots
  {
    var acc := Run(Initial(), offers).0;
    RunAcceptsUnseen(Initial(), offers);
    if j < Slots {
      InitialRemembersZero(acc[..j], 0);
      assert false;
    }
  }

  /** An id missing from the last 32 accepted ids is accepted when offered again. */
  lemma EvictedIsAcceptedAgain(w: Window, rs: seq<U24>, x: U24)
    requires Valid(w) && |rs| >= Slots && x !in rs[|rs| - Slots..]
    ensures Admit(RememberAll(w, rs), x).0
  {
    WindowHoldsLast(w, rs, x);
  }

  /**
   * The ring as the daemon's loop keeps it: the `message_ids` array and its
   * write cursor, searched by a loop and written in place.
   */
  class MessageWindow {
    const ids: array<U24>
    var cursor: nat

    ghost predicate Valid()
      reads this
    {
      ids.Length == Slots && cursor < Slots
    }

    ghost function Model(): Window
      reads this, ids
    {
      Window(ids[..], cursor)
    }

    /** The zero-filled ring with the cursor at slot 0. */
    constructor ()
      ensures Valid() && Model() == Initial() && fresh(ids)
    {
      ids := new U24[Slots](_ => 0);
      cursor := 0;
      new;
      assert ids[..] == Initial().ids;
    }

    /** Search every slot for `rid`, stopping at the first hit. */
    method Contains(rid: U24) returns (found: bool)
      requires Valid()
      ensures found <==> Seen(Model(), rid)
    {
      found := false;
      var i := 0;
      while i < Slots
        invariant 0 <= i <= Slots
        invariant rid !in ids[..i]
      {
        if rid == ids[i] {
          found := true;
          break;
        }
        i := i + 1;
      }
      assert ids[..] == ids[..i] + ids[i..];
    }

    /** Store an accepted id at the cursor and advance the cursor modulo 32. */
    method Store(rid: U24)
      requires Valid()
      modifies this, ids
      ensures Valid() && Model() == Remember(old(Model()), rid)
    {
      ids[cursor] := rid;
      cursor := (cursor + 1) % Slots;
    }
  }
}
