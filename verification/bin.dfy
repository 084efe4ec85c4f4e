/** The bin page: the list of deleted password entries, a per-entry
    show/hide flag for the password, and the recover action. */
module Bin {
  import opened Base
  import opened Api

  datatype Entry = Entry(id: nat, title: string, usernameOrEmail: string, password: string, sectionName: Option<string>)

  /** The list without the entries carrying `id`, in their original order:
      what a successful recover leaves on the page. */
  function WithoutId(list: seq<Entry>, id: nat): (r: seq<Entry>)
    ensures |r| <= |list|
    ensures forall e :: e in r <==> e in list && e.id != id
  {
    if list == [] then []
    else if list[0].id == id then WithoutId(list[1..], id)
    else [list[0]] + WithoutId(list[1..], id)
  }

  /** The filter works entry by entry, so the entries it keeps stay in
      their original order. */
  lemma {:induction false} WithoutIdConcat(a: seq<Entry>, b: seq<Entry>, id: nat)
    ensures WithoutId(a + b, id) == WithoutId(a, id) + WithoutId(b, id)
  {
    if a != [] {
      assert (a + b)[1..] == a[1..] + b;
      WithoutIdConcat(a[1..], b, id);
    } else {
      assert a + b == b;
    }
  }

  lemma WithoutIdSingle(e: Entry, id: nat)
    ensures WithoutId([e], id) == (if e.id == id then [] else [e])
  {
  }

  /** An id no entry has leaves the list as it is. */
  lemma {:induction false} WithoutAbsentId(list: seq<Entry>, id: nat)
    requires forall i :: 0 <= i < |list| ==> list[i].id != id
    ensures WithoutId(list, id) == list
  {
    if list != [] {
      WithoutAbsentId(list[1..], id);
    }
  }

  /** Filtering twice by the same id is filtering once. */
  lemma WithoutIdIdempotent(list: seq<Entry>, id: nat)
    ensures WithoutId(WithoutId(list, id), id) == WithoutId(list, id)
  {
    var r := WithoutId(list, id);
    forall i | 0 <= i < |r|
      ensures r[i].id != id
    {
      assert r[i] in r;
    }
    WithoutAbsentId(r, id);
  }

  /** Removing two ids gives the same list in either order. */
  lemma {:induction false} WithoutIdCommutes(list: seq<Entry>, a: nat, b: nat)
    ensures WithoutId(WithoutId(list, a), b) == WithoutId(WithoutId(list, b), a)
  {
    if list != [] {
      WithoutIdCommutes(list[1..], a, b);
      var e := list[0];
      WithoutIdConcat([e], WithoutId(list[1..], a), b);
      WithoutIdConcat([e], WithoutId(list[1..], b), a);
    }
  }

  /** The page's state; `show` maps ids to the show/hide flag, and a
      missing id reads as hidden. */
  datatype State = State(list: seq<Entry>, show: map<nat, bool>, recovering: Option<nat>)

  /** A recover call in flight. `snapshot` is the list the handler's
      closure captured when it started. */
  datatype Call = Call(id: nat, snapshot: seq<Entry>)

  const RecoverFailed: string := "Failed to recover password. Please try again."

  /** `handleRecover` up to the call. */
  function StartRecover(s: State, id: nat): (r: (State, Call, seq<Effect>))
    ensures r.0 == s.(recovering := Some(id))
    ensures r.1 == Call(id, s.list)
    ensures r.2 == [Send(RecoverPassword(id))]
  {
    (s.(recovering := Some(id)), Call(id, s.list), [Send(RecoverPassword(id))])
  }

  /** `handleRecover` after the call settles, as the page does it: the new
      list is the captured snapshot filtered, whatever happened to the list
      in the meantime. */
  function SettleRecoverAsWritten(s: State, c: Call, outcome: Outcome): (r: (State, seq<Effect>))
    ensures r.0.recovering.None? && r.0.show == s.show
    ensures outcome.Succeeded? ==> r.0.list == WithoutId(c.snapshot, c.id) && r.1 == []
    ensures outcome.Failed? ==> r.0.list == s.list && r.1 == [Alert(RecoverFailed)]
  {
    match outcome
    case Succeeded => (s.(list := WithoutId(c.snapshot, c.id), recovering := None), [])
    case Failed(_) => (s.(recovering := None), [Alert(RecoverFailed)])
  }

  /** `handleRecover` after the call settles, filtering the list as it is
      when the call returns (a functional state update). */
  function SettleRecover(s: State, c: Call, outcome: Outcome): (r: (State, seq<Effect>))
    ensures r.0.recovering.None? && r.0.show == s.show
    ensures outcome.Succeeded? ==> r.0.list == WithoutId(s.list, c.id) && r.1 == []
    ensures outcome.Succeeded? ==> forall e :: e in r.0.list ==> e in s.list && e.id != c.id
    ensures outcome.Failed? ==> r.0.list == s.list && r.1 == [Alert(RecoverFailed)]
  {
    match outcome
    case Succeeded => (s.(list := WithoutId(s.list, c.id), recovering := None), [])
    case Failed(_) => (s.(recovering := None), [Alert(RecoverFailed)])
  }

  /** An entry's recover button is disabled while its own recover is the
      one in flight. */
  predicate RecoverDisabled(s: State, id: nat) {
    s.recovering == Some(id)
  }

  /** With one call at a time the two settle rules agree. */
  lemma SingleRecoverAgrees(s: State, id: nat, outcome: Outcome)
    ensures var (mid, c, _) := StartRecover(s, id);
      SettleRecoverAsWritten(mid, c, outcome) == SettleRecover(mid, c, outcome)
  {
  }

  /** One recover: its own button is disabled while it runs, and afterwards
      nothing is in flight; a success removes exactly the entries with that
      id, a failure changes no entry. */
  lemma RecoverLifecycle(s: State, id: nat, outcome: Outcome)
    ensures var (mid, c, _) := StartRecover(s, id);
      var after := SettleRecover(mid, c, outcome).0;
      && RecoverDisabled(mid, id) && !RecoverDisabled(after, id)
      && (outcome.Succeeded? ==> (forall e :: e in after.list <==> e in s.list && e.id != id))
      && (outcome.Failed? ==> after.list == s.list)
  {
  }

  /** Two overlapping recovers, both successful, in either order of
      return: both entries leave the list. */
  lemma OverlappingRecoversRemoveBoth(s: State, a: nat, b: nat, aFirst: bool)
    ensures var (s1, ca, _) := StartRecover(s, a);
      var (s2, cb, _) := StartRecover(s1, b);
      var done := if aFirst
        then SettleRecover(SettleRecover(s2, ca, Succeeded).0, cb, Succeeded).0
        else SettleRecover(SettleRecover(s2, cb, Succeeded).0, ca, Succeeded).0;
      done.list == WithoutId(WithoutId(s.list, a), b)
  {
    WithoutIdCommutes(s.list, a, b);
  }

  /** The page as written: recover entry 1, then entry 2 before the first
      call returns; both calls succeed, yet entry 1 is back in the list. */
  lemma StaleSnapshotResurrects()
    ensures var e1 := Entry(1, "mail", "me", "pw1", None);
      var e2 := Entry(2, "bank", "me", "pw2", None);
      var s := State([e1, e2], map[], None);
      var (s1, c1, _) := StartRecover(s, 1);
      var (s2, c2, _) := StartRecover(s1, 2);
      var written := SettleRecoverAsWritten(SettleRecoverAsWritten(s2, c1, Succeeded).0, c2, Succeeded).0;
      var fixed := SettleRecover(SettleRecover(s2, c1, Succeeded).0, c2, Succeeded).0;
      written.list == [e1] && fixed.list == []
  {
    var e1 := Entry(1, "mail", "me", "pw1", None);
    var e2 := Entry(2, "bank", "me", "pw2", None);
    assert WithoutId([e1, e2], 2) == [e1];
    assert WithoutId([e1, e2], 1) == [e2];
    assert WithoutId([e2], 2) == [];
  }

  // ---- show / hide -------------------------------------------------------

  predicate Shown(show: map<nat, bool>, id: nat) {
    id in show && show[id]
  }

  /** The eye button: flips one entry's flag, a missing flag counting as
      hidden, and leaves every other flag alone. */
  function Toggle(show: map<nat, bool>, id: nat): (r: map<nat, bool>)
    ensures Shown(r, id) == !Shown(show, id)
    ensures r.Keys == show.Keys + {id}
    ensures forall k :: k in show && k != id ==> r[k] == show[k]
  {
    show[id := !Shown(show, id)]
  }

  /** Toggling twice shows and hides exactly what it did before; the map
      itself comes back only if the id already had a flag, because a missing
      flag comes back as an explicit `false`. */
  lemma ToggleTwice(show: map<nat, bool>, id: nat)
    ensures forall k :: Shown(Toggle(Toggle(show, id), id), k) == Shown(show, k)
    ensures id in show ==> Toggle(Toggle(show, id), id) == show
    ensures id !in show ==> Toggle(Toggle(show, id), id) == show[id := false]
  {
  }

  const Mask: string := "••••••••••••"

  /** What the password cell shows. */
  function Displayed(e: Entry, show: map<nat, bool>): (text: string)
    ensures Shown(show, e.id) ==> text == e.password
    ensures !Shown(show, e.id) ==> text == Mask && |text| == 12
  {
    if Shown(show, e.id) then e.password else Mask
  }
}
