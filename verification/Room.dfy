/** Room membership: an append-only list of entries whose status can only go from active
    to revoked, looked up by the first entry of a fingerprint. */
module Room {
  import opened Basics
  import opened Members

  datatype Entry = Entry(fingerprint: Fingerprint, role: Role, status: Status) {
    predicate IsActive() {
      status == Active
    }
  }

  datatype State = State(maxMembers: u16, members: seq<Entry>)

  datatype Error = RoomFull | MemberAlreadyExists | MemberNotFound | CannotRevokeOwner

  function ActiveCount(members: seq<Entry>): nat {
    if members == [] then 0
    else ActiveCount(members[..|members| - 1]) + (if members[|members| - 1].IsActive() then 1 else 0)
  }

  predicate IsFull(r: State) {
    ActiveCount(r.members) >= r.maxMembers
  }

  /** The position of the first entry of a fingerprint. */
  function Find(members: seq<Entry>, fp: Fingerprint): (r: Option<nat>)
    ensures r.Some? ==> r.value < |members| && members[r.value].fingerprint == fp
    ensures r.Some? ==> forall i :: 0 <= i < r.value ==> members[i].fingerprint != fp
    ensures r.None? ==> forall i :: 0 <= i < |members| ==> members[i].fingerprint != fp
  {
    if members == [] then None
    else
      var n := |members| - 1;
      var earlier := Find(members[..n], fp);
      if earlier.Some? then earlier
      else if members[n].fingerprint == fp then Some(n) else None
  }

  predicate IsAuthorized(r: State, fp: Fingerprint) {
    var at := Find(r.members, fp);
    at.Some? && r.members[at.value].IsActive()
  }

  function Add(r: State, m: Entry): Result<State, Error> {
    if IsFull(r) then Err(RoomFull)
    else if IsAuthorized(r, m.fingerprint) then Err(MemberAlreadyExists)
    else Ok(r.(members := r.members + [m]))
  }

  function Revoke(r: State, fp: Fingerprint): Result<State, Error> {
    var at := Find(r.members, fp);
    if at.None? then Err(MemberNotFound)
    else if r.members[at.value].role == Owner then Err(CannotRevokeOwner)
    else Ok(r.(members := r.members[at.value := r.members[at.value].(status := Revoked)]))
  }

  class Room {
    var maxMembers: u16
    var members: seq<Entry>

    function View(): State
      reads this
    {
      State(maxMembers, members)
    }

    /** A new room asserts that its founder is an owner. */
    constructor (maxMembers: u16, owner: Entry)
      requires owner.role == Owner
      ensures View() == State(maxMembers, [owner])
    {
      this.maxMembers, members := maxMembers, [owner];
    }

    method AddMember(m: Entry) returns (r: Result<(), Error>)
      modifies this`members
      ensures match Add(old(View()), m)
              case Ok(after) => r == Ok(()) && View() == after
              case Err(e) => r == Err(e) && View() == old(View())
    {
      if ActiveCount(members) >= maxMembers {
        return Err(RoomFull);
      }
      var existing := Find(members, m.fingerprint);
      if existing.Some? && members[existing.value].IsActive() {
        return Err(MemberAlreadyExists);
      }
      members := members + [m];
      r := Ok(());
    }

    method RevokeMember(fp: Fingerprint) returns (r: Result<(), Error>)
      modifies this`members
      ensures match Revoke(old(View()), fp)
              case Ok(after) => r == Ok(()) && View() == after
              case Err(e) => r == Err(e) && View() == old(View())
    {
      var at := Find(members, fp);
      if at.None? {
        return Err(MemberNotFound);
      }
      if members[at.value].role == Owner {
        return Err(CannotRevokeOwner);
      }
      members := members[at.value := members[at.value].(status := Revoked)];
      r := Ok(());
    }
  }

  // ---------------------------------------------------------------------------
  // Any sequence of operations

  datatype Op = AddOp(entry: Entry) | RevokeOp(fp: Fingerprint)

  function Try(r: State, op: Op): State {
    var outcome := match op case AddOp(m) => Add(r, m) case RevokeOp(fp) => Revoke(r, fp);
    if outcome.Ok? then outcome.value else r
  }

  function TryAll(r: State, ops: seq<Op>): State
    decreases |ops|
  {
    if ops == [] then r else TryAll(Try(r, ops[0]), ops[1..])
  }

  lemma {:induction false} CountUpdate(members: seq<Entry>, i: nat)
    requires i < |members|
    ensures ActiveCount(members[i := members[i].(status := Revoked)])
         == ActiveCount(members) - (if members[i].IsActive() then 1 else 0)
    decreases |members|
  {
    var n := |members| - 1;
    var after := members[i := members[i].(status := Revoked)];
    if i < n {
      CountUpdate(members[..n], i);
      assert after[..n] == members[..n][i := members[i].(status := Revoked)];
    } else {
      assert after[..n] == members[..n];
    }
  }

  lemma CountAppend(members: seq<Entry>, m: Entry)
    ensures ActiveCount(members + [m]) == ActiveCount(members) + (if m.IsActive() then 1 else 0)
  {
    assert (members + [m])[..|members|] == members;
  }

  /** The positions of the active entries. */
  function Actives(members: seq<Entry>): set<nat> {
    set i | 0 <= i < |members| && members[i].status == Active
  }

  lemma {:induction false} CountIsCardinality(members: seq<Entry>)
    ensures ActiveCount(members) == |Actives(members)|
  {
    if members != [] {
      var n := |members| - 1;
      CountIsCardinality(members[..n]);
      assert Actives(members) == Actives(members[..n]) + (if members[n].status == Active then {n} else {});
    }
  }

  /** When adding succeeds, and what it does: there is room for one more active member, and
      the first entry of the fingerprint, if any, is revoked. */
  lemma AddExactly(r: State, m: Entry)
    ensures Add(r, m)
         == if |Actives(r.members)| >= r.maxMembers then Err(RoomFull)
            else if exists i :: 0 <= i < |r.members| && IsFirst(r.members, i, m.fingerprint)
                      && r.members[i].status == Active
              then Err(MemberAlreadyExists)
            else Ok(State(r.maxMembers, r.members + [m]))
  {
    CountIsCardinality(r.members);
    AuthorizedIff(r, m.fingerprint);
  }

  predicate IsFirst(members: seq<Entry>, i: nat, fp: Fingerprint) {
    i < |members| && members[i].fingerprint == fp && forall j :: 0 <= j < i ==> members[j].fingerprint != fp
  }

  /** A fingerprint is authorised exactly when its first entry is active. */
  lemma AuthorizedIff(r: State, fp: Fingerprint)
    ensures IsAuthorized(r, fp)
       <==> exists i :: 0 <= i < |r.members| && IsFirst(r.members, i, fp) && r.members[i].status == Active
  {
    var at := Find(r.members, fp);
    if at.Some? {
      assert IsFirst(r.members, at.value, fp);
    }
  }

  /** When revoking succeeds, and what it does: the status of the first entry of the
      fingerprint changes, and nothing else. */
  lemma RevokeExactly(r: State, fp: Fingerprint)
    ensures Revoke(r, fp) == Err(MemberNotFound)
       <==> forall i :: 0 <= i < |r.members| ==> r.members[i].fingerprint != fp
    ensures Revoke(r, fp) == Err(CannotRevokeOwner)
       <==> exists i :: 0 <= i < |r.members| && IsFirst(r.members, i, fp) && r.members[i].role == Owner
    ensures Revoke(r, fp) != Err(RoomFull) && Revoke(r, fp) != Err(MemberAlreadyExists)
    ensures Revoke(r, fp).Ok? ==>
      && Revoke(r, fp).value.maxMembers == r.maxMembers && |Revoke(r, fp).value.members| == |r.members|
      && forall i :: 0 <= i < |r.members| ==>
           Revoke(r, fp).value.members[i] == if IsFirst(r.members, i, fp) then Entry(fp, r.members[i].role, Revoked)
                                            else r.members[i]
  {
    var at := Find(r.members, fp);
    if at.Some? {
      assert IsFirst(r.members, at.value, fp);
      assert forall i :: 0 <= i < |r.members| && IsFirst(r.members, i, fp) ==> i == at.value;
    }
  }

  /** Entries are only ever added at the end, and an entry only ever changes from active
      to revoked. */
  ghost predicate Grows(r: State, s: State) {
    && s.maxMembers == r.maxMembers
    && |r.members| <= |s.members|
    && forall i :: 0 <= i < |r.members| ==>
         || s.members[i] == r.members[i]
         || (r.members[i].role != Owner && s.members[i] == r.members[i].(status := Revoked))
  }

  lemma {:induction false} RunGrows(r: State, ops: seq<Op>)
    ensures Grows(r, TryAll(r, ops))
    ensures ActiveCount(r.members) <= r.maxMembers
      ==> ActiveCount(TryAll(r, ops).members) <= r.maxMembers
    decreases |ops|
  {
    if ops != [] {
      var s := Try(r, ops[0]);
      match ops[0] {
        case AddOp(m) => CountAppend(r.members, m);
        case RevokeOp(fp) =>
          var at := Find(r.members, fp);
          if at.Some? {
            CountUpdate(r.members, at.value);
          }
      }
      RunGrows(s, ops[1..]);
    }
  }

  /** Over every run from a new room, whoever is added or revoked: the founding owner
      stays active and authorised, and the active count never exceeds the limit. */
  lemma OwnerStaysAndCountIsBounded(maxMembers: u16, owner: Entry, ops: seq<Op>)
    requires maxMembers >= 1 && owner.role == Owner && owner.IsActive()
    ensures var r := TryAll(State(maxMembers, [owner]), ops);
      IsAuthorized(r, owner.fingerprint) && ActiveCount(r.members) <= maxMembers
  {
    var r0 := State(maxMembers, [owner]);
    OneActive(owner);
    RunGrows(r0, ops);
    FounderStays(r0, TryAll(r0, ops));
  }

  lemma OneActive(m: Entry)
    requires m.IsActive()
    ensures ActiveCount([m]) == 1
  {
    CountAppend([], m);
    assert [] + [m] == [m];
  }

  lemma FounderStays(r0: State, r: State)
    requires Grows(r0, r) && r0.members != [] && r0.members[0].role == Owner && r0.members[0].IsActive()
    ensures IsAuthorized(r, r0.members[0].fingerprint)
  {
    assert r.members[0] == r0.members[0];
    assert Find(r.members, r0.members[0].fingerprint) == Some(0);
  }

  /** Once revoked, a fingerprint is never authorised again, even if it is added anew. */
  lemma RevokedForever(r: State, fp: Fingerprint, ops: seq<Op>)
    requires Revoke(r, fp).Ok?
    ensures !IsAuthorized(TryAll(Revoke(r, fp).value, ops), fp)
  {
    var s := Revoke(r, fp).value;
    var at := Find(r.members, fp).value;
    RunGrows(s, ops);
    var t := TryAll(s, ops);
    forall i | 0 <= i <= at ensures t.members[i].fingerprint == r.members[i].fingerprint {
      assert t.members[i].fingerprint == s.members[i].fingerprint;
    }
    assert t.members[at] == s.members[at];
    assert Find(t.members, fp) == Some(at);
  }

  // ---------------------------------------------------------------------------
  // Duplicates

  /** No fingerprint has two active entries. */
  ghost predicate UniqueActive(members: seq<Entry>) {
    forall i, j :: 0 <= i < j < |members| && members[i].IsActive() && members[j].IsActive()
      ==> members[i].fingerprint != members[j].fingerprint
  }

  predicate HasActive(members: seq<Entry>, fp: Fingerprint) {
    exists i :: 0 <= i < |members| && members[i].fingerprint == fp && members[i].IsActive()
  }

  /** Adding an active member keeps active fingerprints unique exactly when the room is
      full, the first entry of the fingerprint is active, or no entry of it is: it fails
      when a revoked first entry hides an active later one. */
  lemma AddKeepsUniqueIff(r: State, m: Entry)
    requires UniqueActive(r.members) && m.IsActive()
    ensures UniqueActive(Try(r, AddOp(m)).members)
       <==> IsFull(r) || IsAuthorized(r, m.fingerprint) || !HasActive(r.members, m.fingerprint)
  {
    var after := Try(r, AddOp(m)).members;
    if Add(r, m).Ok? && HasActive(r.members, m.fingerprint) {
      var i :| 0 <= i < |r.members| && r.members[i].fingerprint == m.fingerprint && r.members[i].IsActive();
      assert after[i] == r.members[i] && after[|r.members|] == m;
    }
  }

  /** Revoking never makes a duplicate. */
  lemma RevokeKeepsUnique(r: State, fp: Fingerprint)
    requires UniqueActive(r.members)
    ensures UniqueActive(Try(r, RevokeOp(fp)).members)
  {
  }

  /** Revoke, add, add: two active entries of one fingerprint, and it is not authorised. */
  lemma DuplicateAfterRevoke(owner: Entry, m: Entry)
    requires owner.role == Owner && owner.IsActive() && m.role == Member && m.IsActive()
    requires owner.fingerprint != m.fingerprint
    ensures var r := TryAll(State(10, [owner]), [AddOp(m), RevokeOp(m.fingerprint), AddOp(m), AddOp(m)]);
      !UniqueActive(r.members) && !IsAuthorized(r, m.fingerprint)
  {
    var gone := m.(status := Revoked);
    var r0, r1, r2, r3, r4 := State(10, [owner]), State(10, [owner, m]), State(10, [owner, gone]),
                              State(10, [owner, gone, m]), State(10, [owner, gone, m, m]);
    AddWorks(r0, m);
    assert r0.members + [m] == r1.members;
    RevokeSecond(owner, m);
    AddWorks(r2, m);
    assert r2.members + [m] == r3.members;
    assert r3.members[1].fingerprint == m.fingerprint;
    AddWorks(r3, m);
    assert r3.members + [m] == r4.members;
    TryAllOfFour(r0, r1, r2, r3, r4, AddOp(m), RevokeOp(m.fingerprint), AddOp(m), AddOp(m));
    assert r4.members[2] == r4.members[3] == m;
    assert IsFirst(r4.members, 1, m.fingerprint);
    AuthorizedIff(r4, m.fingerprint);
  }

  /** With room for one more, whoever is not authorised is added. */
  lemma AddWorks(r: State, m: Entry)
    requires |r.members| < r.maxMembers
    requires forall i :: 0 <= i < |r.members| && IsFirst(r.members, i, m.fingerprint) ==> r.members[i].status == Revoked
    ensures Try(r, AddOp(m)) == r.(members := r.members + [m])
  {
    AddExactly(r, m);
    ActivesAreFew(r.members);
  }

  lemma {:induction false} ActivesAreFew(members: seq<Entry>)
    ensures |Actives(members)| <= |members|
  {
    CountIsCardinality(members);
    if members != [] {
      ActivesAreFew(members[..|members| - 1]);
      CountIsCardinality(members[..|members| - 1]);
    }
  }

  lemma RevokeSecond(owner: Entry, m: Entry)
    requires owner.fingerprint != m.fingerprint && m.role == Member
    ensures Try(State(10, [owner, m]), RevokeOp(m.fingerprint)) == State(10, [owner, m.(status := Revoked)])
  {
    var r := State(10, [owner, m]);
    RevokeExactly(r, m.fingerprint);
    assert IsFirst(r.members, 1, m.fingerprint) && !IsFirst(r.members, 0, m.fingerprint);
    assert r.members[1].fingerprint == m.fingerprint;
  }

  lemma TryAllOfFour(r0: State, r1: State, r2: State, r3: State, r4: State, a: Op, b: Op, c: Op, d: Op)
    requires Try(r0, a) == r1 && Try(r1, b) == r2 && Try(r2, c) == r3 && Try(r3, d) == r4
    ensures TryAll(r0, [a, b, c, d]) == r4
  {
    assert [a, b, c, d][1..] == [b, c, d] && [b, c, d][1..] == [c, d] && [c, d][1..] == [d] && [d][1..] == [];
    assert TryAll(r3, [d]) == TryAll(r4, []);
    assert TryAll(r2, [c, d]) == TryAll(r3, [d]);
    assert TryAll(r1, [b, c, d]) == TryAll(r2, [c, d]);
  }

  // ---------------------------------------------------------------------------
  // Authentication by the host

  /** How the host admits a client: it adds an entry only when there is none at all. */
  function Admit(r: State, m: Entry): State {
    if Find(r.members, m.fingerprint).None? then Try(r, AddOp(m)) else r
  }

  /** Someone with no entry at all gets one at the end, unless the room is full, and is then
      authorised if the entry is active; for anyone else nothing changes. */
  lemma AdmitExactly(r: State, m: Entry)
    ensures Admit(r, m).maxMembers == r.maxMembers
    ensures Admit(r, m).members
         == if Find(r.members, m.fingerprint).None? && |Actives(r.members)| < r.maxMembers then r.members + [m]
            else r.members
    ensures Find(r.members, m.fingerprint).None? && |Actives(r.members)| < r.maxMembers
      ==> (IsAuthorized(Admit(r, m), m.fingerprint) <==> m.status == Active)
    ensures IsFull(r) <==> |Actives(r.members)| >= r.maxMembers
  {
    CountIsCardinality(r.members);
    if Find(r.members, m.fingerprint).None? && !IsFull(r) {
      assert Find(r.members + [m], m.fingerprint) == Some(|r.members|) by {
        assert (r.members + [m])[..|r.members|] == r.members;
      }
    }
  }

  /** The fingerprints of all active entries. */
  function Allowlist(r: State): set<Fingerprint> {
    set i | 0 <= i < |r.members| && r.members[i].IsActive() :: r.members[i].fingerprint
  }

  ghost predicate Distinct(members: seq<Entry>) {
    forall i, j :: 0 <= i < j < |members| ==> members[i].fingerprint != members[j].fingerprint
  }

  lemma AdmitKeepsDistinct(r: State, m: Entry)
    requires Distinct(r.members)
    ensures Distinct(Admit(r, m).members)
  {
  }

  lemma RevokeKeepsDistinct(r: State, fp: Fingerprint)
    requires Distinct(r.members)
    ensures Distinct(Try(r, RevokeOp(fp)).members)
  {
    var at := Find(r.members, fp);
    if Revoke(r, fp).Ok? {
      var after := Try(r, RevokeOp(fp)).members;
      forall i | 0 <= i < |after| ensures after[i].fingerprint == r.members[i].fingerprint {
      }
    }
  }

  /** While fingerprints are distinct, the list the host checks against is exactly the set
      of authorised fingerprints. */
  lemma AllowlistIsAuthorized(r: State, fp: Fingerprint)
    requires Distinct(r.members)
    ensures fp in Allowlist(r) <==> IsAuthorized(r, fp)
  {
    if fp in Allowlist(r) {
      var i :| 0 <= i < |r.members| && r.members[i].IsActive() && r.members[i].fingerprint == fp;
      assert Find(r.members, fp).value == i;
    }
  }
}
