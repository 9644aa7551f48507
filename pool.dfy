/**
 * The pool record and its date-driven lifecycle (app/Models/Pool.php).
 * Dates are day numbers; "today" is the start of the current day and is
 * always passed in, since the clock is not part of the model.
 */
module Pools {
  import opened Wrappers

  type Day = int

  datatype Status = Selection | Active | Finished

  /** Position of a status on the lifecycle selection -> active -> finished. */
  function Rank(s: Status): nat {
    match s
    case Selection => 0
    case Active => 1
    case Finished => 2
  }

  /**
   * `calculateStatus`: finished after the end date, active strictly after the
   * start (draft) day up to the end date, selection otherwise. The last
   * fallback of the source is unreachable, which the `assert false` records.
   */
  function CalculateStatus(startDate: Day, endDate: Day, today: Day): (s: Status)
    ensures s == Finished <==> today > endDate
    ensures s == Active <==> startDate < today <= endDate
    ensures s == Selection <==> today <= startDate && today <= endDate
  {
    if today > endDate then Finished
    else if today > startDate && today <= endDate then Active
    else if today <= startDate then Selection
    else assert false; Selection
  }

  /** The draft day itself is still part of the selection phase. */
  lemma DraftDayIsSelection(startDate: Day, endDate: Day)
    requires startDate <= endDate
    ensures CalculateStatus(startDate, endDate, startDate) == Selection
    ensures startDate < endDate ==> CalculateStatus(startDate, endDate, startDate + 1) == Active
  {
  }

  /** Status never moves backwards as days pass. */
  lemma StatusMonotone(startDate: Day, endDate: Day, d1: Day, d2: Day)
    requires d1 <= d2
    ensures Rank(CalculateStatus(startDate, endDate, d1)) <= Rank(CalculateStatus(startDate, endDate, d2))
  {
  }

  /** Once finished, a pool stays finished. */
  lemma FinishedIsFinal(startDate: Day, endDate: Day, d1: Day, d2: Day)
    requires d1 <= d2 && CalculateStatus(startDate, endDate, d1) == Finished
    ensures CalculateStatus(startDate, endDate, d2) == Finished
  {
    StatusMonotone(startDate, endDate, d1, d2);
  }

  /**
   * First day whose games count for a pool: the day after the draft day. The
   * window then runs through the end date, both ends included.
   */
  function WindowFirstDay(startDate: Day): (d: Day)
    ensures d == startDate + 1
  {
    startDate + 1
  }

  /** The counted days are exactly the days on which the pool is active. */
  lemma WindowIsActivePhase(startDate: Day, endDate: Day, d: Day)
    ensures WindowFirstDay(startDate) <= d <= endDate <==> CalculateStatus(startDate, endDate, d) == Active
  {
  }

  /** A `pool_user` pivot row: the participant and its `selection_completed_at` (None while still drafting). */
  datatype Membership = Membership(userId: int, completedAt: Option<int>)

  /** The users that hold at least one pivot row. */
  function MemberIds(members: seq<Membership>): (ids: set<int>)
    ensures forall u :: u in ids <==> exists i :: 0 <= i < |members| && members[i].userId == u
  {
    set i | 0 <= i < |members| :: members[i].userId
  }

  /**
   * The pivot row `where('users.id', $u)->first()` loads: the first row of
   * that user, as an index.
   */
  function FirstRowOf(members: seq<Membership>, u: int): (r: Option<nat>)
    ensures r.None? <==> u !in MemberIds(members)
    ensures r.Some? ==> r.value < |members| && members[r.value].userId == u
                        && forall j :: 0 <= j < r.value ==> members[j].userId != u
    decreases |members|
  {
    if members == [] then None
    else if members[0].userId == u then Some(0)
    else
      match FirstRowOf(members[1..], u)
      case None => None
      case Some(i) => Some(i + 1)
  }

  /** The rows `attach($ids)` inserts: one per listed id, in order, none completed. */
  function Joined(userIds: seq<int>): (rows: seq<Membership>)
    ensures |rows| == |userIds|
    ensures forall i :: 0 <= i < |userIds| ==> rows[i].userId == userIds[i] && rows[i].completedAt.None?
    decreases |userIds|
  {
    if userIds == [] then [] else Joined(userIds[..|userIds| - 1]) + [Membership(userIds[|userIds| - 1], None)]
  }

  /** The attached users are exactly the listed ids, a repeated id holding one row per occurrence. */
  lemma JoinedMembers(userIds: seq<int>)
    ensures MemberIds(Joined(userIds)) == set u | u in userIds
    ensures forall u :: |FilterUser(Joined(userIds), u)| == multiset(userIds)[u]
  {
    forall u ensures |FilterUser(Joined(userIds), u)| == multiset(userIds)[u] {
      JoinedCount(userIds, u);
    }
  }

  /** `user_ids` = [7, 7] attaches user 7 twice: two pivot rows, one member. */
  lemma RepeatedIdTwoRows()
    ensures |Joined([7, 7])| == 2 && |FilterUser(Joined([7, 7]), 7)| == 2
    ensures MemberIds(Joined([7, 7])) == {7}
  {
    JoinedMembers([7, 7]);
    assert multiset([7, 7])[7] == 2;
    assert (set u | u in [7, 7]) == {7};
  }

  /** The pivot rows of one user. */
  function FilterUser(members: seq<Membership>, u: int): (r: seq<Membership>)
    ensures forall m :: m in r <==> m in members && m.userId == u
    decreases |members|
  {
    if members == [] then []
    else FilterUser(members[..|members| - 1], u) + (if members[|members| - 1].userId == u then [members[|members| - 1]] else [])
  }

  /** Proof step of JoinedMembers: the rows of one user count its occurrences. */
  lemma {:induction false} JoinedCount(userIds: seq<int>, u: int)
    ensures |FilterUser(Joined(userIds), u)| == multiset(userIds)[u]
    decreases |userIds|
  {
    if userIds != [] {
      var init := userIds[..|userIds| - 1];
      assert userIds == init + [userIds[|userIds| - 1]];
      JoinedCount(init, u);
      var rows := Joined(userIds);
      assert rows[..|rows| - 1] == Joined(init);
    }
  }

  /** `updateExistingPivot($u, ['selection_completed_at' => $now])`: every row of that user is stamped. */
  function Completed(members: seq<Membership>, u: int, now: int): (r: seq<Membership>)
    ensures |r| == |members|
    ensures forall i :: 0 <= i < |members| ==>
      r[i] == if members[i].userId == u then Membership(u, Some(now)) else members[i]
  {
    seq(|members|, i requires 0 <= i < |members| => if members[i].userId == u then Membership(u, Some(now)) else members[i])
  }

  /** After stamping, a member's first row is completed, and other users' rows are untouched. */
  lemma CompletedFirstRow(members: seq<Membership>, u: int, now: int, v: int)
    requires u in MemberIds(members)
    ensures var r := Completed(members, u, now);
      && MemberIds(r) == MemberIds(members)
      && FirstRowOf(r, u) == FirstRowOf(members, u)
      && r[FirstRowOf(r, u).value].completedAt == Some(now)
      && (v != u ==> FilterUser(r, v) == FilterUser(members, v))
  {
    var r := Completed(members, u, now);
    assert forall i :: 0 <= i < |members| ==> r[i].userId == members[i].userId;
    FirstRowSameUsers(members, r, u);
    if v != u {
      FilterSameRows(members, r, v);
    }
  }

  /** Proof step of CompletedFirstRow: the first row of a user depends only on the rows' users. */
  lemma {:induction false} FirstRowSameUsers(a: seq<Membership>, b: seq<Membership>, u: int)
    requires |a| == |b| && forall i :: 0 <= i < |a| ==> a[i].userId == b[i].userId
    ensures FirstRowOf(a, u) == FirstRowOf(b, u)
    decreases |a|
  {
    if a != [] {
      FirstRowSameUsers(a[1..], b[1..], u);
    }
  }

  /** Proof step of CompletedFirstRow: rows of another user are untouched. */
  lemma {:induction false} FilterSameRows(a: seq<Membership>, b: seq<Membership>, v: int)
    requires |a| == |b|
    requires forall i :: 0 <= i < |a| ==> (a[i].userId == v <==> b[i].userId == v) && (a[i].userId == v ==> a[i] == b[i])
    ensures FilterUser(a, v) == FilterUser(b, v)
    decreases |a|
  {
    if a != [] {
      FilterSameRows(a[..|a| - 1], b[..|b| - 1], v);
    }
  }

  /** The listed fields of a pool, as a value (what the dashboard reads). */
  datatype PoolView = PoolView(
    id: int, name: string, startDate: Day, endDate: Day, ruleSettingId: int,
    ownerId: int, members: seq<Membership>)

  /**
   * A pool row. `status` is the persisted copy of `CalculateStatus`;
   * `members` holds the pool's `pool_user` pivot rows in insertion order.
   */
  class Pool {
    const id: int
    const name: string
    const startDate: Day
    const endDate: Day
    const ruleSettingId: int
    const ownerId: int
    var status: Status
    var members: seq<Membership>

    /** `Pool::create([... 'status' => 'selection'])` with no participants yet. */
    constructor (id: int, name: string, startDate: Day, endDate: Day, ruleSettingId: int, ownerId: int)
      ensures this.id == id && this.name == name && this.ruleSettingId == ruleSettingId
      ensures this.startDate == startDate && this.endDate == endDate && this.ownerId == ownerId
      ensures status == Selection && members == []
    {
      this.id := id;
      this.name := name;
      this.startDate := startDate;
      this.endDate := endDate;
      this.ruleSettingId := ruleSettingId;
      this.ownerId := ownerId;
      status := Selection;
      members := [];
    }

    function View(): PoolView
      reads this`members
    {
      PoolView(id, name, startDate, endDate, ruleSettingId, ownerId, members)
    }

    /**
     * `updateStatus`: store the status computed for today. It touches
     * nothing else and is idempotent: a second call on the same day finds
     * the status already equal to what it would write.
     */
    method UpdateStatus(today: Day)
      modifies this`status
      ensures status == CalculateStatus(startDate, endDate, today)
      ensures old(status) == CalculateStatus(startDate, endDate, today) ==> status == old(status)
    {
      status := CalculateStatus(startDate, endDate, today);
    }

    /**
     * `users()->attach($ids)`: one new pivot row per listed id, in order and
     * not completed; the rows already there are kept.
     */
    method Attach(userIds: seq<int>)
      modifies this`members
      ensures members == old(members) + Joined(userIds)
    {
      members := members + Joined(userIds);
    }

    /**
     * `completeSelection`: a non-member is refused (403) and nothing changes;
     * for a member, every pivot row of that member gets the time stamp.
     */
    method CompleteSelection(userId: int, now: int) returns (ok: bool)
      modifies this`members
      ensures ok <==> userId in MemberIds(old(members))
      ensures members == if ok then Completed(old(members), userId, now) else old(members)
    {
      ok := userId in MemberIds(members);
      if ok {
        members := Completed(members, userId, now);
      }
    }
  }
}
