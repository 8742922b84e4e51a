/**
 * A task's assignees: the users linked to the task through the join entity
 * {task, user, is_supervisor}, and the notifications the relationship
 * endpoints send. Replacing the assignees notifies the users who were added
 * and the users who were removed, each once; users kept in place hear
 * nothing. Promoting or demoting supervisors changes only the flag of
 * existing memberships and notifies the named users.
 */
module TaskAssignees {
  import opened Includes

  type UserId = string

  datatype NotificationKind = Assigned | Unassigned | NewSupervisors | RemovedSupervisors

  /** One notification as sent: its kind and the users it is addressed to. */
  datatype Notification = Notification(kind: NotificationKind, recipients: set<UserId>)

  /** The HTTP outcome of an endpoint: 204 No Content, 200 OK, or 404 Resource not found. */
  datatype Reply = NoContent | Ok | ResourceNotFound

  /** Who joins and who leaves when the membership `current` is replaced by `requested`. */
  datatype MembershipDiff = MembershipDiff(added: set<UserId>, removed: set<UserId>)

  function Diff(current: set<UserId>, requested: set<UserId>): (d: MembershipDiff)
    ensures d.added !! d.removed
    ensures forall u :: u in d.added <==> u in requested && u !in current
    ensures forall u :: u in d.removed <==> u in current && u !in requested
    ensures current - d.removed + d.added == requested
  {
    MembershipDiff(requested - current, current - requested)
  }

  /** The notifications of a replacement: users added hear they were assigned, users removed that they were unassigned. */
  function DiffNotifications(d: MembershipDiff): (events: seq<Notification>)
    ensures forall e :: e in events ==> e.recipients != {}
    ensures |events| <= 2
    ensures Notification(Assigned, d.added) in events <==> d.added != {}
    ensures Notification(Unassigned, d.removed) in events <==> d.removed != {}
  {
    (if d.added != {} then [Notification(Assigned, d.added)] else [])
    + (if d.removed != {} then [Notification(Unassigned, d.removed)] else [])
  }

  /**
   * The memberships after a replace-set sync: exactly the requested users;
   * a kept membership keeps its supervisor flag, a new one starts without it.
   */
  function Synced(members: map<UserId, bool>, requested: set<UserId>): (m: map<UserId, bool>)
    ensures m.Keys == requested
    ensures forall u :: u in m && u in members ==> m[u] == members[u]
    ensures forall u :: u in m && u !in members ==> !m[u]
  {
    map u | u in requested :: if u in members then members[u] else false
  }

  /** The memberships after setting the supervisor flag of the existing memberships among `ids`. */
  function WithFlag(members: map<UserId, bool>, ids: set<UserId>, flag: bool): (m: map<UserId, bool>)
    ensures m.Keys == members.Keys
    ensures forall u :: u in m && u in ids ==> m[u] == flag
    ensures forall u :: u in m && u !in ids ==> m[u] == members[u]
  {
    map u | u in members :: if u in ids then flag else members[u]
  }

  /** The users a supervisor notification reaches: the named ids that belong to a user. */
  function NamedUsers(ids: seq<UserId>, userExists: UserId -> bool): (r: set<UserId>)
    ensures forall u :: u in r <==> u in ids && userExists(u)
  {
    set u | u in ids && userExists(u)
  }

  /** Sending to nobody sends nothing. */
  function Notify(kind: NotificationKind, recipients: set<UserId>): (events: seq<Notification>)
    ensures events == [] <==> recipients == {}
    ensures forall e :: e in events ==> e == Notification(kind, recipients)
  {
    if recipients == {} then [] else [Notification(kind, recipients)]
  }

  class Assignees {
    /** The memberships of the task: assigned user to supervisor flag. */
    var members: map<UserId, bool>
    /** Every notification sent so far, oldest first. */
    var log: seq<Notification>

    /** Nothing is ever sent to nobody. */
    ghost predicate Valid()
      reads this
    {
      forall i :: 0 <= i < |log| ==> log[i].recipients != {}
    }

    constructor(initial: map<UserId, bool>)
      ensures members == initial && log == []
      ensures Valid()
    {
      members := initial;
      log := [];
    }

    /** The linkage of the assignees relationship: one `users` identifier per assignee. */
    method Index() returns (linkage: seq<Identifier>)
      ensures NoDuplicates(linkage)
      ensures forall x :: x in linkage <==> x.typ == "users" && x.id in members
      ensures |linkage| == |members|
    {
      linkage := [];
      var rest := members.Keys;
      while rest != {}
        invariant rest <= members.Keys
        invariant NoDuplicates(linkage)
        invariant forall x :: x in linkage <==> x.typ == "users" && x.id in members && x.id !in rest
        invariant |linkage| + |rest| == |members.Keys|
        decreases |rest|
      {
        var u :| u in rest;
        linkage := linkage + [Identifier("users", u)];
        rest := rest - {u};
      }
    }

    /** Replaces the assignees by `requested`: detaches the users not requested, then attaches the new ones. */
    method Sync(requested: set<UserId>)
      modifies this
      ensures members == Synced(old(members), requested)
      ensures log == old(log)
    {
      Detach(requested);
      Attach(requested);
      assert members == Synced(old(members), requested);
    }

    /** Removes every membership whose user is not in `keep`. */
    method Detach(keep: set<UserId>)
      modifies this
      ensures members.Keys == old(members).Keys * keep
      ensures forall u :: u in members ==> members[u] == old(members)[u]
      ensures log == old(log)
    {
      var detach := members.Keys - keep;
      while detach != {}
        invariant detach <= members.Keys && detach !! keep
        invariant forall u :: u in members <==> u in old(members) && (u in keep || u in detach)
        invariant forall u :: u in members ==> members[u] == old(members)[u]
        invariant log == old(log)
        decreases |detach|
      {
        var u :| u in detach;
        members := members - {u};
        detach := detach - {u};
      }
    }

    /** Adds a plain (non-supervisor) membership for every user of `requested` not yet a member. */
    method Attach(requested: set<UserId>)
      modifies this
      ensures members.Keys == old(members).Keys + requested
      ensures forall u :: u in members ==> members[u] == (if u in old(members) then old(members)[u] else false)
      ensures log == old(log)
    {
      var attach := requested - members.Keys;
      while attach != {}
        invariant attach <= requested && attach !! members.Keys && attach !! old(members).Keys
        invariant forall u :: u in members <==> u in old(members) || (u in requested && u !in attach)
        invariant forall u :: u in members ==> members[u] == (if u in old(members) then old(members)[u] else false)
        invariant log == old(log)
        decreases |attach|
      {
        var u :| u in attach;
        members := members[u := false];
        attach := attach - {u};
      }
    }

    /**
     * PATCH of the relationship: fails with 404 before any change when a
     * named user does not exist; otherwise notifies from the membership
     * before the change and then replaces it.
     */
    method Update(ids: seq<UserId>, userExists: UserId -> bool) returns (reply: Reply)
      requires Valid()
      modifies this
      ensures Valid()
      ensures reply == ResourceNotFound <==> exists u :: u in ids && !userExists(u)
      ensures reply == ResourceNotFound ==> members == old(members) && log == old(log)
      ensures reply != ResourceNotFound ==>
                && reply == NoContent
                && members == Synced(old(members), set u | u in ids)
                && log == old(log) + DiffNotifications(Diff(old(members).Keys, set u | u in ids))
    {
      if exists u :: u in ids && !userExists(u) {
        return ResourceNotFound;
      }
      var requested := set u | u in ids;
      log := log + DiffNotifications(Diff(members.Keys, requested));
      Sync(requested);
      reply := NoContent;
    }

    /** Makes the named assignees supervisors and notifies the named users. */
    method Supervisor(ids: seq<UserId>, userExists: UserId -> bool) returns (reply: Reply)
      requires Valid()
      modifies this
      ensures Valid()
      ensures reply == Ok
      ensures members == WithFlag(old(members), set u | u in ids, true)
      ensures log == old(log) + Notify(NewSupervisors, NamedUsers(ids, userExists))
    {
      members := WithFlag(members, set u | u in ids, true);
      log := log + Notify(NewSupervisors, NamedUsers(ids, userExists));
      reply := Ok;
    }

    /** Takes the supervisor role from the named assignees and notifies the named users. */
    method RemoveSupervisor(ids: seq<UserId>, userExists: UserId -> bool) returns (reply: Reply)
      requires Valid()
      modifies this
      ensures Valid()
      ensures reply == Ok
      ensures members == WithFlag(old(members), set u | u in ids, false)
      ensures log == old(log) + Notify(RemovedSupervisors, NamedUsers(ids, userExists))
    {
      members := WithFlag(members, set u | u in ids, false);
      log := log + Notify(RemovedSupervisors, NamedUsers(ids, userExists));
      reply := Ok;
    }
  }

  // ---------------------------------------------------------------------
  // Properties of a replacement
  // ---------------------------------------------------------------------

  /** After a sync the assignees are exactly the requested users, whatever they were before. */
  lemma SyncReplaces(members: map<UserId, bool>, requested: set<UserId>)
    ensures Synced(members, requested).Keys == requested
    ensures Diff(members.Keys, requested).added + (members.Keys * requested) == Synced(members, requested).Keys
  {
  }

  /**
   * Every user whose membership changes is notified exactly once, and no
   * other user is notified.
   */
  lemma NotifiedExactlyOnce(current: set<UserId>, requested: set<UserId>, u: UserId)
    ensures var events := DiffNotifications(Diff(current, requested));
            && ((exists i :: 0 <= i < |events| && u in events[i].recipients) <==> (u in current <==> u !in requested))
            && (forall i, j :: 0 <= i < j < |events| ==> !(u in events[i].recipients && u in events[j].recipients))
  {
    var d := Diff(current, requested);
    var events := DiffNotifications(d);
    if u in d.added {
      assert events[0] == Notification(Assigned, d.added);
    } else if u in d.removed {
      assert events[|events| - 1] == Notification(Unassigned, d.removed);
    }
  }

  /** Repeating a replacement changes nothing and notifies nobody. */
  lemma ReplaceIsIdempotent(members: map<UserId, bool>, requested: set<UserId>)
    ensures Synced(Synced(members, requested), requested) == Synced(members, requested)
    ensures DiffNotifications(Diff(Synced(members, requested).Keys, requested)) == []
  {
    var once := Synced(members, requested);
    var twice := Synced(once, requested);
    assert twice.Keys == once.Keys;
    forall u | u in twice ensures twice[u] == once[u] {
    }
    var d := Diff(once.Keys, requested);
    assert d.added == {} && d.removed == {};
  }

  /** An empty request clears the assignees and tells every former assignee, once, that they were unassigned. */
  lemma EmptyRequestClears(members: map<UserId, bool>)
    ensures Synced(members, {}) == map[]
    ensures DiffNotifications(Diff(members.Keys, {})) == if members == map[] then [] else [Notification(Unassigned, members.Keys)]
  {
    var d := Diff(members.Keys, {});
    assert d.added == {};
    assert d.removed == members.Keys;
    if members != map[] {
      var u :| u in members;
      assert u in d.removed;
    } else {
      assert members.Keys == {};
    }
  }

  /** Promoting and then demoting the same users leaves them demoted; the membership never changes. */
  lemma DemoteUndoesPromote(members: map<UserId, bool>, ids: set<UserId>)
    ensures WithFlag(WithFlag(members, ids, true), ids, false) == WithFlag(members, ids, false)
    ensures WithFlag(WithFlag(members, ids, true), ids, false).Keys == members.Keys
  {
    var a := WithFlag(WithFlag(members, ids, true), ids, false);
    var b := WithFlag(members, ids, false);
    assert a.Keys == b.Keys;
    forall u | u in a ensures a[u] == b[u] {
    }
  }

  // ---------------------------------------------------------------------
  // The replacements the feature tests perform
  // ---------------------------------------------------------------------

  const TenUsers: set<UserId> := {"1", "2", "3", "4", "5", "6", "7", "8", "9", "10"}

  /** Ten assignees replaced by users 1, 2 and 5: users 3, 4 and 6 to 10 are unassigned, nobody is assigned. */
  lemma KeepSomeRemoveOthers(members: map<UserId, bool>)
    requires members.Keys == TenUsers
    ensures Synced(members, {"1", "2", "5"}).Keys == {"1", "2", "5"}
    ensures DiffNotifications(Diff(members.Keys, {"1", "2", "5"})) ==
            [Notification(Unassigned, {"3", "4", "6", "7", "8", "9", "10"})]
  {
    var d := Diff(members.Keys, {"1", "2", "5"});
    assert d.added == {};
    assert d.removed == {"3", "4", "6", "7", "8", "9", "10"};
  }

  /** Ten assignees replaced by users 5 and 6: the other eight are unassigned. */
  lemma ReplaceByTwo(members: map<UserId, bool>)
    requires members.Keys == TenUsers
    ensures Synced(members, {"5", "6"}).Keys == {"5", "6"}
    ensures DiffNotifications(Diff(members.Keys, {"5", "6"})) ==
            [Notification(Unassigned, {"1", "2", "3", "4", "7", "8", "9", "10"})]
  {
    var d := Diff(members.Keys, {"5", "6"});
    assert d.added == {};
    assert d.removed == {"1", "2", "3", "4", "7", "8", "9", "10"};
  }

  /** Users B and C kept, A removed, D added: D is told of the assignment, A of the removal, B and C hear nothing. */
  lemma ReplaceAddsAndRemoves()
    ensures DiffNotifications(Diff({"A", "B", "C"}, {"B", "C", "D"})) ==
            [Notification(Assigned, {"D"}), Notification(Unassigned, {"A"})]
  {
    var d := Diff({"A", "B", "C"}, {"B", "C", "D"});
    assert d.added == {"D"};
    assert d.removed == {"A"};
  }

  /** Naming users 5 and 6, who do not exist, answers 404 and leaves the task as it was. */
  method UnknownUsersScenario() returns (reply: Reply, members: map<UserId, bool>, log: seq<Notification>)
    ensures reply == ResourceNotFound
    ensures members == map["1" := false, "2" := false] && log == []
  {
    var task := new Assignees(map["1" := false, "2" := false]);
    reply := task.Update(["5", "6"], u => u in {"1", "2", "3"});
    assert "5" in ["5", "6"] && !("5" in {"1", "2", "3"});
    members, log := task.members, task.log;
  }
}
